/** The length-prefixed frames of the observer protocol. Payload encoding is not part of this model. */
module Framing {
  import opened Prelude
  import opened Orders

  type byte = x: int | 0 <= x < 0x100

  const MAX_MESSAGE_SIZE := 16 * 1024

  datatype FrameError = OversizedMessage | UnexpectedEof

  function ToBigEndian(n: u32): (r: seq<byte>)
    ensures |r| == 4
  {
    var m: int := n;
    var b0: int := m / 0x100_0000;
    var b1: int := m / 0x1_0000;
    var b2: int := m / 0x100;
    [b0, b1 % 0x100, b2 % 0x100, m % 0x100]
  }

  function FromBigEndian(b: seq<byte>): u32
    requires |b| == 4
  {
    b[0] as int * 0x100_0000 + b[1] as int * 0x1_0000 + b[2] as int * 0x100 + b[3] as int
  }

  lemma FromToBigEndian(n: u32)
    ensures FromBigEndian(ToBigEndian(n)) == n
  {
    var m: int := n;
    assert m / 0x100 == m / 0x1_0000 * 0x100 + m / 0x100 % 0x100;
    assert m / 0x1_0000 == m / 0x100_0000 * 0x100 + m / 0x1_0000 % 0x100;
  }

  lemma Divides(n: int, q: int, r: int)
    ensures n == q * 0x100 + r && 0 <= r < 0x100 ==> n / 0x100 == q && n % 0x100 == r
    ensures n == q * 0x1_0000 + r && 0 <= r < 0x1_0000 ==> n / 0x1_0000 == q
    ensures n == q * 0x100_0000 + r && 0 <= r < 0x100_0000 ==> n / 0x100_0000 == q
  {
  }

  lemma ToFromBigEndian(b: seq<byte>)
    requires |b| == 4
    ensures ToBigEndian(FromBigEndian(b)) == b
  {
    var m: int := FromBigEndian(b);
    var x: int, y: int, z: int, w: int := b[0], b[1], b[2], b[3];
    Divides(m, x, y * 0x1_0000 + z * 0x100 + w);
    Divides(m, x * 0x100 + y, z * 0x100 + w);
    Divides(m, x * 0x1_0000 + y * 0x100 + z, w);
    Divides(x * 0x100 + y, x, y);
    Divides(x * 0x1_0000 + y * 0x100 + z, x * 0x100 + y, z);
  }

  /** Written lengths are ordered as the lengths are, byte by byte from the first: the most significant comes first. */
  lemma WrittenInOrder(m: u32, n: u32)
    ensures LexLeq(ToBigEndian(m), ToBigEndian(n)) <==> m <= n
  {
    FromToBigEndian(m);
    FromToBigEndian(n);
    var a, b := ToBigEndian(m), ToBigEndian(n);
    hide ToBigEndian;
    assert a[1..][1..][1..][1..] == [] && b[1..][1..][1..][1..] == [];
    assert LexLeq(a[1..][1..][1..], b[1..][1..][1..]) <==> a[3] <= b[3];
    assert LexLeq(a[1..][1..], b[1..][1..]) <==> a[2] < b[2] || (a[2] == b[2] && a[3] <= b[3]);
    assert LexLeq(a[1..], b[1..]) <==>
           a[1] < b[1] || (a[1] == b[1] && (a[2] < b[2] || (a[2] == b[2] && a[3] <= b[3])));
  }

  /** What can be sent and read: one to 16384 bytes. */
  predicate Sendable(payload: seq<byte>) {
    1 <= |payload| <= 16384
  }

  function Frame(payload: seq<byte>): (r: seq<byte>)
    requires |payload| <= MAX_MESSAGE_SIZE
    ensures |r| == 4 + |payload|
  {
    ToBigEndian(|payload|) + payload
  }

  /** The outcome of one read and how many bytes it takes from the stream. */
  datatype Parsed = Parsed(result: Result<seq<byte>, FrameError>, consumed: nat)

  function Parse(data: seq<byte>): (r: Parsed)
    ensures r.consumed <= |data|
  {
    if |data| < 4 then
      Parsed(Failure(UnexpectedEof), |data|)
    else
      var length := FromBigEndian(data[..4]);
      if length == 0 || length > MAX_MESSAGE_SIZE then
        Parsed(Failure(OversizedMessage), 4)
      else if |data| < 4 + length then
        Parsed(Failure(UnexpectedEof), |data|)
      else
        Parsed(Success(data[4..4 + length]), 4 + length)
  }

  // ----- Streams -----

  class Writer {
    var bytes: seq<byte>

    constructor ()
      ensures bytes == []
    {
      bytes := [];
    }

    method WriteMessage(payload: seq<byte>) returns (r: Result<(), FrameError>)
      modifies this
      ensures r.Success? <==> |payload| <= 16384
      ensures bytes == if r.Success? then old(bytes) + Frame(payload) else old(bytes)
    {
      if |payload| > MAX_MESSAGE_SIZE {
        return Failure(OversizedMessage);
      }
      bytes := bytes + ToBigEndian(|payload|);
      bytes := bytes + payload;
      r := Success(());
    }
  }

  class Reader {
    const data: seq<byte>
    var position: nat

    ghost predicate Valid()
      reads this
    {
      position <= |data|
    }

    constructor (data: seq<byte>)
      ensures Valid() && this.data == data && position == 0
    {
      this.data := data;
      position := 0;
    }

    method ReadExact(n: nat) returns (r: Result<seq<byte>, FrameError>)
      requires Valid()
      modifies this
      ensures Valid()
      ensures r == if old(position) + n <= |data| then Success(data[old(position)..old(position) + n])
          else Failure(UnexpectedEof)
      ensures position == if old(position) + n <= |data| then old(position) + n else |data|
    {
      if position + n <= |data| {
        r := Success(data[position..position + n]);
        position := position + n;
      } else {
        r := Failure(UnexpectedEof);
        position := |data|;
      }
    }

    method ReadMessage() returns (r: Result<seq<byte>, FrameError>)
      requires Valid()
      modifies this
      ensures Valid()
      ensures position >= old(position)
      ensures Parsed(r, position - old(position)) == Parse(data[old(position)..])
    {
      ghost var rest := data[position..];
      var header := ReadExact(4);
      if header.Failure? {
        return Failure(header.error);
      }
      assert header.value == rest[..4];
      var length := FromBigEndian(header.value);
      if length == 0 || length > MAX_MESSAGE_SIZE {
        return Failure(OversizedMessage);
      }
      r := ReadExact(length);
      assert r.Success? ==> r.value == rest[4..4 + length];
    }
  }

  // ----- What can be read is exactly what was written -----

  /** A read succeeds with a payload exactly when the stream starts with that payload's frame. */
  lemma ReadsExactlyFrames(data: seq<byte>, payload: seq<byte>)
    ensures Parse(data) == Parsed(Success(payload), 4 + |payload|) <==> Sendable(payload) && Frame(payload) <= data
  {
    if |data| >= 4 {
      ToFromBigEndian(data[..4]);
      if Sendable(payload) {
        FromToBigEndian(|payload|);
        if Frame(payload) <= data {
          assert data[..4] == Frame(payload)[..4] == ToBigEndian(|payload|);
          assert data[4..4 + |payload|] == Frame(payload)[4..] == payload;
        }
        if Parse(data) == Parsed(Success(payload), 4 + |payload|) {
          assert Frame(payload) == data[..4] + data[4..4 + |payload|];
        }
      }
    }
  }

  /** A header of zero or above the limit is rejected with only the header consumed, whatever follows. */
  lemma BadHeaderIsRejectedAlone(n: u32, rest: seq<byte>)
    ensures Parse(ToBigEndian(n) + rest) == Parsed(Failure(OversizedMessage), 4) <==> n == 0 || n > 16384
  {
    var data := ToBigEndian(n) + rest;
    assert data[..4] == ToBigEndian(n);
    FromToBigEndian(n);
  }

  ghost predicate AllSendable(payloads: seq<seq<byte>>) {
    forall i | 0 <= i < |payloads| :: Sendable(payloads[i])
  }

  ghost function FrameAll(payloads: seq<seq<byte>>): seq<byte>
    requires AllSendable(payloads)
  {
    if payloads == [] then [] else Frame(payloads[0]) + FrameAll(payloads[1..])
  }

  /** Reads messages until the stream is used up; None if some read fails. */
  function ParseAll(data: seq<byte>): Option<seq<seq<byte>>>
    decreases |data|
  {
    if data == [] then Some([])
    else
      var first := Parse(data);
      if first.result.Failure? then None
      else
        var rest := ParseAll(data[first.consumed..]);
        if rest.None? then None else Some([first.result.value] + rest.value)
  }

  lemma {:induction false} WrittenIsRead(payloads: seq<seq<byte>>)
    requires AllSendable(payloads)
    ensures ParseAll(FrameAll(payloads)) == Some(payloads)
  {
    hide Frame, Parse;
    if payloads != [] {
      var data := FrameAll(payloads);
      ReadsExactlyFrames(data, payloads[0]);
      assert data[4 + |payloads[0]|..] == FrameAll(payloads[1..]);
      WrittenIsRead(payloads[1..]);
      assert payloads == [payloads[0]] + payloads[1..] && data != [];
      assert Parse(data) == Parsed(Success(payloads[0]), 4 + |payloads[0]|);
    }
  }

  lemma SuccessIsConsumed(data: seq<byte>)
    ensures Parse(data).result.Success? ==> Parse(data).consumed == 4 + |Parse(data).result.value|
  {
  }

  lemma PrefixSplits(data: seq<byte>, payload: seq<byte>)
    requires Sendable(payload) && Frame(payload) <= data
    ensures data == Frame(payload) + data[4 + |payload|..]
  {
    hide ToBigEndian;
  }

  lemma FrameAllNext(payload: seq<byte>, rest: seq<seq<byte>>)
    requires Sendable(payload) && AllSendable(rest)
    ensures AllSendable([payload] + rest) && FrameAll([payload] + rest) == Frame(payload) + FrameAll(rest)
  {
    hide Frame;
    var all := [payload] + rest;
    assert all[1..] == rest;
    assert forall i | 0 < i < |all| :: all[i] == rest[i - 1];
  }

  lemma {:induction false} ReadWasWritten(data: seq<byte>, payloads: seq<seq<byte>>)
    requires ParseAll(data) == Some(payloads)
    ensures AllSendable(payloads) && data == FrameAll(payloads)
    decreases |data|
  {
    hide Parse, Frame, FrameAll, Sendable, AllSendable;
    if data == [] {
      NothingFramed();
    } else {
      var first := Parse(data).result.value;
      SuccessIsConsumed(data);
      ReadsExactlyFrames(data, first);
      PrefixSplits(data, first);
      var rest := ParseAll(data[4 + |first|..]).value;
      ReadWasWritten(data[4 + |first|..], rest);
      FrameAllNext(first, rest);
    }
  }

  lemma NothingFramed()
    ensures AllSendable([]) && FrameAll([]) == []
  {
  }

  /** A stream is read completely as a given sequence exactly when it is the concatenation of that
      sequence's frames and every payload has one to the maximum number of bytes. */
  lemma FramingRoundTrip(data: seq<byte>, payloads: seq<seq<byte>>)
    ensures ParseAll(data) == Some(payloads) <==>
            AllSendable(payloads) && data == FrameAll(payloads)
  {
    if ParseAll(data) == Some(payloads) {
      ReadWasWritten(data, payloads);
    } else if AllSendable(payloads) && data == FrameAll(payloads) {
      WrittenIsRead(payloads);
    }
  }
}
