/** Decimal printing of integers, as the `{}` formatter writes them. */
module Decimal {

  function Digit(d: int): char
    requires 0 <= d < 10
  {
    ('0' as int + d) as char
  }

  predicate IsDigit(c: char) {
    '0' <= c <= '9'
  }

  function Print(n: nat): (s: string)
    ensures s != [] && forall i | 0 <= i < |s| :: IsDigit(s[i])
  {
    (if n < 10 then [] else Print(n / 10)) + [Digit(n % 10)]
  }

  function PrintSigned(n: int): string {
    if n < 0 then "-" + Print(-n) else Print(n)
  }

  lemma {:induction false} PrintInjective(m: nat, n: nat)
    requires Print(m) == Print(n)
    ensures m == n
  {
    var a, b := Print(m), Print(n);
    assert a[|a| - 1] == b[|b| - 1];
    assert m % 10 == n % 10;
    assert a[..|a| - 1] == (if m < 10 then [] else Print(m / 10));
    assert b[..|b| - 1] == (if n < 10 then [] else Print(n / 10));
    if m >= 10 && n >= 10 {
      PrintInjective(m / 10, n / 10);
    }
  }

  lemma PrintSignedInjective(m: int, n: int)
    requires PrintSigned(m) == PrintSigned(n)
    ensures m == n
  {
    assert PrintSigned(m)[0] == PrintSigned(n)[0];
    if m < 0 {
      assert PrintSigned(m)[1..] == Print(-m) && PrintSigned(n)[1..] == Print(-n);
      PrintInjective(-m, -n);
    } else {
      PrintInjective(m, n);
    }
  }

  /** A run of digits, possibly signed, ends where a separator that is neither digit nor first begins. */
  ghost predicate Field(s: string) {
    s != [] && forall i | 0 < i < |s| :: IsDigit(s[i])
  }

  lemma FieldSplit(a: string, b: string, sep: char, x: string, y: string)
    requires Field(a) && Field(b) && !IsDigit(sep)
    requires a + [sep] + x == b + [sep] + y
    ensures a == b && x == y
  {
    var s := a + [sep] + x;
    var t := b + [sep] + y;
    assert s[|a|] == sep && t[|b|] == sep;
    assert forall i | 0 <= i < |a| :: s[i] == a[i];
    assert forall i | 0 <= i < |b| :: t[i] == b[i];
    assert |a| == |b|;
    assert s[..|a|] == a && t[..|b|] == b;
    assert s[|a| + 1..] == x && t[|b| + 1..] == y;
  }

  /** The values printed in order, with the given separators between them. */
  function PrintFields(values: seq<int>, separators: string): string
    requires |values| == |separators| + 1
  {
    if separators == [] then
      PrintSigned(values[0])
    else
      PrintSigned(values[0]) + [separators[0]] + PrintFields(values[1..], separators[1..])
  }

  lemma {:induction false} PrintFieldsInjective(a: seq<int>, b: seq<int>, separators: string)
    requires |a| == |b| == |separators| + 1
    requires forall c | c in separators :: !IsDigit(c)
    requires PrintFields(a, separators) == PrintFields(b, separators)
    ensures a == b
  {
    if separators == [] {
      PrintSignedInjective(a[0], b[0]);
    } else {
      var x, y := PrintFields(a[1..], separators[1..]), PrintFields(b[1..], separators[1..]);
      FieldSplit(PrintSigned(a[0]), PrintSigned(b[0]), separators[0], x, y);
      PrintSignedInjective(a[0], b[0]);
      PrintFieldsInjective(a[1..], b[1..], separators[1..]);
      assert a == [a[0]] + a[1..] && b == [b[0]] + b[1..];
    }
  }

  /** The number a text of decimal digits denotes. */
  function Value(s: string): nat {
    if s == [] then 0
    else Value(s[..|s| - 1]) * 10 + (if IsDigit(s[|s| - 1]) then s[|s| - 1] as int - '0' as int else 0)
  }

  /** Printing writes the decimal digits of a number, without leading zeros. */
  lemma {:induction false} PrintDenotes(n: nat)
    ensures Value(Print(n)) == n
    ensures Print(n)[0] == '0' ==> Print(n) == "0"
  {
    var s := Print(n);
    assert s[|s| - 1] == Digit(n % 10);
    assert s[..|s| - 1] == (if n < 10 then [] else Print(n / 10));
    if n >= 10 {
      PrintDenotes(n / 10);
      assert s[0] == Print(n / 10)[0];
    }
  }

  /** A minus sign and nothing else marks a negative number. */
  lemma PrintSignedDenotes(n: int)
    ensures n >= 0 ==> Value(PrintSigned(n)) == n && IsDigit(PrintSigned(n)[0])
    ensures n < 0 ==> PrintSigned(n)[0] == '-' && Value(PrintSigned(n)[1..]) == -n
  {
    PrintDenotes(if n < 0 then -n else n);
  }
}
