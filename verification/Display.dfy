/** What the shell extension lists: sessions deduplicated by trimmed id and sorted by name, camera and id. */
module Display {
  import opened Prelude
  import opened Orders

  /** UTF-16 code units; JavaScript compares strings by them. */
  type Text = seq<int>

  /** The host's text operations, about which nothing is assumed: trimming, lower-casing, replacing unsafe
      characters and runs of blanks, and keeping the first 160 characters. */
  datatype TextRules = TextRules(trim: Text -> Text, lower: Text -> Text, clean: Text -> Text, clip: Text -> Text)

  datatype Value = NotText | Str(text: Text)

  /** An element of the list received; one that is no object carries nothing. */
  datatype Entry = NotAnObject | Entry(sessionId: Value, applicationName: Value, cameraName: Value)

  datatype Session = Session(sessionId: Text, applicationName: Text, cameraName: Text)

  const UNKNOWN_APPLICATION: Text := Codes("Unknown application")
  const UNKNOWN_CAMERA: Text := Codes("Unknown camera")

  // ----- Normalising one entry -----

  function Identifier(t: TextRules, e: Entry): Text {
    if e.NotAnObject? || e.sessionId.NotText? then [] else t.trim(e.sessionId.text)
  }

  function Sanitized(t: TextRules, v: Value, fallback: Text): Text {
    if v.NotText? || t.clean(v.text) == [] then fallback else t.clip(t.clean(v.text))
  }

  /** An entry counts when it is an object whose trimmed id is not empty. */
  predicate Counts(t: TextRules, e: Entry) {
    Identifier(t, e) != []
  }

  function Shown(t: TextRules, e: Entry): Session
    requires Counts(t, e)
  {
    Session(
      Identifier(t, e),
      Sanitized(t, e.applicationName, UNKNOWN_APPLICATION),
      Sanitized(t, e.cameraName, UNKNOWN_CAMERA))
  }

  // ----- Comparing -----

  predicate Less(a: Text, b: Text) {
    a != b && LexLeq(a, b)
  }

  function CompareText(t: TextRules, left: Text, right: Text): int {
    if Less(t.lower(left), t.lower(right)) then -1
    else if Less(t.lower(right), t.lower(left)) then 1
    else if Less(left, right) then -1
    else if Less(right, left) then 1
    else 0
  }

  function CompareSessions(t: TextRules, left: Session, right: Session): int {
    var byName := CompareText(t, left.applicationName, right.applicationName);
    var byCamera := CompareText(t, left.cameraName, right.cameraName);
    if byName != 0 then byName
    else if byCamera != 0 then byCamera
    else CompareText(t, left.sessionId, right.sessionId)
  }

  /** The order the comparison induces. */
  function ByDisplay(t: TextRules): (Session, Session) -> bool {
    (a, b) => CompareSessions(t, a, b) <= 0
  }

  lemma LessIsStrict(a: Text, b: Text, c: Text)
    ensures Less(a, b) || Less(b, a) || a == b
    ensures !(Less(a, b) && Less(b, a))
    ensures Less(a, b) && Less(b, c) ==> Less(a, c)
  {
    LexTotal(a, b);
    if LexLeq(a, b) && LexLeq(b, a) { LexAntisymmetric(a, b); }
    if Less(a, b) && Less(b, c) {
      LexTransitive(a, b, c);
      if a == c { LexAntisymmetric(a, b); }
    }
  }

  lemma CompareTextOrders(t: TextRules, a: Text, b: Text, c: Text)
    ensures CompareText(t, a, b) == 0 <==> a == b
    ensures CompareText(t, b, a) == -CompareText(t, a, b)
    ensures CompareText(t, a, b) <= 0 && CompareText(t, b, c) <= 0 ==> CompareText(t, a, c) <= 0
    ensures CompareText(t, a, b) <= 0 && CompareText(t, b, c) <= 0 && CompareText(t, a, c) == 0 ==> a == b == c
  {
    hide Less;
    LessIsStrict(a, b, c);
    LessIsStrict(b, c, a);
    LessIsStrict(a, c, b);
    LessIsStrict(t.lower(a), t.lower(b), t.lower(c));
    LessIsStrict(t.lower(b), t.lower(c), t.lower(a));
    LessIsStrict(t.lower(a), t.lower(c), t.lower(b));
    LessIsStrict(a, a, a);
    LessIsStrict(t.lower(a), t.lower(a), t.lower(a));
  }

  /** The three levels give a strict total order on sessions: sessions compare equal only when they are the
      same, swapping reverses the sign, and the order is transitive. */
  lemma CompareSessionsOrders(t: TextRules, a: Session, b: Session, c: Session)
    ensures CompareSessions(t, a, b) == 0 <==> a == b
    ensures CompareSessions(t, b, a) == -CompareSessions(t, a, b)
    ensures CompareSessions(t, a, b) <= 0 && CompareSessions(t, b, c) <= 0 ==> CompareSessions(t, a, c) <= 0
  {
    hide CompareText;
    CompareTextOrders(t, a.applicationName, b.applicationName, c.applicationName);
    CompareTextOrders(t, a.cameraName, b.cameraName, c.cameraName);
    CompareTextOrders(t, a.sessionId, b.sessionId, c.sessionId);
    CompareTextOrders(t, b.applicationName, c.applicationName, a.applicationName);
    CompareTextOrders(t, b.cameraName, c.cameraName, a.cameraName);
    CompareTextOrders(t, a.applicationName, c.applicationName, b.applicationName);
    CompareTextOrders(t, a.cameraName, c.cameraName, b.cameraName);
  }

  lemma ByDisplayIsTotalOrder(t: TextRules)
    ensures TotalOrder(ByDisplay(t))
  {
    hide CompareSessions;
    var leq := ByDisplay(t);
    forall x, y ensures leq(x, y) || leq(y, x) { CompareSessionsOrders(t, x, y, x); }
    forall x, y | leq(x, y) && leq(y, x) ensures x == y { CompareSessionsOrders(t, x, y, x); }
    forall x, y, z | leq(x, y) && leq(y, z) ensures leq(x, z) { CompareSessionsOrders(t, x, y, z); }
  }

  // ----- Which entries are shown -----

  /** The entry at `i` counts and is the first with the id. */
  ghost predicate IsFirst(t: TextRules, entries: seq<Entry>, id: Text, i: int) {
    && 0 <= i < |entries| && id != [] && Identifier(t, entries[i]) == id
    && forall j | 0 <= j < i :: Identifier(t, entries[j]) != id
  }

  /** The session kept for each id. */
  function Kept(t: TextRules, entries: seq<Entry>): map<Text, Session> {
    if entries == [] then map[]
    else
      var before, last := Kept(t, entries[..|entries| - 1]), entries[|entries| - 1];
      if !Counts(t, last) || Identifier(t, last) in before then before
      else before[Identifier(t, last) := Shown(t, last)]
  }

  /** Exactly the first counting occurrence of each id is kept. */
  lemma {:induction false} KeptIsFirst(t: TextRules, entries: seq<Entry>, id: Text)
    ensures id in Kept(t, entries) <==> exists i :: IsFirst(t, entries, id, i)
    ensures forall i | IsFirst(t, entries, id, i) :: Kept(t, entries)[id] == Shown(t, entries[i])
    ensures forall i | 0 <= i < |entries| && Counts(t, entries[i]) && Identifier(t, entries[i]) == id ::
        id in Kept(t, entries)
  {
    hide Identifier, Sanitized;
    if entries != [] {
      var n := |entries| - 1;
      KeptIsFirst(t, entries[..n], id);
      assert forall i | i != n :: IsFirst(t, entries[..n], id, i) <==> IsFirst(t, entries, id, i);
      if id in Kept(t, entries[..n]) {
        var i :| IsFirst(t, entries[..n], id, i);
        assert IsFirst(t, entries, id, i);
      } else if Counts(t, entries[n]) && Identifier(t, entries[n]) == id {
        assert IsFirst(t, entries, id, n);
      }
    }
  }

  lemma {:induction false} KeptUnderOwnId(t: TextRules, entries: seq<Entry>)
    ensures forall id | id in Kept(t, entries) :: Kept(t, entries)[id].sessionId == id
  {
    if entries != [] { KeptUnderOwnId(t, entries[..|entries| - 1]); }
  }

  /** What is displayed: the kept sessions in display order. */
  ghost function Displayed(t: TextRules, entries: seq<Entry>): seq<Session> {
    ByDisplayIsTotalOrder(t);
    Listing(ByDisplay(t), Kept(t, entries).Values)
  }

  // ----- The normalising loop and the sort -----

  ghost predicate Sorted(t: TextRules, s: seq<Session>) {
    forall i, j | 0 <= i < j < |s| :: CompareSessions(t, s[i], s[j]) <= 0
  }

  function Insert(t: TextRules, x: Session, s: seq<Session>): (r: seq<Session>)
    ensures multiset(r) == multiset(s) + multiset{x}
  {
    if s == [] || CompareSessions(t, x, s[0]) < 0 then
      [x] + s
    else
      assert s == [s[0]] + s[1..];
      [s[0]] + Insert(t, x, s[1..])
  }

  lemma {:induction false} InsertSorts(t: TextRules, x: Session, s: seq<Session>)
    requires Sorted(t, s)
    ensures Sorted(t, Insert(t, x, s))
  {
    hide CompareSessions;
    if s == [] || CompareSessions(t, x, s[0]) < 0 {
      forall j | 0 <= j < |s| ensures CompareSessions(t, x, s[j]) <= 0 {
        CompareSessionsOrders(t, x, s[0], s[j]);
      }
    } else {
      InsertSorts(t, x, s[1..]);
      var rest := Insert(t, x, s[1..]);
      CompareSessionsOrders(t, x, s[0], x);
      forall j | 0 <= j < |rest| ensures CompareSessions(t, s[0], rest[j]) <= 0 {
        assert rest[j] in multiset(rest);
        if rest[j] != x { assert rest[j] in s[1..]; }
      }
    }
  }

  /** The host's `sort`, here by insertion. */
  method SortSessions(t: TextRules, s: seq<Session>) returns (r: seq<Session>)
    ensures multiset(r) == multiset(s) && Sorted(t, r)
  {
    hide CompareSessions;
    r := [];
    for i := 0 to |s|
      invariant multiset(r) == multiset(s[..i]) && Sorted(t, r)
    {
      assert s[..i + 1] == s[..i] + [s[i]];
      InsertSorts(t, s[i], r);
      r := Insert(t, s[i], r);
    }
    assert s[..|s|] == s;
  }

  method NormalizeSessions(t: TextRules, sessions: Option<seq<Entry>>) returns (r: seq<Session>)
    ensures r == if sessions.None? then [] else Displayed(t, sessions.value)
    ensures forall i, j | 0 <= i < j < |r| :: MayPrecede(t, r[i], r[j])
    ensures sessions.Some? ==> forall line | line in r :: exists k :: LineOf(t, sessions.value, line, k)
  {
    hide MayPrecede, LineOf;
    if sessions.None? {
      return [];
    }
    var entries := sessions.value;
    var unique: map<Text, Session> := map[];
    var order: seq<Text> := [];
    for i := 0 to |entries|
      invariant unique == Kept(t, entries[..i])
      invariant Distinct(order) && forall id :: id in order <==> id in unique
    {
      assert entries[..i + 1][..i] == entries[..i];
      var sessionId := Identifier(t, entries[i]);
      if entries[i].NotAnObject? || sessionId == [] || sessionId in unique {
        continue;
      }
      unique := unique[sessionId := Shown(t, entries[i])];
      order := order + [sessionId];
    }
    assert entries[..|entries|] == entries;
    var values := seq(|order|, k requires 0 <= k < |order| && order[k] in unique => unique[order[k]]);
    r := SortSessions(t, values);
    ValuesAreListed(t, entries, order, values);
    SortedIsListing(t, values, r);
    LinesAreOrdered(t, entries);
    LinesAreEntries(t, entries);
  }

  lemma ValuesAreListed(t: TextRules, entries: seq<Entry>, order: seq<Text>, values: seq<Session>)
    requires Distinct(order) && forall id :: id in order <==> id in Kept(t, entries)
    requires |values| == |order| && forall k | 0 <= k < |order| :: values[k] == Kept(t, entries)[order[k]]
    ensures Distinct(values) && Elements(values) == Kept(t, entries).Values
  {
    KeptUnderOwnId(t, entries);
    var m := Kept(t, entries);
    forall s | s in m.Values ensures s in values {
      var id :| id in m && m[id] == s;
      var k :| 0 <= k < |order| && order[k] == id;
      assert values[k] == s;
    }
  }

  /** Sorting distinct sessions can only give their ascending listing. */
  lemma SortedIsListing(t: TextRules, values: seq<Session>, r: seq<Session>)
    requires Distinct(values) && multiset(r) == multiset(values) && Sorted(t, r)
    ensures TotalOrder(ByDisplay(t)) && r == Listing(ByDisplay(t), Elements(values))
  {
    hide CompareSessions;
    ByDisplayIsTotalOrder(t);
    forall i, j | 0 <= i < j < |r| ensures r[i] != r[j] {
      if r[i] == r[j] {
        TwiceInMultiset(r, i, j);
        OnceInDistinct(values, r[i]);
      }
    }
    assert forall x :: x in r <==> x in multiset(r);
    assert forall x :: x in values <==> x in multiset(values);
    assert Elements(r) == Elements(values);
    ListingIs(ByDisplay(t), r);
  }

  lemma TwiceInMultiset<T>(s: seq<T>, i: nat, j: nat)
    requires i < j < |s| && s[i] == s[j]
    ensures multiset(s)[s[i]] >= 2
  {
    assert s == s[..i] + [s[i]] + s[i + 1..j] + [s[j]] + s[j + 1..];
  }

  lemma {:induction false} OnceInDistinct<T>(s: seq<T>, x: T)
    requires Distinct(s)
    ensures multiset(s)[x] <= 1
  {
    if s != [] {
      assert s == [s[0]] + s[1..];
      OnceInDistinct(s[1..], x);
      if x == s[0] { assert x !in s[1..]; }
    }
  }

  // ----- Order independence -----

  /** Two inputs are displayed alike exactly when they keep the same session for each id. */
  lemma DisplayedAlikeIff(t: TextRules, a: seq<Entry>, b: seq<Entry>)
    ensures Displayed(t, a) == Displayed(t, b) <==> Kept(t, a) == Kept(t, b)
  {
    ByDisplayIsTotalOrder(t);
    if Displayed(t, a) == Displayed(t, b) {
      KeptUnderOwnId(t, a);
      KeptUnderOwnId(t, b);
      var p, q := Kept(t, a), Kept(t, b);
      assert forall s :: s in p.Values <==> s in Displayed(t, a);
      assert forall s :: s in q.Values <==> s in Displayed(t, b);
      assert p.Values == q.Values;
      OwnIdsDetermine(p, q);
      OwnIdsDetermine(q, p);
    }
  }

  lemma OwnIdsDetermine(p: map<Text, Session>, q: map<Text, Session>)
    requires forall id | id in p :: p[id].sessionId == id
    requires forall id | id in q :: q[id].sessionId == id
    requires p.Values == q.Values
    ensures forall id | id in p :: id in q && q[id] == p[id]
  {
    forall id | id in p ensures id in q && q[id] == p[id] {
      assert p[id] in q.Values;
    }
  }

  /** Entries of one id all show the same session; in particular when the trimmed ids are pairwise distinct. */
  ghost predicate Unambiguous(t: TextRules, entries: seq<Entry>) {
    forall i, j | 0 <= i < |entries| && 0 <= j < |entries| && Counts(t, entries[i]) && Counts(t, entries[j]) &&
                  Identifier(t, entries[i]) == Identifier(t, entries[j]) ::
      Shown(t, entries[i]) == Shown(t, entries[j])
  }

  lemma KeptFromSameEntries(t: TextRules, a: seq<Entry>, b: seq<Entry>)
    requires Unambiguous(t, a) && forall e :: e in a <==> e in b
    ensures forall id | id in Kept(t, a) :: id in Kept(t, b) && Kept(t, b)[id] == Kept(t, a)[id]
  {
    hide Identifier, Shown;
    forall id | id in Kept(t, a) ensures id in Kept(t, b) && Kept(t, b)[id] == Kept(t, a)[id] {
      KeptIsFirst(t, a, id);
      KeptIsFirst(t, b, id);
      var i :| IsFirst(t, a, id, i);
      assert a[i] in b;
      var k :| 0 <= k < |b| && b[k] == a[i];
      var j :| IsFirst(t, b, id, j);
      assert b[j] in a;
    }
  }

  lemma UnambiguousElsewhere(t: TextRules, a: seq<Entry>, b: seq<Entry>)
    requires Unambiguous(t, a) && forall e :: e in a <==> e in b
    ensures Unambiguous(t, b)
  {
    forall i, j | 0 <= i < |b| && 0 <= j < |b| && Counts(t, b[i]) && Counts(t, b[j]) &&
        Identifier(t, b[i]) == Identifier(t, b[j])
      ensures Shown(t, b[i]) == Shown(t, b[j])
    {
      assert b[i] in a && b[j] in a;
    }
  }

  /** Unambiguous entries are displayed alike in every order. */
  lemma OrderDoesNotMatter(t: TextRules, a: seq<Entry>, b: seq<Entry>)
    requires Unambiguous(t, a) && multiset(a) == multiset(b)
    ensures Displayed(t, a) == Displayed(t, b)
  {
    assert forall e :: e in a <==> e in multiset(a);
    assert forall e :: e in b <==> e in multiset(b);
    UnambiguousElsewhere(t, a, b);
    KeptFromSameEntries(t, a, b);
    KeptFromSameEntries(t, b, a);
    assert Kept(t, a) == Kept(t, b);
  }

  /** Pairwise distinct trimmed ids: every permutation of the input gives the same list. */
  lemma DistinctIdsAnyOrder(t: TextRules, a: seq<Entry>, b: seq<Entry>)
    requires forall i, j | 0 <= i < j < |a| && Counts(t, a[i]) && Counts(t, a[j]) ::
        Identifier(t, a[i]) != Identifier(t, a[j])
    requires multiset(a) == multiset(b)
    ensures Displayed(t, a) == Displayed(t, b)
  {
    forall i, j | 0 <= i < |a| && 0 <= j < |a| && Counts(t, a[i]) && Counts(t, a[j]) &&
        Identifier(t, a[i]) == Identifier(t, a[j])
      ensures Shown(t, a[i]) == Shown(t, a[j])
    {
      assert !(i < j) && !(j < i);
    }
    OrderDoesNotMatter(t, a, b);
  }

  /** Swapping two entries. */
  function Swapped(s: seq<Entry>, i: nat, j: nat): (r: seq<Entry>)
    requires i < j < |s|
    ensures multiset(r) == multiset(s)
  {
    assert s == s[..i] + [s[i]] + s[i + 1..j] + [s[j]] + s[j + 1..];
    s[..i] + [s[j]] + s[i + 1..j] + [s[i]] + s[j + 1..]
  }

  lemma SwapComesFirst(t: TextRules, a: seq<Entry>, id: Text, f: nat, k: nat)
    requires f < k < |a| && IsFirst(t, a, id, f) && Identifier(t, a[k]) == id
    ensures IsFirst(t, Swapped(a, f, k), id, f) && Swapped(a, f, k)[f] == a[k]
  {
    hide Identifier;
    var b := Swapped(a, f, k);
    assert b[f] == a[k] && forall m | 0 <= m < f :: b[m] == a[m];
  }

  /** Some permutation of ambiguous entries is displayed differently. */
  lemma OrderMatters(t: TextRules, a: seq<Entry>) returns (b: seq<Entry>)
    requires !Unambiguous(t, a)
    ensures multiset(a) == multiset(b) && Displayed(t, a) != Displayed(t, b)
  {
    var i, j :| 0 <= i < |a| && 0 <= j < |a| && Counts(t, a[i]) && Counts(t, a[j]) &&
      Identifier(t, a[i]) == Identifier(t, a[j]) && Shown(t, a[i]) != Shown(t, a[j]);
    hide Identifier, Shown, Swapped, Kept, Displayed;
    var id := Identifier(t, a[i]);
    KeptIsFirst(t, a, id);
    var f :| IsFirst(t, a, id, f);
    var k := if Shown(t, a[i]) == Shown(t, a[f]) then j else i;
    b := Swapped(a, f, k);
    SwapComesFirst(t, a, id, f, k);
    KeptIsFirst(t, b, id);
    DisplayedAlikeIff(t, a, b);
  }

  /** The displayed list is independent of the order received exactly when no id comes with two faces. */
  lemma OrderIndependentIff(t: TextRules, a: seq<Entry>)
    ensures Unambiguous(t, a) <==> forall b | multiset(b) == multiset(a) :: Displayed(t, b) == Displayed(t, a)
  {
    if Unambiguous(t, a) {
      forall b | multiset(b) == multiset(a) ensures Displayed(t, b) == Displayed(t, a) {
        OrderDoesNotMatter(t, a, b);
      }
    } else {
      var b := OrderMatters(t, a);
    }
  }

  /** One id under two application names is displayed by whichever comes first. */
  lemma FirstNameWins(t: TextRules, a: Entry, b: Entry)
    requires Counts(t, a) && Counts(t, b) && Identifier(t, a) == Identifier(t, b) && Shown(t, a) != Shown(t, b)
    ensures Displayed(t, [a, b]) != Displayed(t, [b, a])
  {
    hide Identifier, Sanitized;
    KeptIsFirst(t, [a, b], Identifier(t, a));
    KeptIsFirst(t, [b, a], Identifier(t, a));
    assert IsFirst(t, [a, b], Identifier(t, a), 0) && IsFirst(t, [b, a], Identifier(t, a), 0);
    DisplayedAlikeIff(t, [a, b], [b, a]);
  }

  /** Displaying keeps one line per counting id, in strictly ascending display order. */
  lemma DisplayedIsAscending(t: TextRules, entries: seq<Entry>)
    ensures |Displayed(t, entries)| == |Kept(t, entries)|
    ensures forall i, j | 0 <= i < j < |Displayed(t, entries)| ::
              CompareSessions(t, Displayed(t, entries)[i], Displayed(t, entries)[j]) < 0
  {
    hide CompareSessions;
    ByDisplayIsTotalOrder(t);
    var m, d := Kept(t, entries), Displayed(t, entries);
    ListingAscends(ByDisplay(t), m.Values);
    KeptUnderOwnId(t, entries);
    SizeOfValues(m);
    forall i, j | 0 <= i < j < |d| ensures CompareSessions(t, d[i], d[j]) < 0 {
      assert ByDisplay(t)(d[i], d[j]);
      CompareSessionsOrders(t, d[i], d[j], d[i]);
    }
  }

  lemma {:induction false} SizeOfValues(m: map<Text, Session>)
    requires forall id | id in m :: m[id].sessionId == id
    ensures |m.Values| == |m|
    decreases |m|
  {
    if m.Keys == {} {
      assert m.Values == {};
    } else {
      var id :| id in m;
      var rest := m - {id};
      SizeOfValues(rest);
      assert m[id] in m.Values;
      forall s ensures s in rest.Values <==> s in m.Values && s != m[id] {
        if s in m.Values && s != m[id] {
          assert s.sessionId in m && m[s.sessionId] == s && s.sessionId in rest;
        }
      }
      assert rest.Values == m.Values - {m[id]};
    }
  }

  // ----- What the displayed list looks like -----

  /** A text is less than another if it is a proper prefix of it, or smaller where the two first differ. */
  lemma LessMeans(a: Text, b: Text)
    ensures Less(a, b) <==> a < b || exists k: nat :: k < |a| && k < |b| && a[..k] == b[..k] && a[k] < b[k]
  {
    LexMeans(a, b);
    if k: nat :| k < |a| && k < |b| && a[..k] == b[..k] && a[k] < b[k] {
      assert DiffersBelow(a, b, k);
    }
    if k: nat :| DiffersBelow(a, b, k) {
      assert a[k] < b[k];
    }
  }

  /** One line may come before another: by application name, then camera name, then id; at each level case-folded
      first, the text as it is only deciding between texts that fold alike. */
  predicate MayPrecede(t: TextRules, a: Session, b: Session) {
    && !Less(t.lower(b.applicationName), t.lower(a.applicationName))
    && (t.lower(a.applicationName) == t.lower(b.applicationName) ==> !Less(b.applicationName, a.applicationName))
    && (a.applicationName == b.applicationName ==>
         && !Less(t.lower(b.cameraName), t.lower(a.cameraName))
         && (t.lower(a.cameraName) == t.lower(b.cameraName) ==> !Less(b.cameraName, a.cameraName))
         && (a.cameraName == b.cameraName ==>
              && !Less(t.lower(b.sessionId), t.lower(a.sessionId))
              && (t.lower(a.sessionId) == t.lower(b.sessionId) ==> Less(a.sessionId, b.sessionId))))
  }

  /** Lines are displayed in that order. */
  lemma LinesAreOrdered(t: TextRules, entries: seq<Entry>)
    ensures forall i, j | 0 <= i < j < |Displayed(t, entries)| ::
              MayPrecede(t, Displayed(t, entries)[i], Displayed(t, entries)[j])
  {
    hide Less, CompareText, Displayed;
    DisplayedIsAscending(t, entries);
    forall i, j | 0 <= i < j < |Displayed(t, entries)|
      ensures MayPrecede(t, Displayed(t, entries)[i], Displayed(t, entries)[j])
    {
      var a, b := Displayed(t, entries)[i], Displayed(t, entries)[j];
      NotAfter(t, a.applicationName, b.applicationName);
      NotAfter(t, a.cameraName, b.cameraName);
      NotAfter(t, a.sessionId, b.sessionId);
      CompareTextOrders(t, a.applicationName, b.applicationName, b.applicationName);
      CompareTextOrders(t, a.cameraName, b.cameraName, b.cameraName);
    }
  }

  lemma NotAfter(t: TextRules, a: Text, b: Text)
    ensures CompareText(t, a, b) <= 0 ==>
              !Less(t.lower(b), t.lower(a)) && (t.lower(a) == t.lower(b) ==> !Less(b, a))
    ensures CompareText(t, a, b) < 0 ==> (t.lower(a) == t.lower(b) ==> Less(a, b))
  {
    hide Less;
    LessIsStrict(t.lower(a), t.lower(b), t.lower(a));
    LessIsStrict(a, b, a);
  }

  /** A label: the cleaned and clipped text, or the fallback when there is no text left to show. */
  ghost predicate Labels(t: TextRules, shown: Text, v: Value, fallback: string) {
    if v.Str? && |t.clean(v.text)| > 0 then shown == t.clip(t.clean(v.text)) else shown == Codes(fallback)
  }

  /** The entry is the first object whose id, once trimmed, is the given one. */
  ghost predicate FirstWithId(t: TextRules, entries: seq<Entry>, id: Text, k: int) {
    && 0 <= k < |entries|
    && entries[k].Entry? && entries[k].sessionId.Str? && t.trim(entries[k].sessionId.text) == id
    && forall j | 0 <= j < k && entries[j].Entry? && entries[j].sessionId.Str? ::
         t.trim(entries[j].sessionId.text) != id
  }

  ghost predicate LineOf(t: TextRules, entries: seq<Entry>, line: Session, k: int) {
    && FirstWithId(t, entries, line.sessionId, k)
    && Labels(t, line.applicationName, entries[k].applicationName, "Unknown application")
    && Labels(t, line.cameraName, entries[k].cameraName, "Unknown camera")
  }

  /** The lines are exactly those of the first entries of each id that is not blank, under its own labels. */
  lemma LinesAreEntries(t: TextRules, entries: seq<Entry>)
    ensures forall line | line in Displayed(t, entries) ::
              line.sessionId != [] && exists k :: LineOf(t, entries, line, k)
    ensures forall e | e in entries && e.Entry? && e.sessionId.Str? && t.trim(e.sessionId.text) != [] ::
              exists line :: line in Displayed(t, entries) && line.sessionId == t.trim(e.sessionId.text)
    ensures forall line, line' | line in Displayed(t, entries) && line' in Displayed(t, entries) &&
              line.sessionId == line'.sessionId :: line == line'
  {
    hide Kept;
    ByDisplayIsTotalOrder(t);
    KeptUnderOwnId(t, entries);
    var m := Kept(t, entries);
    forall line | line in Displayed(t, entries)
      ensures line.sessionId != [] && exists k :: LineOf(t, entries, line, k)
    {
      var id :| id in m && m[id] == line;
      KeptIsFirst(t, entries, id);
      var k :| IsFirst(t, entries, id, k);
      assert LineOf(t, entries, line, k);
    }
    forall e | e in entries && e.Entry? && e.sessionId.Str? && t.trim(e.sessionId.text) != []
      ensures exists line :: line in Displayed(t, entries) && line.sessionId == t.trim(e.sessionId.text)
    {
      var id := t.trim(e.sessionId.text);
      KeptIsFirst(t, entries, id);
      var i :| 0 <= i < |entries| && entries[i] == e;
      assert Counts(t, entries[i]) && id in m;
      assert m[id] in m.Values;
    }
  }
}
