/** The bounded cache of application identities: a map and a recency queue, against an abstract recency stack. */
module IdentityCache {
  import opened Prelude
  import opened Orders
  import Capture

  type Identity = Capture.ApplicationIdentity

  datatype Request = Request(
    pid: Option<u32>,
    appId: Option<string>,
    metadataDisplayName: Option<string>,
    binary: Option<string>)

  /** `now` is what resolving the request afresh would answer at that moment. */
  datatype Op =
    | Resolve(request: Request, now: Identity)
    | Invalidate(request: Request)
    | Clear

  datatype ResolverError = ZeroCacheCapacity

  datatype Cache = Cache(capacity: nat, entries: map<Request, Identity>, recency: seq<Request>)

  function Without<T(==, !new)>(s: seq<T>, r: T): (t: seq<T>)
    ensures forall x :: x in t <==> x in s && x != r
    ensures |t| <= |s|
  {
    if s == [] then [] else (if s[0] == r then [] else [s[0]]) + Without(s[1..], r)
  }

  // ----- Specification of the cache's operations -----

  function Touched(c: Cache, r: Request): Cache {
    c.(recency := Without(c.recency, r) + [r])
  }

  function Inserted(c: Cache, r: Request, identity: Identity): Cache {
    var kept :=
      if |c.entries| == c.capacity && c.recency != [] then
        c.(entries := c.entries - {c.recency[0]}, recency := c.recency[1..])
      else
        c;
    kept.(entries := kept.entries[r := identity], recency := kept.recency + [r])
  }

  function Step(c: Cache, op: Op): Cache {
    match op
    case Resolve(r, now) => if r in c.entries then Touched(c, r) else Inserted(c, r, now)
    case Invalidate(r) => c.(entries := c.entries - {r}, recency := Without(c.recency, r))
    case Clear => c.(entries := map[], recency := [])
  }

  function Answer(c: Cache, r: Request, now: Identity): Identity {
    if r in c.entries then c.entries[r] else now
  }

  function Empty(capacity: nat): Cache {
    Cache(capacity, map[], [])
  }

  function Run(capacity: nat, ops: seq<Op>): Cache {
    if ops == [] then Empty(capacity) else Step(Run(capacity, ops[..|ops| - 1]), ops[|ops| - 1])
  }

  ghost predicate WellKept(c: Cache) {
    && 0 < c.capacity
    && Distinct(c.recency)
    && c.entries.Keys == Elements(c.recency)
    && |c.recency| <= c.capacity
  }

  // ----- The resolver object -----

  class ApplicationResolver {
    const capacity: nat
    var cache: map<Request, Identity>
    var recency: seq<Request>

    ghost function Model(): Cache
      reads this
    {
      Cache(capacity, cache, recency)
    }

    constructor WithCapacity(capacity: nat)
      ensures Model() == Empty(capacity)
    {
      this.capacity, cache, recency := capacity, map[], [];
    }

    /** A cache of no entries is refused. */
    static method WithSources(capacity: nat) returns (r: Result<ApplicationResolver, ResolverError>)
      ensures r.Success? <==> capacity > 0
      ensures r.Success? ==> fresh(r.value) && r.value.Model() == Empty(capacity)
    {
      if capacity == 0 {
        return Failure(ZeroCacheCapacity);
      }
      var resolver := new ApplicationResolver.WithCapacity(capacity);
      r := Success(resolver);
    }

    /** `uncached` is what the process source and the desktop entries give for a request at this moment. */
    method Resolve(request: Request, uncached: Request -> Identity) returns (identity: Identity)
      modifies this
      ensures identity == Answer(old(Model()), request, uncached(request))
      ensures Model() == Step(old(Model()), Op.Resolve(request, uncached(request)))
    {
      if request in cache {
        identity := cache[request];
        Touch(request);
        return;
      }
      identity := uncached(request);
      InsertCache(request, identity);
    }

    method Invalidate(request: Request) returns (removed: bool)
      modifies this
      ensures removed <==> request in old(cache)
      ensures Model() == Step(old(Model()), Op.Invalidate(request))
    {
      recency := Without(recency, request);
      removed := request in cache;
      cache := cache - {request};
    }

    method ClearCache()
      modifies this
      ensures Model() == Step(old(Model()), Clear)
    {
      cache := map[];
      recency := [];
    }

    method InsertCache(request: Request, identity: Identity)
      modifies this
      ensures Model() == Inserted(old(Model()), request, identity)
    {
      if |cache| == capacity {
        if recency != [] {
          var oldest := recency[0];
          recency := recency[1..];
          cache := cache - {oldest};
        }
      }
      recency := recency + [request];
      cache := cache[request := identity];
    }

    method Touch(request: Request)
      modifies this`recency
      ensures Model() == Touched(old(Model()), request)
    {
      recency := Without(recency, request);
      recency := recency + [request];
    }
  }

  // ----- Distinct sequences -----

  lemma WithoutHead<T(!new)>(s: seq<T>, r: T)
    requires s != []
    ensures Without(s, r) == (if s[0] == r then [] else [s[0]]) + Without(s[1..], r)
  {
  }

  lemma {:induction false} WithoutConcat<T(!new)>(a: seq<T>, b: seq<T>, r: T)
    ensures Without(a + b, r) == Without(a, r) + Without(b, r)
  {
    if a == [] {
      assert a + b == b;
    } else {
      hide Without;
      assert a + b == [a[0]] + (a[1..] + b);
      WithoutHead(a + b, r);
      WithoutHead(a, r);
      WithoutConcat(a[1..], b, r);
    }
  }

  lemma {:induction false} WithoutAbsent(s: seq<Request>, r: Request)
    requires r !in s
    ensures Without(s, r) == s
  {
    if s != [] {
      WithoutAbsent(s[1..], r);
    }
  }

  lemma {:induction false} WithoutDistinct(s: seq<Request>, r: Request)
    requires Distinct(s)
    ensures Distinct(Without(s, r))
    ensures |Without(s, r)| == |s| - (if r in s then 1 else 0)
  {
    if s != [] {
      WithoutDistinct(s[1..], r);
      var t := Without(s[1..], r);
      if s[0] == r {
        assert r !in s[1..];
      } else {
        forall i, j | 0 <= i < j < |[s[0]] + t| ensures ([s[0]] + t)[i] != ([s[0]] + t)[j] {
          assert t[j - 1] in s[1..];
        }
      }
    }
  }

  lemma {:induction false} DistinctSize<T(!new)>(s: seq<T>)
    requires Distinct(s)
    ensures |Elements(s)| == |s|
  {
    if s != [] {
      DistinctSize(s[1..]);
      assert Elements(s) == {s[0]} + Elements(s[1..]);
    }
  }

  ghost predicate IsSuffix(a: seq<Request>, b: seq<Request>) {
    |a| <= |b| && b[|b| - |a|..] == a
  }

  lemma SuffixPush(a: seq<Request>, b: seq<Request>, r: Request)
    requires IsSuffix(a, b)
    ensures IsSuffix(a + [r], b + [r])
  {
  }

  lemma SuffixTail(a: seq<Request>, b: seq<Request>)
    requires IsSuffix(a, b)
    ensures a != [] ==> IsSuffix(a[1..], b)
    ensures |a| < |b| ==> IsSuffix(a, b[1..])
    ensures a != [] ==> IsSuffix(a[1..], b[1..])
  {
  }

  lemma EmptyIsSuffix(b: seq<Request>)
    ensures IsSuffix([], b)
  {
  }

  lemma SuffixWithout(a: seq<Request>, b: seq<Request>, r: Request)
    requires IsSuffix(a, b)
    ensures IsSuffix(Without(a, r), Without(b, r))
  {
    var p := b[..|b| - |a|];
    assert b == p + a;
    WithoutConcat(p, a, r);
  }

  // ----- The recency stack -----

  function NextStack(s: seq<Request>, op: Op): seq<Request> {
    match op
    case Resolve(r, _) => Without(s, r) + [r]
    case Invalidate(r) => Without(s, r)
    case Clear => []
  }

  /** All requests resolved since they were last dropped, least recent first, whatever the capacity. */
  function Stack(ops: seq<Op>): seq<Request> {
    if ops == [] then [] else NextStack(Stack(ops[..|ops| - 1]), ops[|ops| - 1])
  }

  predicate Drops(op: Op, r: Request) {
    op.Clear? || op == Invalidate(r)
  }

  /** When `r` was last resolved, unless it has been dropped since; -1 for never. */
  function LastUse(ops: seq<Op>, r: Request): (k: int)
    ensures -1 <= k < |ops|
    ensures k >= 0 ==> ops[k].Resolve? && ops[k].request == r && forall j | k < j < |ops| :: !Drops(ops[j], r)
  {
    if ops == [] then -1
    else
      var last := ops[|ops| - 1];
      if last.Resolve? && last.request == r then |ops| - 1
      else if Drops(last, r) then -1
      else LastUse(ops[..|ops| - 1], r)
  }

  ghost predicate ByUse(ops: seq<Op>, s: seq<Request>) {
    forall i, j | 0 <= i < j < |s| :: LastUse(ops, s[i]) < LastUse(ops, s[j])
  }

  lemma {:induction false} WithoutKeepsOrder(ops: seq<Op>, s: seq<Request>, r: Request)
    requires ByUse(ops, s)
    ensures ByUse(ops, Without(s, r))
  {
    if s != [] {
      WithoutKeepsOrder(ops, s[1..], r);
      var t := Without(s[1..], r);
      forall i, j | 0 <= i < j < |[s[0]] + t|
        ensures LastUse(ops, ([s[0]] + t)[i]) < LastUse(ops, ([s[0]] + t)[j])
      {
        assert t[j - 1] in s[1..];
      }
    }
  }

  lemma LastUseNext(ops: seq<Op>, x: Request)
    requires ops != []
    ensures var last := ops[|ops| - 1];
            LastUse(ops, x) ==
            if last.Resolve? && last.request == x then |ops| - 1
            else if Drops(last, x) then -1
            else LastUse(ops[..|ops| - 1], x)
  {
  }

  /** The order of requests the last operation does not name is the order they had. */
  lemma OrderIsKept(ops: seq<Op>, s: seq<Request>)
    requires ops != [] && !ops[|ops| - 1].Clear? && ops[|ops| - 1].request !in s
    requires ByUse(ops[..|ops| - 1], s)
    ensures ByUse(ops, s)
    ensures ops[|ops| - 1].Resolve? ==> ByUse(ops, s + [ops[|ops| - 1].request])
  {
    hide LastUse;
    forall x | x in s ensures LastUse(ops, x) == LastUse(ops[..|ops| - 1], x) < |ops| - 1 { LastUseNext(ops, x); }
    LastUseNext(ops, ops[|ops| - 1].request);
  }

  lemma DistinctPush(s: seq<Request>, r: Request)
    requires Distinct(s) && r !in s
    ensures Distinct(s + [r])
  {
  }

  /** The stack holds exactly the requests in use, in the order of their last use. */
  lemma {:induction false} StackIsByLastUse(ops: seq<Op>)
    ensures Distinct(Stack(ops)) && ByUse(ops, Stack(ops))
    ensures forall r :: r in Stack(ops) <==> LastUse(ops, r) >= 0
  {
    hide LastUse, ByUse, Distinct;
    if ops == [] {
      NothingUsed();
    } else {
      var before, last := ops[..|ops| - 1], ops[|ops| - 1];
      StackIsByLastUse(before);
      forall r ensures r in Stack(ops) <==> LastUse(ops, r) >= 0 { LastUseNext(ops, r); }
      if last.Clear? {
        NothingUsed();
        EmptyByUse(ops);
      } else {
        var rest := Without(Stack(before), last.request);
        WithoutDistinct(Stack(before), last.request);
        WithoutKeepsOrder(before, Stack(before), last.request);
        OrderIsKept(ops, rest);
        DistinctPush(rest, last.request);
      }
    }
  }

  lemma EmptyByUse(ops: seq<Op>)
    ensures ByUse(ops, [])
  {
  }

  lemma NothingUsed()
    ensures Distinct<Request>([]) && ByUse([], [])
    ensures forall r :: LastUse([], r) == -1
  {
  }

  // ----- What every run keeps -----

  /** The queue on its own: what a step does to it while it lists the cached requests. */
  function NextQueue(capacity: nat, q: seq<Request>, op: Op): seq<Request> {
    if op.Resolve? && op.request !in q then
      (if |q| == capacity && q != [] then q[1..] else q) + [op.request]
    else
      NextStack(q, op)
  }

  lemma DistinctTail(s: seq<Request>)
    requires Distinct(s) && s != []
    ensures Elements(s[1..]) == Elements(s) - {s[0]}
  {
    assert s[0] !in s[1..];
  }

  lemma StepMovesQueue(c: Cache, op: Op)
    requires WellKept(c)
    ensures Step(c, op).recency == NextQueue(c.capacity, c.recency, op)
    ensures Step(c, op).entries.Keys == Elements(Step(c, op).recency)
  {
    DistinctSize(c.recency);
    assert |c.entries| == |c.entries.Keys|;
    if c.recency != [] { DistinctTail(c.recency); }
  }

  lemma QueueStaysBounded(capacity: nat, q: seq<Request>, op: Op)
    requires 0 < capacity && Distinct(q) && |q| <= capacity
    ensures Distinct(NextQueue(capacity, q, op)) && |NextQueue(capacity, q, op)| <= capacity
  {
    if !op.Clear? { WithoutDistinct(q, op.request); }
  }

  lemma QueueStaysSuffix(capacity: nat, q: seq<Request>, s: seq<Request>, op: Op)
    requires IsSuffix(q, s)
    ensures IsSuffix(NextQueue(capacity, q, op), NextStack(s, op))
  {
    if !op.Clear? {
      SuffixWithout(q, s, op.request);
      if op.request !in q { WithoutAbsent(q, op.request); }
    }
  }

  lemma StepKeepsWellKept(c: Cache, op: Op)
    requires WellKept(c)
    ensures WellKept(Step(c, op))
  {
    hide Step, NextQueue;
    StepMovesQueue(c, op);
    QueueStaysBounded(c.capacity, c.recency, op);
    StepKeepsCapacity(c, op);
  }

  lemma StepKeepsCapacity(c: Cache, op: Op)
    ensures Step(c, op).capacity == c.capacity
  {
  }

  /** The queue lists the cached requests without repetition, within capacity, and is a most recent part of
      the stack. */
  lemma {:induction false} RunIsWellKept(capacity: nat, ops: seq<Op>)
    requires capacity > 0
    ensures var c := Run(capacity, ops);
            c.capacity == capacity && WellKept(c) && |c.entries| == |c.recency| && IsSuffix(c.recency, Stack(ops))
  {
    hide Step, NextQueue, NextStack;
    if ops != [] {
      var before, last := ops[..|ops| - 1], ops[|ops| - 1];
      RunIsWellKept(capacity, before);
      var c := Run(capacity, before);
      StepKeepsWellKept(c, last);
      StepKeepsCapacity(c, last);
      StepMovesQueue(c, last);
      QueueStaysSuffix(capacity, c.recency, Stack(before), last);
    }
    DistinctSize(Run(capacity, ops).recency);
    assert |Run(capacity, ops).entries| == |Run(capacity, ops).entries.Keys|;
  }

  /** The cache holds as much of the stack as fits. */
  ghost predicate Exact(capacity: nat, ops: seq<Op>) {
    |Run(capacity, ops).recency| == Min(capacity, |Stack(ops)|)
  }

  lemma QueueSizes(capacity: nat, q: seq<Request>, s: seq<Request>, op: Op)
    requires 0 < capacity && Distinct(q) && Distinct(s) && IsSuffix(q, s)
    requires |q| == Min(capacity, |s|)
    ensures |NextQueue(capacity, q, op)| == Min(capacity, |NextStack(s, op)|) <==>
            !(op.Invalidate? && op.request in q && |s| > capacity)
  {
    hide IsSuffix, Without, Elements, Distinct;
    SuffixElements(q, s);
    if !op.Clear? {
      WithoutDistinct(q, op.request);
      WithoutDistinct(s, op.request);
      if |q| == |s| { SuffixIsWhole(q, s); }
    }
  }

  lemma SuffixIsWhole(q: seq<Request>, s: seq<Request>)
    requires IsSuffix(q, s) && |q| == |s|
    ensures q == s
  {
  }

  /** From an exact cache, exactly one step loses exactness: invalidating a cached request while older ones
      have already been evicted, whose places then stay empty. */
  lemma ExactnessStep(capacity: nat, ops: seq<Op>, op: Op)
    requires capacity > 0 && Exact(capacity, ops)
    ensures Exact(capacity, ops + [op]) <==>
            !(op.Invalidate? && op.request in Run(capacity, ops).entries && |Stack(ops)| > capacity)
  {
    hide Step, NextQueue, NextStack, IsSuffix;
    RunIsWellKept(capacity, ops);
    StackIsByLastUse(ops);
    assert (ops + [op])[..|ops|] == ops;
    StepMovesQueue(Run(capacity, ops), op);
    QueueSizes(capacity, Run(capacity, ops).recency, Stack(ops), op);
  }

  ghost predicate NothingInvalidated(ops: seq<Op>) {
    forall i | 0 <= i < |ops| :: !ops[i].Invalidate?
  }

  lemma {:induction false} ExactWithoutInvalidation(capacity: nat, ops: seq<Op>)
    requires capacity > 0 && NothingInvalidated(ops)
    ensures Exact(capacity, ops)
  {
    if ops != [] {
      var before, last := ops[..|ops| - 1], ops[|ops| - 1];
      ExactWithoutInvalidation(capacity, before);
      ExactnessStep(capacity, before, last);
      assert before + [last] == ops;
    }
  }

  /** The requests used more recently than `r`. */
  ghost function MoreRecent(ops: seq<Op>, r: Request): set<Request> {
    set q | q in Stack(ops) && LastUse(ops, q) > LastUse(ops, r)
  }

  lemma MoreRecentIsAbove(ops: seq<Op>, i: nat)
    requires i < |Stack(ops)|
    ensures |MoreRecent(ops, Stack(ops)[i])| == |Stack(ops)| - 1 - i
  {
    hide Stack, LastUse;
    StackIsByLastUse(ops);
    var s := Stack(ops);
    forall x ensures x in MoreRecent(ops, s[i]) <==> x in s[i + 1..] {
      if x in s {
        var j :| 0 <= j < |s| && s[j] == x;
        assert j > i ==> s[i + 1..][j - i - 1] == x;
      }
    }
    assert MoreRecent(ops, s[i]) == Elements(s[i + 1..]);
    DistinctSize(s[i + 1..]);
  }

  /** In a distinct sequence, the suffix holds exactly the elements from its start on. */
  lemma InSuffix(a: seq<Request>, b: seq<Request>, i: nat)
    requires IsSuffix(a, b) && Distinct(b) && i < |b|
    ensures b[i] in a <==> i >= |b| - |a|
  {
    var d := |b| - |a|;
    assert forall k | 0 <= k < |a| :: a[k] == b[d + k];
    if i >= d { assert a[i - d] == b[i]; }
  }

  /** A cached request is among the most recent; an uncached one in use has been outrun by a whole cache full. */
  lemma CachedIsRecent(capacity: nat, ops: seq<Op>, r: Request)
    requires capacity > 0 && LastUse(ops, r) >= 0
    ensures r in Run(capacity, ops).entries ==> |MoreRecent(ops, r)| < capacity
    ensures r !in Run(capacity, ops).entries && |Run(capacity, ops).recency| == capacity ==>
              |MoreRecent(ops, r)| >= capacity
  {
    hide Stack, Run, LastUse, IsSuffix, MoreRecent;
    RunIsWellKept(capacity, ops);
    StackIsByLastUse(ops);
    var s, q := Stack(ops), Run(capacity, ops).recency;
    SuffixElements(q, s);
    var i :| 0 <= i < |s| && s[i] == r;
    MoreRecentIsAbove(ops, i);
    InSuffix(q, s, i);
  }

  /** A request leaves the cache only when it is dropped, or evicted from a full cache that stays full. */
  lemma LeavesOnlyFull(c: Cache, op: Op, r: Request)
    requires WellKept(c)
    ensures r in Step(c, op).entries ==> r in c.entries || op == Resolve(r, Step(c, op).entries[r])
    ensures r in c.entries && r !in Step(c, op).entries && !Drops(op, r) ==> |Step(c, op).recency| == c.capacity
    ensures op.Resolve? ==> op.request in Step(c, op).entries
  {
    DistinctSize(c.recency);
    assert |c.entries| == |c.entries.Keys|;
  }

  /** Since its last use, fewer than `capacity` other requests have been in use more recently, at any time. */
  ghost predicate NeverOutrun(capacity: nat, ops: seq<Op>, r: Request) {
    forall n | LastUse(ops, r) < n <= |ops| :: |MoreRecent(ops[..n], r)| < capacity
  }

  /** Least recently used replacement, for every run: a request is cached exactly when it was resolved, not
      dropped since, and never outrun by `capacity` more recent requests. */
  lemma {:induction false} CachedIffRecent(capacity: nat, ops: seq<Op>, r: Request)
    requires capacity > 0
    ensures r in Run(capacity, ops).entries <==> LastUse(ops, r) >= 0 && NeverOutrun(capacity, ops, r)
  {
    hide Step, Stack, IsSuffix, MoreRecent, LastUse, NextStack;
    if ops == [] {
      NothingUsed();
    } else {
      var n := |ops|;
      var before, last := ops[..n - 1], ops[n - 1];
      var c := Run(capacity, before);
      LastUseNext(ops, r);
      RunIsWellKept(capacity, before);
      RunIsWellKept(capacity, ops);
      LeavesOnlyFull(c, last, r);
      assert ops[..n] == ops;
      if last.Resolve? && last.request == r {
        LatestIsFirst(ops, r);
        assert forall k | LastUse(ops, r) < k <= n :: ops[..k] == ops;
      } else if !Drops(last, r) {
        CachedIffRecent(capacity, before, r);
        assert forall k | 0 <= k < n :: before[..k] == ops[..k];
        if LastUse(ops, r) >= 0 { CachedIsRecent(capacity, ops, r); }
      } else {
        DroppedIsGone(c, last, r);
      }
    }
  }

  lemma LatestIsFirst(ops: seq<Op>, r: Request)
    requires ops != [] && LastUse(ops, r) == |ops| - 1
    ensures MoreRecent(ops, r) == {}
  {
    hide Stack;
  }

  lemma DroppedIsGone(c: Cache, op: Op, r: Request)
    requires Drops(op, r)
    ensures r !in Step(c, op).entries
  {
  }

  /** Two requests compete for one place, and the one that won is invalidated: the place stays empty. */
  lemma InvalidationLeavesAHole(a: Request, b: Request, now: Identity)
    requires a != b
    ensures Exact(1, [Resolve(a, now), Resolve(b, now)])
    ensures !Exact(1, [Resolve(a, now), Resolve(b, now)] + [Invalidate(b)])
  {
    hide Exact, Run, LastUse, Drops, Stack;
    var ops := [Resolve(a, now), Resolve(b, now)];
    ExactWithoutInvalidation(1, ops);
    ExactnessStep(1, ops, Invalidate(b));
    StackOfTwo(a, b, now);
    LastUseNext(ops, b);
    LatestIsFirst(ops, b);
    assert ops[..2] == ops;
    CachedIffRecent(1, ops, b);
  }

  lemma StackOfTwo(a: Request, b: Request, now: Identity)
    requires a != b
    ensures |Stack([Resolve(a, now), Resolve(b, now)])| == 2
  {
    hide Without;
    var ops := [Resolve(a, now), Resolve(b, now)];
    assert ops[..1] == [Resolve(a, now)] && [Resolve(a, now)][..0] == [];
    NothingUsed();
    WithoutAbsent([], a);
    assert Stack([Resolve(a, now)]) == [a];
    WithoutAbsent([a], b);
  }

  lemma MissStaysIncluded(small: nat, large: nat, a: seq<Request>, b: seq<Request>, op: Op)
    requires 0 < small <= large && |a| <= small && |b| <= large
    requires IsSuffix(a, b) && op.Resolve? && op.request !in a
    ensures IsSuffix(NextQueue(small, a, op), NextQueue(large, b, op))
  {
    hide Without;
    var r := op.request;
    var a' := if |a| == small then a[1..] else a;
    if r in b {
      SuffixWithout(a, b, r);
      WithoutAbsent(a, r);
      SuffixTail(a, Without(b, r));
      SuffixPush(a', Without(b, r), r);
    } else {
      SuffixTail(a, b);
      SuffixPush(a', if |b| == large then b[1..] else b, r);
    }
  }

  lemma QueueStaysIncluded(small: nat, large: nat, a: seq<Request>, b: seq<Request>, op: Op)
    requires 0 < small <= large && |a| <= small && |b| <= large
    requires IsSuffix(a, b)
    ensures IsSuffix(NextQueue(small, a, op), NextQueue(large, b, op))
  {
    hide IsSuffix, Without;
    SuffixElements(a, b);
    if op.Clear? {
      EmptyIsSuffix([]);
    } else if op.Resolve? && op.request !in a {
      MissStaysIncluded(small, large, a, b, op);
    } else {
      SuffixWithout(a, b, op.request);
      SuffixPush(Without(a, op.request), Without(b, op.request), op.request);
      assert op.request in a ==> op.request in Elements(b);
    }
  }

  lemma SuffixElements(a: seq<Request>, b: seq<Request>)
    requires IsSuffix(a, b)
    ensures |a| <= |b| && Elements(a) <= Elements(b)
  {
    assert forall x | x in a :: x in b[|b| - |a|..];
  }

  /** The inclusion property: on the same run a smaller cache is the most recent part of a larger one, so
      whatever the smaller answers from memory the larger does too. */
  lemma {:induction false} SmallerIsIncluded(small: nat, large: nat, ops: seq<Op>)
    requires 0 < small <= large
    ensures IsSuffix(Run(small, ops).recency, Run(large, ops).recency)
    ensures Run(small, ops).entries.Keys <= Run(large, ops).entries.Keys
  {
    hide Step, NextQueue, IsSuffix, Stack;
    RunIsWellKept(small, ops);
    RunIsWellKept(large, ops);
    if ops == [] {
      EmptyIsSuffix([]);
    } else {
      var before, last := ops[..|ops| - 1], ops[|ops| - 1];
      SmallerIsIncluded(small, large, before);
      RunIsWellKept(small, before);
      RunIsWellKept(large, before);
      StepMovesQueue(Run(small, before), last);
      StepMovesQueue(Run(large, before), last);
      QueueStaysIncluded(small, large, Run(small, before).recency, Run(large, before).recency, last);
    }
    SuffixElements(Run(small, ops).recency, Run(large, ops).recency);
  }

  /** Where a cached identity comes from: some resolution of that very request, since when the request has
      not been dropped. */
  ghost predicate Recorded(ops: seq<Op>, r: Request, identity: Identity) {
    exists k :: 0 <= k < |ops| && ops[k] == Resolve(r, identity) && forall j | k < j < |ops| :: !Drops(ops[j], r)
  }

  /** A step keeps an entry unless it drops its request, and adds only what it resolves. */
  lemma EntryAfterStep(c: Cache, op: Op, r: Request)
    requires r in Step(c, op).entries
    ensures (r in c.entries && Step(c, op).entries[r] == c.entries[r] && !Drops(op, r)) ||
            op == Resolve(r, Step(c, op).entries[r])
  {
  }

  lemma {:induction false} CachedIsRecorded(capacity: nat, ops: seq<Op>, r: Request)
    requires capacity > 0 && r in Run(capacity, ops).entries
    ensures Recorded(ops, r, Run(capacity, ops).entries[r])
  {
    hide Step, Drops, Recorded;
    if ops != [] {
      var before, last := ops[..|ops| - 1], ops[|ops| - 1];
      var c := Run(capacity, before);
      assert ops == before + [last];
      EntryAfterStep(c, last, r);
      if r in c.entries && Run(capacity, ops).entries[r] == c.entries[r] && !Drops(last, r) {
        CachedIsRecorded(capacity, before, r);
        StaysRecorded(before, last, r, c.entries[r]);
      } else {
        IsRecorded(before, r, Run(capacity, ops).entries[r]);
      }
    }
  }

  lemma StaysRecorded(ops: seq<Op>, op: Op, r: Request, identity: Identity)
    requires Recorded(ops, r, identity) && !Drops(op, r)
    ensures Recorded(ops + [op], r, identity)
  {
    hide Drops;
    var k :| 0 <= k < |ops| && ops[k] == Resolve(r, identity) && forall j | k < j < |ops| :: !Drops(ops[j], r);
    assert (ops + [op])[k] == Resolve(r, identity);
  }

  lemma IsRecorded(ops: seq<Op>, r: Request, identity: Identity)
    ensures Recorded(ops + [Resolve(r, identity)], r, identity)
  {
    assert (ops + [Resolve(r, identity)])[|ops|] == Resolve(r, identity);
  }

  /** While the process source and the desktop entries give each request one answer, so does the cache. */
  lemma {:induction false} AnswersAreFresh(capacity: nat, ops: seq<Op>, source: Request -> Identity, r: Request)
    requires capacity > 0
    requires forall i | 0 <= i < |ops| && ops[i].Resolve? :: ops[i].now == source(ops[i].request)
    ensures Answer(Run(capacity, ops), r, source(r)) == source(r)
  {
    if r in Run(capacity, ops).entries {
      CachedIsRecorded(capacity, ops, r);
    }
  }

  /** The request was resolved afresh at `j` and has been cached ever since. */
  ghost predicate LastMiss(capacity: nat, ops: seq<Op>, r: Request, j: int) {
    && 0 <= j < |ops| && ops[j].Resolve? && ops[j].request == r && r !in Run(capacity, ops[..j]).entries
    && forall k | j < k <= |ops| :: r in Run(capacity, ops[..k]).entries
  }

  /** Whatever the sources answer meanwhile: a cached request is answered as it was when it was last resolved
      afresh, and any other is resolved afresh. */
  lemma {:induction false} HitsAnswerTheLastMiss(capacity: nat, ops: seq<Op>, r: Request, now: Identity)
    requires capacity > 0
    ensures r in Run(capacity, ops).entries ==>
              exists j :: LastMiss(capacity, ops, r, j) && Answer(Run(capacity, ops), r, now) == ops[j].now
    ensures r !in Run(capacity, ops).entries ==> Answer(Run(capacity, ops), r, now) == now
  {
    hide Step;
    if ops != [] && r in Run(capacity, ops).entries {
      var before, last := ops[..|ops| - 1], ops[|ops| - 1];
      assert ops[..|ops|] == ops;
      EntryAfterStep(Run(capacity, before), last, r);
      if r in Run(capacity, before).entries {
        HitsAnswerTheLastMiss(capacity, before, r, now);
        var j :| LastMiss(capacity, before, r, j) && Answer(Run(capacity, before), r, now) == before[j].now;
        assert forall k | 0 <= k <= |before| :: before[..k] == ops[..k];
        KeptAsItWas(Run(capacity, before), last, r);
        assert LastMiss(capacity, ops, r, j);
      } else {
        assert LastMiss(capacity, ops, r, |before|);
      }
    }
  }

  lemma KeptAsItWas(c: Cache, op: Op, r: Request)
    requires r in c.entries && r in Step(c, op).entries
    ensures Step(c, op).entries[r] == c.entries[r]
  {
  }
}
