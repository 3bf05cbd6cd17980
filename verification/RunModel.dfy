/** The run waterfall as a value: which steps and calls hang under which step, and what
    each step should total. The heap tree in module RunTree is proved to be this tree. */
module RunModel {
  import opened Common
  import opened SpanPath

  const MAX_SPAN_DEPTH: nat := 64

  /** One LLM call, as far as the tree is concerned: the step it hangs under and its cost. */
  datatype Call = Call(home: Path, cost: real)

  /** A child of a step: another step, or the call in a given row. */
  datatype Ref = Step(path: Path) | Leaf(row: nat)

  /** What a node accumulates: cost and number of calls. */
  datatype Totals = Totals(cost: real, count: int)

  const ZERO := Totals(0.0, 0)

  function Plus(a: Totals, b: Totals): Totals
  {
    Totals(a.cost + b.cost, a.count + b.count)
  }

  function OfCall(c: Call): Totals
  {
    Totals(c.cost, 1)
  }

  predicate StepPath(p: Path)
  {
    WellFormed(p) && |p| <= MAX_SPAN_DEPTH
  }

  function Parent(p: Path): Path
    requires p != []
  {
    p[..|p| - 1]
  }

  /** Totals of the first n calls that ran at or below step p. */
  function Under(calls: seq<Call>, n: nat, p: Path): Totals
    requires n <= |calls|
  {
    if n == 0 then ZERO
    else Plus(Under(calls, n - 1, p), if p <= calls[n - 1].home then OfCall(calls[n - 1]) else ZERO)
  }

  /** Totals of the first n calls, wherever they ran. */
  function All(calls: seq<Call>, n: nat): Totals
    requires n <= |calls|
  {
    if n == 0 then ZERO else Plus(All(calls, n - 1), OfCall(calls[n - 1]))
  }

  lemma {:induction false} RootIsEverything(calls: seq<Call>, n: nat)
    requires n <= |calls|
    ensures Under(calls, n, []) == All(calls, n)
    ensures All(calls, n).count == n
  {
    if n > 0 { RootIsEverything(calls, n - 1); }
  }

  // ---- Building the children lists call by call ----

  /** For every step, its children in order. */
  type Kids = map<Path, seq<Ref>>

  function Of(kids: Kids, p: Path): seq<Ref>
  {
    if p in kids then kids[p] else []
  }

  function AddStep(kids: Kids, q: Path): Kids
    requires q != []
  {
    if q in kids then kids else kids[Parent(q) := Of(kids, Parent(q)) + [Step(q)]][q := []]
  }

  /** Adds the first n prefixes of p that are still missing. */
  function AddPath(kids: Kids, p: Path, n: nat): Kids
    requires n <= |p|
  {
    if n == 0 then kids else AddStep(AddPath(kids, p, n - 1), p[..n])
  }

  function AddLeaf(kids: Kids, p: Path, i: nat): Kids
  {
    kids[p := Of(kids, p) + [Leaf(i)]]
  }

  /** One more call: its missing steps, then its leaf. */
  function AddCall(kids: Kids, call: Call, i: nat): Kids
  {
    AddLeaf(AddPath(kids, call.home, |call.home|), call.home, i)
  }

  function Build(calls: seq<Call>, n: nat): Kids
    requires n <= |calls|
  {
    if n == 0 then map[[] := []]
    else AddCall(Build(calls, n - 1), calls[n - 1], n - 1)
  }

  // ---- What the children lists contain ----

  /** A step exists exactly when it is the root or some call ran at or below it. */
  ghost predicate Visited(calls: seq<Call>, n: nat, p: Path)
    requires n <= |calls|
  {
    p == [] || exists i :: 0 <= i < n && p <= calls[i].home
  }

  ghost predicate Owns(kids: Kids, calls: seq<Call>, n: nat, p: Path, r: Ref)
    requires n <= |calls|
  {
    match r
    case Step(q) => q in kids && q != [] && Parent(q) == p
    case Leaf(i) => i < n && calls[i].home == p
  }

  /** Calls appear in row order and no child appears twice. */
  ghost predicate Ordered(refs: seq<Ref>)
  {
    && NoRepeats(refs)
    && forall j, k | 0 <= j < k < |refs| && refs[j].Leaf? && refs[k].Leaf? :: refs[j].row < refs[k].row
  }

  ghost predicate PrefixClosed(kids: Kids)
  {
    && [] in kids
    && (forall p | p in kids && p != [] :: Parent(p) in kids)
    && (forall p | p in kids :: StepPath(p))
  }

  /** The shape kept throughout assembly: prefix-closed, every child under its own parent and
      nowhere else, once, with all calls so far in place. */
  ghost predicate Shape(kids: Kids, calls: seq<Call>, n: nat)
    requires n <= |calls|
  {
    && PrefixClosed(kids)
    && (forall p, r | p in kids :: r in kids[p] <==> Owns(kids, calls, n, p, r))
    && (forall p | p in kids :: Ordered(kids[p]))
    && (forall i | 0 <= i < n :: calls[i].home in kids)
  }

  lemma {:induction false} AddStepShape(kids: Kids, calls: seq<Call>, n: nat, q: Path)
    requires n <= |calls| && Shape(kids, calls, n)
    requires q != [] && Parent(q) in kids && StepPath(q)
    ensures Shape(AddStep(kids, q), calls, n)
    ensures AddStep(kids, q).Keys == kids.Keys + {q}
  {
    if q !in kids {
      var next := AddStep(kids, q);
      var p := Parent(q);
      assert next[p] == kids[p] + [Step(q)];
      assert !Owns(kids, calls, n, p, Step(q));
      forall o, r | o in next ensures r in next[o] <==> Owns(next, calls, n, o, r) {
        if o == q {
          if r.Step? && r.path in kids && r.path != [] { assert Parent(r.path) in kids; }
        } else {
          assert r in kids[o] <==> Owns(kids, calls, n, o, r);
        }
      }
    }
  }

  lemma {:induction false} AddPathShape(kids: Kids, calls: seq<Call>, n: nat, p: Path, m: nat)
    requires n <= |calls| && Shape(kids, calls, n)
    requires m <= |p| && StepPath(p)
    ensures Shape(AddPath(kids, p, m), calls, n)
    ensures forall q :: q in AddPath(kids, p, m) <==> q in kids || q <= p[..m]
  {
    if m > 0 {
      AddPathShape(kids, calls, n, p, m - 1);
      var before := AddPath(kids, p, m - 1);
      assert Parent(p[..m]) == p[..m - 1];
      AddStepShape(before, calls, n, p[..m]);
      forall q ensures q in AddPath(kids, p, m) <==> q in kids || q <= p[..m] {
        assert q <= p[..m] <==> q <= p[..m - 1] || q == p[..m];
      }
    }
  }

  lemma {:induction false} AddLeafShape(kids: Kids, calls: seq<Call>, n: nat)
    requires n < |calls| && Shape(kids, calls, n)
    requires calls[n].home in kids
    ensures Shape(AddLeaf(kids, calls[n].home, n), calls, n + 1)
  {
    var home := calls[n].home;
    var next := AddLeaf(kids, home, n);
    forall r | r in kids[home] && r.Leaf? ensures r.row < n {
      assert Owns(kids, calls, n, home, r);
    }
    forall p, r | p in next ensures r in next[p] <==> Owns(next, calls, n + 1, p, r) {
      assert r in kids[p] <==> Owns(kids, calls, n, p, r);
    }
  }

  lemma {:induction false} AddCallShape(kids: Kids, calls: seq<Call>, n: nat)
    requires n < |calls| && Shape(kids, calls, n) && StepPath(calls[n].home)
    ensures Shape(AddCall(kids, calls[n], n), calls, n + 1)
    ensures forall p :: p in AddCall(kids, calls[n], n) <==> p in kids || p <= calls[n].home
  {
    var home := calls[n].home;
    assert home[..|home|] == home;
    AddPathShape(kids, calls, n, home, |home|);
    AddLeafShape(AddPath(kids, home, |home|), calls, n);
  }

  lemma {:induction false} RootShape(calls: seq<Call>)
    ensures Shape(map[[] := []], calls, 0)
  {
  }

  /** Assembly keeps the shape. */
  lemma {:induction false} BuildShape(calls: seq<Call>, n: nat)
    requires n <= |calls|
    requires forall i | 0 <= i < n :: StepPath(calls[i].home)
    ensures Shape(Build(calls, n), calls, n)
  {
    RootShape(calls);
    hide Shape, AddCall;
    if n > 0 {
      BuildShape(calls, n - 1);
      AddCallShape(Build(calls, n - 1), calls, n - 1);
    }
  }

  lemma {:induction false} VisitedNext(calls: seq<Call>, n: nat, p: Path)
    requires 0 < n <= |calls|
    ensures Visited(calls, n, p) <==> Visited(calls, n - 1, p) || p <= calls[n - 1].home
  {
  }

  lemma {:induction false} BuildNext(calls: seq<Call>, n: nat, p: Path)
    requires 0 < n <= |calls|
    requires forall i | 0 <= i < n :: StepPath(calls[i].home)
    ensures p in Build(calls, n) <==> p in Build(calls, n - 1) || p <= calls[n - 1].home
  {
    hide Shape, AddCall, StepPath;
    BuildShape(calls, n - 1);
    AddCallShape(Build(calls, n - 1), calls, n - 1);
  }

  lemma {:induction false} BuildNothing(calls: seq<Call>, p: Path)
    ensures p in Build(calls, 0) <==> Visited(calls, 0, p)
  {
  }

  /** The steps are exactly the visited prefixes. */
  lemma {:induction false} BuildVisits(calls: seq<Call>, n: nat, p: Path)
    requires n <= |calls|
    requires forall i | 0 <= i < n :: StepPath(calls[i].home)
    ensures p in Build(calls, n) <==> Visited(calls, n, p)
  {
    hide Build, Visited, StepPath;
    if n == 0 {
      BuildNothing(calls, p);
    } else {
      BuildVisits(calls, n - 1, p);
      BuildNext(calls, n, p);
      VisitedNext(calls, n, p);
    }
  }

  // ---- The children of a step account for exactly the calls at or below it ----

  function Weight(calls: seq<Call>, m: nat, r: Ref): Totals
    requires m <= |calls|
  {
    match r
    case Step(q) => Under(calls, m, q)
    case Leaf(i) => if i < m then OfCall(calls[i]) else ZERO
  }

  function Sum(calls: seq<Call>, m: nat, refs: seq<Ref>): Totals
    requires m <= |calls|
  {
    if refs == [] then ZERO
    else Plus(Sum(calls, m, refs[..|refs| - 1]), Weight(calls, m, refs[|refs| - 1]))
  }

  /** Call m counts towards child r. */
  predicate Hits(calls: seq<Call>, m: nat, r: Ref)
    requires m < |calls|
  {
    match r
    case Step(q) => q <= calls[m].home
    case Leaf(i) => i == m
  }

  /** One more call raises the sum by that call if exactly one child takes it. */
  lemma {:induction false} SumAdvance(calls: seq<Call>, m: nat, refs: seq<Ref>, at: int)
    requires m < |calls|
    requires forall k | 0 <= k < |refs| :: Hits(calls, m, refs[k]) <==> k == at
    ensures Sum(calls, m + 1, refs)
         == Plus(Sum(calls, m, refs), if 0 <= at < |refs| then OfCall(calls[m]) else ZERO)
  {
    if refs != [] {
      SumAdvance(calls, m, refs[..|refs| - 1], at);
    }
  }

  lemma {:induction false} SumOfNone(calls: seq<Call>, refs: seq<Ref>)
    ensures Sum(calls, 0, refs) == ZERO
  {
    if refs != [] { SumOfNone(calls, refs[..|refs| - 1]); }
  }

  /** The one child of p that call m belongs to, if any. */
  lemma {:induction false} TakerOf(kids: Kids, calls: seq<Call>, p: Path, m: nat) returns (at: int)
    requires Shape(kids, calls, |calls|) && p in kids && m < |calls|
    ensures 0 <= at < |kids[p]| <==> p <= calls[m].home
    ensures forall k | 0 <= k < |kids[p]| :: Hits(calls, m, kids[p][k]) <==> k == at
  {
    var home, refs := calls[m].home, kids[p];
    forall k | 0 <= k < |refs|
      ensures Hits(calls, m, refs[k]) <==> p <= home && refs[k] == TakerRef(p, home, m)
    {
      assert refs[k] in refs;
      assert Owns(kids, calls, |calls|, p, refs[k]);
    }
    if p <= home {
      var r := TakerRef(p, home, m);
      if home != p { PrefixIn(kids, home, |p| + 1); assert Parent(home[..|p| + 1]) == p; }
      assert Owns(kids, calls, |calls|, p, r);
      at :| 0 <= at < |refs| && refs[at] == r;
    } else {
      at := -1;
    }
  }

  function TakerRef(p: Path, home: Path, m: nat): Ref
    requires p <= home
  {
    if home == p then Leaf(m) else Step(home[..|p| + 1])
  }

  lemma {:induction false} PrefixIn(kids: Kids, q: Path, n: nat)
    requires PrefixClosed(kids) && q in kids && n <= |q|
    ensures q[..n] in kids
    decreases |q|
  {
    if n == |q| {
      assert q[..n] == q;
    } else {
      PrefixIn(kids, Parent(q), n);
      assert Parent(q)[..n] == q[..n];
    }
  }

  /** Adding a path that is already there changes nothing. */
  lemma {:induction false} AddPathNothing(kids: Kids, p: Path, m: nat)
    requires PrefixClosed(kids) && p in kids && m <= |p|
    ensures AddPath(kids, p, m) == kids
  {
    if m > 0 {
      AddPathNothing(kids, p, m - 1);
      PrefixIn(kids, p, m);
    }
  }

  lemma {:induction false} ChildrenAccountUpTo(kids: Kids, calls: seq<Call>, p: Path, m: nat)
    requires m <= |calls| && Shape(kids, calls, |calls|) && p in kids
    ensures Sum(calls, m, kids[p]) == Under(calls, m, p)
  {
    if m == 0 {
      SumOfNone(calls, kids[p]);
    } else {
      ChildrenAccountUpTo(kids, calls, p, m - 1);
      var at := TakerOf(kids, calls, p, m - 1);
      SumAdvance(calls, m - 1, kids[p], at);
    }
  }

  /** Summing the direct children of a step gives the totals of all calls at or below it. */
  lemma {:induction false} ChildrenAccount(kids: Kids, calls: seq<Call>, p: Path)
    requires Shape(kids, calls, |calls|) && p in kids
    ensures Sum(calls, |calls|, kids[p]) == Under(calls, |calls|, p)
  {
    ChildrenAccountUpTo(kids, calls, p, |calls|);
  }

  /** Every step but the root, and every call, is a child of exactly one step, once. */
  lemma {:induction false} OneParent(calls: seq<Call>, r: Ref, p: Path, q: Path)
    requires forall i | 0 <= i < |calls| :: StepPath(calls[i].home)
    requires p in Build(calls, |calls|) && q in Build(calls, |calls|)
    ensures r.Leaf? && r.row < |calls| ==> r in Of(Build(calls, |calls|), calls[r.row].home)
    ensures r.Step? && r.path != [] && r.path in Build(calls, |calls|)
            ==> Parent(r.path) in Build(calls, |calls|) && r in Build(calls, |calls|)[Parent(r.path)]
    ensures r in Build(calls, |calls|)[p] && r in Build(calls, |calls|)[q] ==> p == q
    ensures NoRepeats(Build(calls, |calls|)[p])
  {
    var kids := Build(calls, |calls|);
    BuildShape(calls, |calls|);
    assert r in kids[p] <==> Owns(kids, calls, |calls|, p, r);
    assert r in kids[q] <==> Owns(kids, calls, |calls|, q, r);
    if r.Leaf? && r.row < |calls| {
      assert Owns(kids, calls, |calls|, calls[r.row].home, r);
    }
    if r.Step? && r.path != [] && r.path in kids {
      assert Owns(kids, calls, |calls|, Parent(r.path), r);
    }
  }

  // ---- Children come in the order in which their first calls came ----

  /** Call i is the first at or below child r. */
  ghost predicate FirstHit(calls: seq<Call>, r: Ref, i: int)
  {
    0 <= i < |calls| && Hits(calls, i, r) && forall j | 0 <= j < i :: !Hits(calls, j, r)
  }

  ghost predicate CalledBefore(calls: seq<Call>, n: nat, r: Ref)
  {
    exists i :: FirstHit(calls, r, i) && i < n
  }

  /** Every child has a first call among the first n, and earlier children have earlier ones. */
  ghost predicate FirstCallOrder(calls: seq<Call>, n: nat, refs: seq<Ref>)
  {
    && (forall k | 0 <= k < |refs| :: CalledBefore(calls, n, refs[k]))
    && forall j, k, a, b | 0 <= j < k < |refs| && FirstHit(calls, refs[j], a) && FirstHit(calls, refs[k], b) :: a < b
  }

  lemma {:induction false} StepsStay(kids: Kids, p: Path, m: nat, q: Path)
    requires m <= |p| && q in kids
    ensures q in AddPath(kids, p, m)
  {
    if m > 0 { StepsStay(kids, p, m - 1, q); }
  }

  /** Making the missing steps of a path gives a step at most one child more, at the end. */
  lemma {:induction false} AddPathAppends(kids: Kids, p: Path, m: nat, q: Path)
    requires m <= |p| && q in AddPath(kids, p, m)
    ensures AddPath(kids, p, m)[q] == Of(kids, q)
            || (q < p[..m] && p[..|q| + 1] !in kids
                && AddPath(kids, p, m)[q] == Of(kids, q) + [Step(p[..|q| + 1])])
  {
    if m > 0 {
      var before, s, parent := AddPath(kids, p, m - 1), p[..m], p[..m - 1];
      assert Parent(s) == parent;
      if s in kids { StepsStay(kids, p, m - 1, s); }
      if parent in kids { StepsStay(kids, p, m - 1, parent); }
      if parent in before { AddPathAppends(kids, p, m - 1, parent); }
      if q in before { AddPathAppends(kids, p, m - 1, q); }
      assert Of(before, parent) == Of(kids, parent);
    }
  }

  /** So does adding a call, and the new child is the one the call belongs to. */
  lemma {:induction false} AddCallAppends(kids: Kids, call: Call, i: nat, q: Path)
    requires q in AddCall(kids, call, i)
    ensures AddCall(kids, call, i)[q] == Of(kids, q)
            || (q <= call.home && AddCall(kids, call, i)[q] == Of(kids, q) + [TakerRef(q, call.home, i)]
                && (TakerRef(q, call.home, i).Step? ==> TakerRef(q, call.home, i).path !in kids))
  {
    var home := call.home;
    var mid := AddPath(kids, home, |home|);
    assert home[..|home|] == home;
    if home in kids { StepsStay(kids, home, |home|, home); }
    if home in mid { AddPathAppends(kids, home, |home|, home); }
    if q in mid { AddPathAppends(kids, home, |home|, q); }
  }

  lemma {:induction false} OrderedOn(calls: seq<Call>, n: nat, refs: seq<Ref>)
    requires FirstCallOrder(calls, n, refs)
    ensures FirstCallOrder(calls, n + 1, refs)
  {
    hide FirstHit;
    forall k | 0 <= k < |refs| ensures CalledBefore(calls, n + 1, refs[k]) {
      assert CalledBefore(calls, n, refs[k]);
    }
  }

  lemma {:induction false} OneFirst(calls: seq<Call>, r: Ref, a: int, b: int)
    requires FirstHit(calls, r, a) && FirstHit(calls, r, b)
    ensures a == b
  {
  }

  lemma {:induction false} OrderedOnAppend(calls: seq<Call>, n: nat, refs: seq<Ref>, r: Ref)
    requires FirstCallOrder(calls, n, refs) && FirstHit(calls, r, n)
    ensures FirstCallOrder(calls, n + 1, refs + [r])
  {
    forall k, a | 0 <= k < |refs| && FirstHit(calls, refs[k], a) ensures a < n {
      assert CalledBefore(calls, n, refs[k]);
      var i :| FirstHit(calls, refs[k], i) && i < n;
      OneFirst(calls, refs[k], i, a);
    }
    forall a | FirstHit(calls, r, a) ensures a == n { OneFirst(calls, r, a, n); }
    OrderedOn(calls, n, refs);
    assert CalledBefore(calls, n + 1, r);
    hide FirstHit, CalledBefore;
  }

  /** The children of a step stand in the order of their first calls. */
  lemma {:induction false} BuildOrders(calls: seq<Call>, n: nat, p: Path)
    requires n <= |calls|
    requires forall i | 0 <= i < n :: StepPath(calls[i].home)
    requires p in Build(calls, n)
    ensures FirstCallOrder(calls, n, Build(calls, n)[p])
  {
    if n > 0 {
      hide FirstCallOrder, AddCall, Shape;
      var before, call := Build(calls, n - 1), calls[n - 1];
      if p in before {
        BuildOrders(calls, n - 1, p);
      } else {
        NothingOrdered(calls, n - 1);
      }
      OrderedOn(calls, n - 1, Of(before, p));
      AddCallAppends(before, call, n - 1, p);
      if Build(calls, n)[p] != Of(before, p) {
        var r := TakerRef(p, call.home, n - 1);
        if r.Step? { BuildVisits(calls, n - 1, r.path); }
        assert FirstHit(calls, r, n - 1);
        OrderedOnAppend(calls, n - 1, Of(before, p), r);
      }
    }
  }

  lemma {:induction false} NothingOrdered(calls: seq<Call>, n: nat)
    ensures FirstCallOrder(calls, n, [])
  {
  }
}
