/** Assembly of a run's waterfall on the heap: nodes found through a path map, children
    appended in place, totals rolled up in place. */
module RunTree {
  import opened Common
  import opened SpanPath
  import opened RunModel

  type SpanId = string

  const RUN_TREE_FETCH_CAP: nat := 5000

  /** One LLM call of a run, as fetched for the waterfall. */
  datatype Row = Row(
    id: SpanId,
    spanId: Option<SpanId>,
    spanPath: string,
    spanName: string,
    provider: string,
    model: string,
    requestedAt: int,
    respondedAt: int,
    responseTimeMs: int,
    statusCode: int,
    totalCost: real)

  datatype Kind = KindRun | KindStep | KindLLM

  class RunNode {
    const spanId: SpanId
    const parentSpanId: Option<SpanId>
    const name: string
    const path: string
    const kind: Kind
    const request: Option<Row>  // the call's own detail, on LLM nodes only
    const selfCost: real
    var totalCost: real
    var requestCount: int
    var children: seq<RunNode>

    constructor (spanId: SpanId, parentSpanId: Option<SpanId>, name: string, path: string, kind: Kind,
                 request: Option<Row>, cost: real, count: int)
      ensures this.spanId == spanId && this.parentSpanId == parentSpanId && this.name == name
      ensures this.path == path && this.kind == kind && this.request == request
      ensures selfCost == totalCost == cost && requestCount == count && children == []
    {
      this.spanId, this.parentSpanId, this.name, this.path := spanId, parentSpanId, name, path;
      this.kind, this.request, this.selfCost := kind, request, cost;
      totalCost, requestCount, children := cost, count, [];
    }

    ghost function Totals(): RunModel.Totals
      reads this`totalCost, this`requestCount
    {
      RunModel.Totals(totalCost, requestCount)
    }
  }

  datatype RunTree = RunTree(
    traceId: string,
    root: RunNode,
    totalCost: real,
    requestCount: int,
    startedAt: int,
    endedAt: int,
    truncated: bool)

  /** What every node of one run is derived from: the run's id, the root label and the
      UUIDv5 hash, taken as an arbitrary function. */
  datatype Run = Run(traceId: string, title: string, uuid5: string -> SpanId)
  {
    function InteriorSpanId(canonicalPath: string): SpanId
    {
      uuid5(SpanName(traceId, canonicalPath))
    }
  }

  function Cap(p: Path): Path
  {
    if |p| > MAX_SPAN_DEPTH then p[..MAX_SPAN_DEPTH] else p
  }

  /** The step a call is hung under: its path cut to the depth limit. */
  function Home(row: Row): Path
  {
    Cap(Segments(row.spanPath))
  }

  function Calls(rows: seq<Row>): (calls: seq<Call>)
  {
    seq(|rows|, i requires 0 <= i < |rows| => Call(Home(rows[i]), rows[i].totalCost))
  }

  // ---- The heap picture: where each step and each call lives ----

  /** The node of every step, and of every row in order. */
  datatype Layout = Layout(steps: map<Path, RunNode>, leaves: seq<RunNode>)
  {
    ghost predicate Has(r: Ref)
    {
      match r
      case Step(p) => p in steps
      case Leaf(i) => i < |leaves|
    }

    ghost function At(r: Ref): RunNode
      requires Has(r)
    {
      match r
      case Step(p) => steps[p]
      case Leaf(i) => leaves[i]
    }

    /** Different steps and calls live in different nodes. */
    ghost predicate Separate()
    {
      && (forall p, q | p in steps && q in steps && p != q :: steps[p] != steps[q])
      && (forall i, j | 0 <= i < j < |leaves| :: leaves[i] != leaves[j])
      && (forall p, i | p in steps && 0 <= i < |leaves| :: steps[p] != leaves[i])
    }

    ghost predicate Mirrors(refs: seq<Ref>, nodes: seq<RunNode>)
    {
      |nodes| == |refs| && forall k | 0 <= k < |refs| :: Has(refs[k]) && nodes[k] == At(refs[k])
    }

    /** The children fields of the steps, as a value. */
    ghost function Links(): map<Path, seq<RunNode>>
      reads steps.Values`children
    {
      map p | p in steps :: steps[p].children
    }

    /** The given children fields spell out exactly the given lists. */
    ghost predicate LinkedAs(kids: Kids, links: map<Path, seq<RunNode>>)
    {
      steps.Keys == kids.Keys == links.Keys && forall p | p in kids :: Mirrors(kids[p], links[p])
    }

    ghost predicate LeavesBare()
      reads leaves`children
    {
      forall i | 0 <= i < |leaves| :: leaves[i].children == []
    }

    ghost predicate Linked(kids: Kids)
      reads steps.Values`children, leaves`children
    {
      LinkedAs(kids, Links()) && LeavesBare()
    }

    /** Every step node carries the identity and labels of its path. */
    ghost predicate StepsLabelled(run: Run)
    {
      forall p | p in steps :: StepLabelled(run, p, steps[p])
    }

    /** Every call node carries its row, under its row's home. */
    ghost predicate LeavesLabelled(run: Run, rows: seq<Row>)
    {
      |leaves| <= |rows| && forall i | 0 <= i < |leaves| :: LeafLabelled(run, rows[i], leaves[i])
    }
  }

  ghost predicate StepLabelled(run: Run, p: Path, n: RunNode)
  {
    && n.path == Join(p)
    && n.spanId == run.InteriorSpanId(Join(p))
    && n.request == None && n.selfCost == 0.0
    && if p == [] then n.kind == KindRun && n.name == run.title && n.parentSpanId == None
       else n.kind == KindStep && n.name == p[|p| - 1]
            && n.parentSpanId == Some(run.InteriorSpanId(Join(Parent(p))))
  }

  ghost predicate LeafLabelled(run: Run, row: Row, n: RunNode)
  {
    && n.path == Join(Home(row)) && n.kind == KindLLM && n.name == row.spanName
    && n.spanId == (if row.spanId.Some? then row.spanId.value else row.id)
    && n.parentSpanId == Some(run.InteriorSpanId(Join(Home(row))))
    && n.request == Some(row) && n.selfCost == row.totalCost
  }

  /** The string-keyed node map holds exactly the steps, under their joined paths. */
  ghost predicate Indexed(nodes: map<string, RunNode>, steps: map<Path, RunNode>)
  {
    && (forall p | p in steps :: WellFormed(p) && Join(p) in nodes && nodes[Join(p)] == steps[p])
    && (forall s | s in nodes :: Segments(s) in steps && Join(Segments(s)) == s)
  }

  lemma {:induction false} IndexedLookup(nodes: map<string, RunNode>, steps: map<Path, RunNode>, p: Path)
    requires Indexed(nodes, steps) && WellFormed(p)
    ensures Join(p) in nodes <==> p in steps
    ensures p in steps ==> nodes[Join(p)] == steps[p]
  {
    SegmentsOfJoin(p);
  }

  lemma {:induction false} IndexedInsert(nodes: map<string, RunNode>, steps: map<Path, RunNode>, p: Path, n: RunNode)
    requires Indexed(nodes, steps) && WellFormed(p) && p !in steps
    ensures Indexed(nodes[Join(p) := n], steps[p := n])
  {
    hide Join, Segments;
    SegmentsOfJoin(p);
    forall q | q in steps ensures Join(q) != Join(p) { JoinInjective(p, q); }
  }

  /** Everything that holds of the heap between two steps of the assembly. */
  ghost predicate Sound(run: Run, nodes: map<string, RunNode>, lay: Layout, kids: Kids)
    reads lay.steps.Values`children, lay.leaves`children
  {
    && lay.Linked(kids) && lay.Separate() && lay.StepsLabelled(run) && Indexed(nodes, lay.steps)
  }

  ghost predicate Zeroed(steps: map<Path, RunNode>)
    reads steps.Values`totalCost, steps.Values`requestCount
  {
    forall p | p in steps :: steps[p].Totals() == ZERO
  }

  lemma {:induction false} SoundLookup(run: Run, nodes: map<string, RunNode>, lay: Layout, kids: Kids, p: Path)
    requires Sound(run, nodes, lay, kids) && WellFormed(p)
    ensures Join(p) in nodes <==> p in lay.steps
    ensures p in lay.steps <==> p in kids
    ensures p in lay.steps ==> nodes[Join(p)] == lay.steps[p]
  {
    IndexedLookup(nodes, lay.steps, p);
  }

  lemma {:induction false} LinksInsert(lay: Layout, lay': Layout, kids: Kids, links: map<Path, seq<RunNode>>, q: Path,
                                       node: RunNode)
    requires lay.LinkedAs(kids, links) && q != [] && q !in kids && Parent(q) in kids
    requires lay' == lay.(steps := lay.steps[q := node])
    ensures lay'.LinkedAs(AddStep(kids, q), links[Parent(q) := links[Parent(q)] + [node]][q := []])
  {
    var kids' := AddStep(kids, q);
    var links' := links[Parent(q) := links[Parent(q)] + [node]][q := []];
    forall p | p in kids' ensures lay'.Mirrors(kids'[p], links'[p]) {
      if p in kids { assert lay.Mirrors(kids[p], links[p]); }
    }
  }

  lemma {:induction false} LabelsInserted(run: Run, lay: Layout, lay': Layout, q: Path, node: RunNode)
    requires lay.Separate() && lay.StepsLabelled(run) && StepLabelled(run, q, node)
    requires (forall p | p in lay.steps :: lay.steps[p] != node) && node !in lay.leaves
    requires lay' == lay.(steps := lay.steps[q := node])
    ensures lay'.Separate() && lay'.StepsLabelled(run)
  {
    hide StepLabelled;
  }

  /** Putting one more labelled node in keeps the whole picture. */
  lemma {:induction false} StepInserted(run: Run, nodes: map<string, RunNode>, lay: Layout, lay': Layout, kids: Kids,
                     links: map<Path, seq<RunNode>>, q: Path, node: RunNode)
    requires lay.Separate() && lay.StepsLabelled(run) && Indexed(nodes, lay.steps) && lay.LinkedAs(kids, links)
    requires q != [] && WellFormed(q) && q !in lay.steps && q !in kids && Parent(q) in kids
    requires StepLabelled(run, q, node)
    requires (forall p | p in lay.steps :: lay.steps[p] != node) && node !in lay.leaves
    requires lay' == lay.(steps := lay.steps[q := node])
    ensures lay'.Separate() && lay'.StepsLabelled(run) && Indexed(nodes[Join(q) := node], lay'.steps)
    ensures Parent(q) in links
    ensures lay'.LinkedAs(AddStep(kids, q), links[Parent(q) := links[Parent(q)] + [node]][q := []])
  {
    hide Join, Segments, AddStep, StepLabelled, Indexed, Layout.Separate, Layout.StepsLabelled;
    assert Parent(q) in links;
    IndexedInsert(nodes, lay.steps, q, node);
    LinksInsert(lay, lay', kids, links, q, node);
    LabelsInserted(run, lay, lay', q, node);
  }

  lemma {:induction false} SoundParts(run: Run, nodes: map<string, RunNode>, lay: Layout, kids: Kids, q: Path)
    requires Sound(run, nodes, lay, kids)
    requires q != [] && q !in lay.steps && Parent(q) in lay.steps
    ensures q !in kids && Parent(q) in kids
    ensures lay.Separate() && lay.StepsLabelled(run) && Indexed(nodes, lay.steps) && lay.LinkedAs(kids, lay.Links())
    ensures forall p | p in lay.steps && p != Parent(q) :: lay.steps[p] != lay.steps[Parent(q)]
    ensures StepLabelled(run, Parent(q), lay.steps[Parent(q)])
    ensures lay.LeavesBare() && lay.steps[Parent(q)] !in lay.leaves
  {
  }

  /** Creates the node of step q under its parent. */
  method NewStep(run: Run, nodes: map<string, RunNode>, parent: RunNode, prefix: string,
                 ghost lay: Layout, ghost kids: Kids, ghost q: Path)
    returns (node: RunNode, nodes': map<string, RunNode>, ghost lay': Layout)
    requires Sound(run, nodes, lay, kids) && Zeroed(lay.steps)
    requires q != [] && WellFormed(q) && q !in lay.steps && prefix == Join(q)
    requires Parent(q) in lay.steps && lay.steps[Parent(q)] == parent
    modifies parent`children
    ensures fresh(node) && lay' == lay.(steps := lay.steps[q := node])
    ensures Sound(run, nodes', lay', AddStep(kids, q)) && Zeroed(lay'.steps)
  {
    hide Join, Segments, Indexed, AddStep, Layout.LinkedAs, Layout.Separate, Layout.StepsLabelled;
    var segments := SplitPath(prefix);
    SegmentsOfJoin(q);
    SoundParts(run, nodes, lay, kids, q);
    node := new RunNode(run.InteriorSpanId(prefix), Some(parent.spanId), segments[|segments| - 1], prefix,
                        KindStep, None, 0.0, 0);
    nodes' := nodes[prefix := node];
    lay' := lay.(steps := lay.steps[q := node]);
    Append(lay, lay', parent, node, Parent(q), q);
    StepInserted(run, nodes, lay, lay', kids, old(lay.Links()), q, node);
  }

  /** Appends a node to its parent's children. */
  method Append(ghost lay: Layout, ghost lay': Layout, parent: RunNode, node: RunNode, ghost p: Path, ghost q: Path)
    requires p in lay.steps && lay.steps[p] == parent && q !in lay.steps
    requires lay' == lay.(steps := lay.steps[q := node])
    requires forall o | o in lay.steps && o != p :: lay.steps[o] != parent
    requires parent != node && parent !in lay.leaves
    requires lay.LeavesBare() && node.children == []
    modifies parent`children
    ensures lay'.Links() == old(lay.Links())[p := old(parent.children) + [node]][q := []]
    ensures lay'.LeavesBare()
  {
    parent.children := parent.children + [node];
  }

  /** `ensurePath`: makes every missing step on the way to a path and returns the deepest. */
  method EnsurePath(run: Run, nodes: map<string, RunNode>, root: RunNode, canonicalPath: string,
                    ghost lay: Layout, ghost kids: Kids)
    returns (parent: RunNode, nodes': map<string, RunNode>, ghost lay': Layout)
    requires Sound(run, nodes, lay, kids) && Zeroed(lay.steps) && PrefixClosed(kids)
    requires lay.steps[[]] == root
    requires CanonicalPath(canonicalPath) == canonicalPath
    modifies lay.steps.Values`children
    ensures Grown(lay, lay')
    ensures forall p | p in lay'.steps && p !in lay.steps :: fresh(lay'.steps[p])
    ensures var p := Cap(Segments(canonicalPath));
            && Sound(run, nodes', lay', AddPath(kids, p, |p|)) && Zeroed(lay'.steps)
            && p in lay'.steps && lay'.steps[p] == parent
  {
    hide Join, Segments, Sound, Zeroed, AddStep, Layout.Linked;
    ghost var full := Segments(canonicalPath);
    ghost var p := Cap(full);
    SegmentsWellFormed(canonicalPath);
    SoundLookup(run, nodes, lay, kids, full);
    SoundLookup(run, nodes, lay, kids, []);
    assert p[..0] == [];
    nodes', lay' := nodes, lay;
    if canonicalPath in nodes {
      AddPathNothing(kids, p, |p|);
      return nodes[canonicalPath], nodes, lay;
    }
    var prefixes := AncestorPaths(canonicalPath);
    if |prefixes| > MAX_SPAN_DEPTH {
      prefixes := prefixes[..MAX_SPAN_DEPTH];
    }
    parent := root;
    for i := 0 to |prefixes|
      invariant Grown(lay, lay')
      invariant forall q | q in lay'.steps && q !in lay.steps :: fresh(lay'.steps[q])
      invariant Sound(run, nodes', lay', AddPath(kids, p, i)) && Zeroed(lay'.steps)
      invariant p[..i] in lay'.steps && lay'.steps[p[..i]] == parent
    {
      ghost var q := p[..i + 1];
      assert Parent(q) == p[..i];
      assert full[..i + 1] == q;
      SoundLookup(run, nodes', lay', AddPath(kids, p, i), q);
      if prefixes[i] in nodes' {
        parent := nodes'[prefixes[i]];
        AddStepNothing(AddPath(kids, p, i), q);
      } else {
        parent, nodes', lay' := NewStep(run, nodes', parent, prefixes[i], lay', AddPath(kids, p, i), q);
      }
    }
    assert p[..|p|] == p;
  }

  lemma {:induction false} AddStepNothing(kids: Kids, q: Path)
    requires q != [] && q in kids
    ensures AddStep(kids, q) == kids
  {
  }

  /** A later layout keeps every step and call where it was. */
  ghost predicate Grown(lay: Layout, lay': Layout)
  {
    lay'.leaves == lay.leaves && forall p | p in lay.steps :: p in lay'.steps && lay'.steps[p] == lay.steps[p]
  }

  ghost predicate LeavesWeighed(rows: seq<Row>, leaves: seq<RunNode>)
    reads leaves`totalCost, leaves`requestCount
  {
    |leaves| <= |rows| && forall i | 0 <= i < |leaves| :: leaves[i].Totals() == Totals(rows[i].totalCost, 1)
  }

  lemma {:induction false} LeafInserted(lay: Layout, lay': Layout, kids: Kids, links: map<Path, seq<RunNode>>,
                                        p: Path, leaf: RunNode)
    requires lay.Separate() && lay.LinkedAs(kids, links) && p in kids
    requires (forall q | q in lay.steps :: lay.steps[q] != leaf) && leaf !in lay.leaves
    requires lay' == lay.(leaves := lay.leaves + [leaf])
    ensures p in links
    ensures lay'.Separate() && lay'.LinkedAs(AddLeaf(kids, p, |lay.leaves|), links[p := links[p] + [leaf]])
  {
    var kids' := AddLeaf(kids, p, |lay.leaves|);
    forall q | q in kids' ensures lay'.Mirrors(kids'[q], links[p := links[p] + [leaf]][q]) {
      assert lay.Mirrors(kids[q], links[q]);
    }
  }

  /** Hangs a call under its step. */
  method NewLeaf(run: Run, nodes: map<string, RunNode>, parent: RunNode, row: Row,
                 ghost lay: Layout, ghost kids: Kids, ghost rows: seq<Row>)
    returns (leaf: RunNode, ghost lay': Layout)
    requires Sound(run, nodes, lay, kids) && Zeroed(lay.steps)
    requires lay.LeavesLabelled(run, rows) && LeavesWeighed(rows, lay.leaves)
    requires |lay.leaves| < |rows| && row == rows[|lay.leaves|]
    requires Home(row) in lay.steps && lay.steps[Home(row)] == parent
    modifies parent`children
    ensures fresh(leaf) && lay' == lay.(leaves := lay.leaves + [leaf])
    ensures Sound(run, nodes, lay', AddLeaf(kids, Home(row), |lay.leaves|)) && Zeroed(lay'.steps)
    ensures lay'.LeavesLabelled(run, rows) && LeavesWeighed(rows, lay'.leaves)
  {
    hide Join, Segments, Home, Indexed, AddLeaf, Layout.LinkedAs, Layout.Separate;
    ghost var p := Home(row);
    SoundAt(run, nodes, lay, kids, p);
    var spanId := if row.spanId.Some? then row.spanId.value else row.id;
    leaf := new RunNode(spanId, Some(parent.spanId), row.spanName, parent.path, KindLLM, Some(row), row.totalCost, 1);
    assert LeafLabelled(run, row, leaf);
    assert leaf.Totals() == Totals(row.totalCost, 1);
    hide LeafLabelled, StepLabelled, Layout.LeavesLabelled, LeavesWeighed;
    lay' := lay.(leaves := lay.leaves + [leaf]);
    AppendLeaf(lay, lay', parent, leaf, p, rows);
    LeafInserted(lay, lay', kids, old(lay.Links()), p, leaf);
    LeafLabelsInserted(run, rows, lay, lay', leaf);
  }

  lemma {:induction false} LeafLabelsInserted(run: Run, rows: seq<Row>, lay: Layout, lay': Layout, leaf: RunNode)
    requires lay.LeavesLabelled(run, rows) && |lay.leaves| < |rows|
    requires LeafLabelled(run, rows[|lay.leaves|], leaf)
    requires lay' == lay.(leaves := lay.leaves + [leaf])
    ensures lay'.LeavesLabelled(run, rows)
  {
    hide LeafLabelled;
  }

  lemma {:induction false} SoundAt(run: Run, nodes: map<string, RunNode>, lay: Layout, kids: Kids, p: Path)
    requires Sound(run, nodes, lay, kids) && p in lay.steps
    ensures p in kids && lay.Separate() && lay.LeavesBare() && lay.LinkedAs(kids, lay.Links())
    ensures forall q | q in lay.steps && q != p :: lay.steps[q] != lay.steps[p]
    ensures lay.steps[p] !in lay.leaves && StepLabelled(run, p, lay.steps[p])
  {
  }

  method AppendLeaf(ghost lay: Layout, ghost lay': Layout, parent: RunNode, leaf: RunNode, ghost p: Path,
                    ghost rows: seq<Row>)
    requires p in lay.steps && lay.steps[p] == parent
    requires lay' == lay.(leaves := lay.leaves + [leaf])
    requires forall o | o in lay.steps && o != p :: lay.steps[o] != parent
    requires parent != leaf && parent !in lay.leaves
    requires lay.LeavesBare() && leaf.children == []
    requires LeavesWeighed(rows, lay.leaves) && |lay.leaves| < |rows|
    requires leaf.Totals() == Totals(rows[|lay.leaves|].totalCost, 1)
    modifies parent`children
    ensures LeavesWeighed(rows, lay'.leaves)
    ensures lay'.Links() == old(lay.Links())[p := old(parent.children) + [leaf]]
    ensures lay'.LeavesBare()
  {
    parent.children := parent.children + [leaf];
  }

  // ---- Rolling totals up ----

  /** Step q lies in the subtree of child r. */
  predicate Covers(r: Ref, q: Path)
  {
    r.Step? && r.path <= q
  }

  function Rank(r: Ref): nat
  {
    match r
    case Step(p) => if |p| <= MAX_SPAN_DEPTH then MAX_SPAN_DEPTH + 1 - |p| else 0
    case Leaf(_) => 0
  }

  /** The totals held by the step nodes, as a value. */
  ghost function Sums(lay: Layout): map<Path, Totals>
    reads lay.steps.Values`totalCost, lay.steps.Values`requestCount
  {
    map q | q in lay.steps :: lay.steps[q].Totals()
  }

  /** No step in the subtree of r has accumulated anything yet. */
  ghost predicate Untouched(sums: map<Path, Totals>, r: Ref)
  {
    forall q | q in sums && Covers(r, q) :: sums[q] == ZERO
  }

  /** Every step in the subtree of r totals its calls; all other steps are as they were. */
  ghost function Rolled(sums: map<Path, Totals>, calls: seq<Call>, r: Ref): map<Path, Totals>
  {
    map q | q in sums :: if Covers(r, q) then Under(calls, |calls|, q) else sums[q]
  }

  /** What does not change while totals are rolled up. */
  ghost predicate Frame(lay: Layout, kids: Kids, calls: seq<Call>)
    reads lay.steps.Values`children, lay.leaves`children
  {
    lay.Linked(kids) && lay.Separate() && Shape(kids, calls, |calls|) && |lay.leaves| == |calls|
  }

  ghost predicate LeavesTotal(lay: Layout, calls: seq<Call>)
    reads lay.leaves`totalCost, lay.leaves`requestCount
  {
    |lay.leaves| == |calls|
    && forall i | 0 <= i < |calls| :: lay.leaves[i].Totals() == Totals(calls[i].cost, 1)
  }

  /** The children of a step split its proper subtree. */
  lemma {:induction false} ChildrenPartition(kids: Kids, calls: seq<Call>, p: Path)
    requires Shape(kids, calls, |calls|) && p in kids
    ensures forall k | 0 <= k < |kids[p]| && kids[p][k].Step? ::
              kids[p][k].path in kids && kids[p][k].path != [] && Parent(kids[p][k].path) == p
    ensures forall j, k, q | 0 <= j < |kids[p]| && 0 <= k < |kids[p]| && Covers(kids[p][j], q) && Covers(kids[p][k], q)
              :: j == k
    ensures forall q | q in kids && p <= q && p != q :: exists k :: 0 <= k < |kids[p]| && Covers(kids[p][k], q)
  {
    var refs := kids[p];
    forall k | 0 <= k < |refs| ensures Owns(kids, calls, |calls|, p, refs[k]) { assert refs[k] in refs; }
    forall j, k, q | 0 <= j < |refs| && 0 <= k < |refs| && Covers(refs[j], q) && Covers(refs[k], q)
      ensures j == k
    {
      assert refs[j].path == q[..|p| + 1] == refs[k].path;
    }
    forall q | q in kids && p <= q && p != q
      ensures exists k :: 0 <= k < |refs| && Covers(refs[k], q)
    {
      var c := q[..|p| + 1];
      PrefixIn(kids, q, |p| + 1);
      assert Parent(c) == p;
      assert Owns(kids, calls, |calls|, p, Step(c));
      var k :| 0 <= k < |refs| && refs[k] == Step(c);
      assert Covers(refs[k], q);
    }
  }

  /** Step q lies below one of the first k children. */
  ghost predicate Reached(refs: seq<Ref>, k: nat, q: Path)
    requires k <= |refs|
  {
    exists j :: 0 <= j < k && Covers(refs[j], q)
  }

  lemma {:induction false} ReachedNext(refs: seq<Ref>, k: nat, q: Path)
    requires k < |refs|
    ensures Reached(refs, k + 1, q) <==> Reached(refs, k, q) || Covers(refs[k], q)
  {
  }

  lemma {:induction false} ReachedAll(kids: Kids, calls: seq<Call>, p: Path, q: Path)
    requires Shape(kids, calls, |calls|) && p in kids && q in kids && q != p
    ensures Reached(kids[p], |kids[p]|, q) <==> p <= q
  {
    ChildrenPartition(kids, calls, p);
  }

  lemma {:induction false} ChildAvoidsParent(kids: Kids, calls: seq<Call>, p: Path, k: nat)
    requires Shape(kids, calls, |calls|) && p in kids && k < |kids[p]|
    ensures !Covers(kids[p][k], p)
  {
    ChildrenPartition(kids, calls, p);
  }

  /** Halfway through the children of p: the first k subtrees are rolled up and p holds their sum. */
  ghost predicate Halfway(was: map<Path, Totals>, sums: map<Path, Totals>, calls: seq<Call>,
                          p: Path, refs: seq<Ref>, k: nat)
    requires k <= |refs|
  {
    && sums.Keys == was.Keys
    && p in sums && sums[p] == Sum(calls, |calls|, refs[..k])
    && forall q | q in sums && q != p ::
         sums[q] == if Reached(refs, k, q) then Under(calls, |calls|, q) else was[q]
  }

  lemma {:induction false} HalfwayStart(kids: Kids, sums: map<Path, Totals>, calls: seq<Call>, p: Path)
    requires p in sums && Untouched(sums, Step(p)) && p in kids
    ensures Halfway(sums, sums, calls, p, kids[p], 0)
  {
    assert Covers(Step(p), p);
  }

  lemma {:induction false} HalfwayUntouched(kids: Kids, was: map<Path, Totals>, sums: map<Path, Totals>,
                                            calls: seq<Call>, p: Path, k: nat)
    requires Shape(kids, calls, |calls|) && p in kids && k < |kids[p]|
    requires Halfway(was, sums, calls, p, kids[p], k) && Untouched(was, Step(p))
    ensures Untouched(sums, kids[p][k])
  {
    ChildrenPartition(kids, calls, p);
    forall q | q in sums && Covers(kids[p][k], q) ensures sums[q] == ZERO {
      assert Covers(Step(p), q);
    }
  }

  lemma {:induction false} HalfwayNext(kids: Kids, was: map<Path, Totals>, sums: map<Path, Totals>, calls: seq<Call>,
                                       p: Path, k: nat)
    requires Shape(kids, calls, |calls|) && p in kids && k < |kids[p]|
    requires Halfway(was, sums, calls, p, kids[p], k)
    ensures p in Rolled(sums, calls, kids[p][k]) && Rolled(sums, calls, kids[p][k])[p] == sums[p]
    ensures Halfway(was, Rolled(sums, calls, kids[p][k])[p := Plus(sums[p], Weight(calls, |calls|, kids[p][k]))],
                    calls, p, kids[p], k + 1)
  {
    hide Shape, Covers, Reached, Under, Weight;
    var refs := kids[p];
    ChildAvoidsParent(kids, calls, p, k);
    assert refs[..k + 1][..k] == refs[..k];
    var next := Rolled(sums, calls, refs[k])[p := Plus(sums[p], Weight(calls, |calls|, refs[k]))];
    forall q | q in next && q != p
      ensures next[q] == if Reached(refs, k + 1, q) then Under(calls, |calls|, q) else was[q]
    {
      ReachedNext(refs, k, q);
    }
  }

  lemma {:induction false} HalfwayEnd(kids: Kids, was: map<Path, Totals>, sums: map<Path, Totals>, calls: seq<Call>,
                                      p: Path)
    requires Shape(kids, calls, |calls|) && p in kids && was.Keys == kids.Keys
    requires Halfway(was, sums, calls, p, kids[p], |kids[p]|)
    ensures sums == Rolled(was, calls, Step(p))
  {
    hide Shape, Reached, Under, Sum;
    ChildrenAccount(kids, calls, p);
    assert kids[p][..|kids[p]|] == kids[p];
    forall q | q in sums ensures sums[q] == Rolled(was, calls, Step(p))[q] {
      if q != p { ReachedAll(kids, calls, p, q); }
    }
  }

  lemma {:induction false} FrameAt(lay: Layout, kids: Kids, calls: seq<Call>, r: Ref)
    requires Frame(lay, kids, calls) && lay.Has(r)
    ensures lay.steps.Keys == kids.Keys && Shape(kids, calls, |calls|)
    ensures r.Step? ==> r.path in kids && lay.Mirrors(kids[r.path], lay.steps[r.path].children)
    ensures r.Leaf? ==> lay.leaves[r.row].children == []
    ensures r.Step? ==> forall k | 0 <= k < |kids[r.path]| :: Rank(kids[r.path][k]) < Rank(r)
  {
    if r.Step? {
      forall k | 0 <= k < |kids[r.path]| ensures Rank(kids[r.path][k]) < Rank(r) {
        assert kids[r.path][k] in kids[r.path];
        assert Owns(kids, calls, |calls|, r.path, kids[r.path][k]);
      }
    }
  }

  /** Adds a finished child's totals to its parent. */
  method AddTotals(n: RunNode, child: RunNode, ghost p: Path, ghost r: Ref, ghost lay: Layout, ghost kids: Kids,
                   ghost calls: seq<Call>)
    requires Frame(lay, kids, calls) && LeavesTotal(lay, calls)
    requires p in lay.steps && lay.steps[p] == n && lay.Has(r) && lay.At(r) == child && r != Step(p)
    requires r.Step? ==> Sums(lay)[r.path] == Under(calls, |calls|, r.path)
    modifies n`totalCost, n`requestCount
    ensures Sums(lay) == old(Sums(lay))[p := Plus(old(Sums(lay))[p], Weight(calls, |calls|, r))]
    ensures LeavesTotal(lay, calls)
  {
    hide Shape, Under;
    n.totalCost := n.totalCost + child.totalCost;
    n.requestCount := n.requestCount + child.requestCount;
  }

  /** `rollUpRunNode`: adds every child's totals to its parent, children first. */
  method RollUpRunNode(n: RunNode, ghost r: Ref, ghost lay: Layout, ghost kids: Kids, ghost calls: seq<Call>)
    requires Frame(lay, kids, calls) && LeavesTotal(lay, calls)
    requires lay.Has(r) && lay.At(r) == n && Untouched(Sums(lay), r)
    modifies lay.steps.Values`totalCost, lay.steps.Values`requestCount
    ensures Sums(lay) == Rolled(old(Sums(lay)), calls, r) && LeavesTotal(lay, calls)
    decreases Rank(r)
  {
    hide Shape, Untouched, LeavesTotal, Frame, Weight, Under, Rank, Halfway;
    FrameAt(lay, kids, calls, r);
    if r.Step? {
      HalfwayStart(kids, Sums(lay), calls, r.path);
    }
    for k := 0 to |n.children|
      invariant r.Step? ==> Halfway(old(Sums(lay)), Sums(lay), calls, r.path, kids[r.path], k)
      invariant r.Leaf? ==> Sums(lay) == old(Sums(lay))
      invariant LeavesTotal(lay, calls)
    {
      ghost var c := kids[r.path][k];
      var child := n.children[k];
      HalfwayUntouched(kids, old(Sums(lay)), Sums(lay), calls, r.path, k);
      HalfwayNext(kids, old(Sums(lay)), Sums(lay), calls, r.path, k);
      RollUpRunNode(child, c, lay, kids, calls);
      AddTotals(n, child, r.path, c, lay, kids, calls);
    }
    if r.Step? {
      HalfwayEnd(kids, old(Sums(lay)), Sums(lay), calls, r.path);
    }
  }
}
