/** The whole waterfall: assembly over all rows, roll-up, the fetch cap, and the agreement
    between identities recorded at capture and identities derived on reading. */
module RunAssembly {
  import opened Common
  import opened SpanPath
  import opened RunModel
  import opened RunTree

  /** `runLabel`: the top-level step of a call, or its span name when it has none. */
  function RunLabel(row: Row): string
  {
    var segments := Segments(row.spanPath);
    if |segments| > 0 then segments[0] else row.spanName
  }

  /** The name of a finished waterfall's root: the first step of the first call's path, which is all
      of the path or what stands before a separator, or the call's own name when its path is
      nothing but separators. */
  lemma {:induction false} RootName(traceId: string, uuid5: string -> SpanId, rows: seq<Row>, tree: RunTree,
                                    lay: Layout, step: string, rest: string)
    requires rows != [] && Waterfall(Run(traceId, RunLabel(rows[0]), uuid5), rows, tree, lay)
    requires step != "" && '/' !in step
    ensures rows[0].spanPath == step || rows[0].spanPath == step + "/" + rest ==> tree.root.name == step
    ensures (forall i | 0 <= i < |rows[0].spanPath| :: rows[0].spanPath[i] == '/') ==>
              tree.root.name == rows[0].spanName
  {
    hide Join, Segments, Layout.Separate, Layout.Linked, LeavesWeighed, Under;
    SegmentsOfName(step);
    SegmentsAtSeparator(step, rest);
    NoSegmentsIff(rows[0].spanPath);
    assert StepLabelled(Run(traceId, RunLabel(rows[0]), uuid5), [], tree.root);
  }

  /** What the first n calls of a run cost together. */
  ghost function CostOf(rows: seq<Row>, n: nat): real
    requires n <= |rows|
  {
    if n == 0 then 0.0 else CostOf(rows, n - 1) + rows[n - 1].totalCost
  }

  lemma {:induction false} AllCosts(rows: seq<Row>, n: nat)
    requires n <= |rows|
    ensures All(Calls(rows), n) == Totals(CostOf(rows, n), n)
  {
    hide Home;
    if n > 0 {
      AllCosts(rows, n - 1);
      assert Calls(rows)[n - 1].cost == rows[n - 1].totalCost;
    }
  }

  lemma {:induction false} CallsAreStepPaths(rows: seq<Row>)
    ensures forall i | 0 <= i < |rows| :: StepPath(Calls(rows)[i].home)
  {
    forall i | 0 <= i < |rows| ensures StepPath(Calls(rows)[i].home) {
      SegmentsWellFormed(rows[i].spanPath);
    }
  }

  /** The finished waterfall of a run: the heap tree is the model tree, every node is labelled
      from its path or row, and every step totals the calls at or below it. */
  ghost predicate Waterfall(run: Run, rows: seq<Row>, tree: RunTree, lay: Layout)
    reads lay.steps.Values, lay.leaves
  {
    && Assembled(run, rows, lay)
    && tree.root == lay.steps[[]] && tree.traceId == run.traceId
    && Totals(tree.totalCost, tree.requestCount) == All(Calls(rows), |rows|)
  }

  ghost predicate Assembled(run: Run, rows: seq<Row>, lay: Layout)
    reads lay.steps.Values, lay.leaves
  {
    && lay.Linked(Build(Calls(rows), |rows|)) && lay.Separate()
    && lay.StepsLabelled(run) && lay.LeavesLabelled(run, rows) && |lay.leaves| == |rows|
    && [] in lay.steps
    && (forall p | p in lay.steps :: lay.steps[p].Totals() == Under(Calls(rows), |rows|, p))
    && LeavesWeighed(rows, lay.leaves)
  }

  /** `endedAt` is the latest response of the run. */
  ghost predicate LatestResponse(rows: seq<Row>, n: nat, t: int)
    requires n <= |rows|
  {
    && (forall i | 0 <= i < n :: rows[i].respondedAt <= t)
    && exists i :: 0 <= i < n && rows[i].respondedAt == t
  }

  /** State between two rows of the assembly loop. */
  ghost predicate Between(run: Run, rows: seq<Row>, n: nat, nodes: map<string, RunNode>, lay: Layout, root: RunNode)
    requires n <= |rows|
    reads lay.steps.Values, lay.leaves
  {
    && Sound(run, nodes, lay, Build(Calls(rows), n)) && Zeroed(lay.steps)
    && lay.LeavesLabelled(run, rows) && LeavesWeighed(rows, lay.leaves) && |lay.leaves| == n
    && [] in lay.steps && lay.steps[[]] == root
  }

  method Start(run: Run, rows: seq<Row>) returns (root: RunNode, nodes: map<string, RunNode>, ghost lay: Layout)
    ensures fresh(root) && lay == Layout(map[[] := root], [])
    ensures Between(run, rows, 0, nodes, lay, root)
  {
    root := new RunNode(run.InteriorSpanId(""), None, run.title, "", KindRun, None, 0.0, 0);
    nodes := map["" := root];
    lay := Layout(map[[] := root], []);
    SegmentsWellFormed("");
    assert lay.Links() == map[[] := []];
  }

  /** One row: its missing steps, then its leaf. */
  method AddRow(run: Run, rows: seq<Row>, i: nat, nodes: map<string, RunNode>, root: RunNode, ghost lay: Layout)
    returns (nodes': map<string, RunNode>, ghost lay': Layout)
    requires i < |rows| && Between(run, rows, i, nodes, lay, root)
    modifies lay.steps.Values`children
    ensures Between(run, rows, i + 1, nodes', lay', root)
    ensures forall p | p in lay'.steps && p !in lay.steps :: fresh(lay'.steps[p])
    ensures forall p | p in lay.steps :: p in lay'.steps && lay'.steps[p] == lay.steps[p]
    ensures |lay'.leaves| == |lay.leaves| + 1 && lay'.leaves[..|lay.leaves|] == lay.leaves
    ensures fresh(lay'.leaves[|lay.leaves|])
  {
    hide Sound, Zeroed, LeavesWeighed, LeafLabelled, Join, Segments, Shape, PrefixClosed, AddPath, AddLeaf, StepPath;
    ghost var calls := Calls(rows);
    var row := rows[i];
    CallsAreStepPaths(rows);
    BuildShape(calls, i);
    ShapeIsClosed(Build(calls, i), calls, i);
    CanonicalIdempotent(row.spanPath, row.spanPath);
    ghost var mid: Layout;
    var parent;
    parent, nodes', mid := EnsurePath(run, nodes, root, CanonicalPath(row.spanPath), lay, Build(calls, i));
    var leaf;
    leaf, lay' := NewLeaf(run, nodes', parent, row, mid, AddPath(Build(calls, i), Home(row), |Home(row)|), rows);
  }

  lemma {:induction false} ShapeIsClosed(kids: Kids, calls: seq<Call>, n: nat)
    requires n <= |calls| && Shape(kids, calls, n)
    ensures PrefixClosed(kids)
  {
  }

  lemma {:induction false} ReadyToRollUp(run: Run, rows: seq<Row>, nodes: map<string, RunNode>, lay: Layout,
                                         root: RunNode)
    requires Between(run, rows, |rows|, nodes, lay, root)
    ensures var calls := Calls(rows);
            && Frame(lay, Build(calls, |rows|), calls) && LeavesTotal(lay, calls)
            && lay.Has(Step([])) && lay.At(Step([])) == root && Untouched(Sums(lay), Step([]))
    ensures lay.StepsLabelled(run) && lay.LeavesLabelled(run, rows)
  {
    hide Shape, StepPath, Layout.LinkedAs, Layout.Separate, Home;
    CallsAreStepPaths(rows);
    BuildShape(Calls(rows), |rows|);
  }

  method RollUpAll(run: Run, rows: seq<Row>, ghost nodes: map<string, RunNode>, ghost lay: Layout, root: RunNode)
    requires Between(run, rows, |rows|, nodes, lay, root)
    modifies lay.steps.Values`totalCost, lay.steps.Values`requestCount
    ensures Assembled(run, rows, lay) && lay.steps[[]] == root
  {
    hide Between, Frame, LeavesTotal, Sums, Untouched, Rolled, Assembled, Layout.StepsLabelled, Layout.LeavesLabelled;
    ghost var calls := Calls(rows);
    ReadyToRollUp(run, rows, nodes, lay, root);
    RollUpRunNode(root, Step([]), lay, Build(calls, |rows|), calls);
    RolledUp(run, rows, lay, old(Sums(lay)));
  }

  lemma {:induction false} RolledUp(run: Run, rows: seq<Row>, lay: Layout, was: map<Path, Totals>)
    requires var calls := Calls(rows);
             && Frame(lay, Build(calls, |rows|), calls) && LeavesTotal(lay, calls) && [] in lay.steps
             && Sums(lay) == Rolled(was, calls, Step([]))
    requires lay.StepsLabelled(run) && lay.LeavesLabelled(run, rows)
    ensures Assembled(run, rows, lay)
  {
    hide Layout.StepsLabelled, Layout.LeavesLabelled, Layout.Linked, Layout.Separate, Shape, Under, Home;
    var calls := Calls(rows);
    forall p | p in lay.steps ensures lay.steps[p].Totals() == Under(calls, |rows|, p) {
      assert Sums(lay)[p] == lay.steps[p].Totals() && Covers(Step([]), p);
    }
  }

  /** `assembleRunTree`. */
  method AssembleRunTree(traceId: string, rows: seq<Row>, truncated: bool, uuid5: string -> SpanId)
    returns (tree: RunTree, ghost lay: Layout)
    requires rows != []
    ensures Waterfall(Run(traceId, RunLabel(rows[0]), uuid5), rows, tree, lay)
    ensures tree.totalCost == CostOf(rows, |rows|) && tree.requestCount == |rows|
    ensures tree.startedAt == rows[0].requestedAt && LatestResponse(rows, |rows|, tree.endedAt)
    ensures tree.truncated == truncated
  {
    hide Between, Layout.LeavesLabelled, LeavesWeighed, Layout.StepsLabelled, Layout.Linked, Layout.Separate, RunLabel;
    var run := Run(traceId, RunLabel(rows[0]), uuid5);
    var root, nodes;
    root, nodes, lay := Start(run, rows);
    var endedAt := rows[0].respondedAt;
    for i := 0 to |rows|
      invariant Between(run, rows, i, nodes, lay, root)
      invariant forall p | p in lay.steps :: fresh(lay.steps[p])
      invariant forall j | 0 <= j < |lay.leaves| :: fresh(lay.leaves[j])
      invariant forall j | 0 <= j < i :: rows[j].respondedAt <= endedAt
      invariant exists j :: 0 <= j < |rows| && j <= i && rows[j].respondedAt == endedAt
    {
      if rows[i].respondedAt > endedAt {
        endedAt := rows[i].respondedAt;
      }
      nodes, lay := AddRow(run, rows, i, nodes, root, lay);
    }
    RollUpAll(run, rows, nodes, lay, root);
    RootIsEverything(Calls(rows), |rows|);
    AllCosts(rows, |rows|);
    tree := RunTree(traceId, root, root.totalCost, root.requestCount, rows[0].requestedAt, endedAt, truncated);
  }

  /** `GetRunTree` after the query: at most the cap of rows, flagged when there are more.
      The stored rows are those of the run, ordered by request time. */
  method GetRunTree(traceId: string, stored: seq<Row>, uuid5: string -> SpanId)
    returns (tree: Option<RunTree>, ghost lay: Layout)
    ensures tree.None? <==> stored == []
    ensures tree.Some? ==>
              var kept := if |stored| > 5000 then stored[..5000] else stored;
              && Waterfall(Run(traceId, RunLabel(stored[0]), uuid5), kept, tree.value, lay)
              && tree.value.totalCost == CostOf(kept, |kept|) && tree.value.requestCount == |kept|
              && (tree.value.truncated <==> |stored| > 5000)
              && tree.value.startedAt == stored[0].requestedAt
              && LatestResponse(kept, |kept|, tree.value.endedAt)
  {
    hide Waterfall, RunLabel, LatestResponse;
    var rows := if |stored| > RUN_TREE_FETCH_CAP + 1 then stored[..RUN_TREE_FETCH_CAP + 1] else stored;
    if |rows| == 0 {
      return None, Layout(map[], []);
    }
    var truncated := false;
    if |rows| > RUN_TREE_FETCH_CAP {
      rows := rows[..RUN_TREE_FETCH_CAP];
      truncated := true;
    }
    assert rows == if |stored| > RUN_TREE_FETCH_CAP then stored[..RUN_TREE_FETCH_CAP] else stored;
    var t;
    t, lay := AssembleRunTree(traceId, rows, truncated, uuid5);
    tree := Some(t);
  }

  // ---- Capture and reading agree ----

  const TRACE_ID_HEADER := "x-majordomo-trace-id"
  const SPAN_PATH_HEADER := "x-majordomo-span-path"
  const SPAN_NAME_HEADER := "x-majordomo-span-name"

  function Header(headers: map<string, string>, key: string): string
  {
    if key in headers then headers[key] else ""
  }

  /** The run-tracing part of a request log. */
  class RequestLog {
    const model: string
    var traceId: Option<string>
    var spanPath: Option<string>
    var spanName: Option<string>
    var spanId: Option<SpanId>
    var parentSpanId: Option<SpanId>

    constructor (model: string)
      ensures this.model == model && traceId == None && spanPath == None && spanName == None
      ensures spanId == None && parentSpanId == None
    {
      this.model, traceId, spanPath, spanName, spanId, parentSpanId := model, None, None, None, None, None;
    }

    /** `applyRunTracing`: a request joins a run exactly when it carries a trace id. */
    method ApplyRunTracing(requestId: SpanId, headers: map<string, string>, uuid5: string -> SpanId)
      modifies this
      ensures Header(headers, TRACE_ID_HEADER) == "" ==> unchanged(this)
      ensures Header(headers, TRACE_ID_HEADER) != "" ==>
                var trace, raw := Header(headers, TRACE_ID_HEADER), Header(headers, SPAN_PATH_HEADER);
                var name := Header(headers, SPAN_NAME_HEADER);
                && traceId == Some(trace) && spanPath == Some(CanonicalPath(raw))
                && spanName == Some(if name == "" then model else name)
                && spanId == Some(requestId)
                && parentSpanId == Some(uuid5(SpanName(trace, CanonicalPath(raw))))
    {
      var trace := Header(headers, TRACE_ID_HEADER);
      if trace == "" {
        return;
      }
      var canonicalPath := CanonicalPath(Header(headers, SPAN_PATH_HEADER));
      var name := Header(headers, SPAN_NAME_HEADER);
      if name == "" {
        name := model;
      }
      traceId, spanPath, spanName := Some(trace), Some(canonicalPath), Some(name);
      spanId, parentSpanId := Some(requestId), Some(uuid5(SpanName(trace, canonicalPath)));
    }
  }

  /** A call hangs under the step its path names, cut to the outermost 64. */
  lemma {:induction false} HomeIsCutPath(row: Row)
    ensures Home(row) <= Segments(row.spanPath)
    ensures |Home(row)| == if |Segments(row.spanPath)| > 64 then 64 else |Segments(row.spanPath)|
  {
  }

  /** The text hashed at capture is the text hashed on reading exactly for paths within the
      depth limit; deeper calls are hung under a shallower step than the one recorded. */
  lemma {:induction false} CaptureMatchesReadIff(traceId: string, raw: string, row: Row)
    requires row.spanPath == CanonicalPath(raw)
    ensures SpanName(traceId, CanonicalPath(raw)) == SpanName(traceId, Join(Home(row)))
            <==> |Segments(raw)| <= 64
  {
    hide Join, Segments;
    CanonicalIdempotent(raw, raw);
    SegmentsWellFormed(raw);
    JoinInjective(Segments(raw), Home(row));
    var left, right := SpanName(traceId, CanonicalPath(raw)), SpanName(traceId, Join(Home(row)));
    if left == right {
      assert CanonicalPath(raw) == left[|traceId| + 1..] == right[|traceId| + 1..] == Join(Home(row));
    }
  }

  /** In a finished waterfall, a call recorded within the depth limit hangs under the step whose
      id is the parent id recorded at capture. */
  lemma {:induction false} CapturedParentIsRealParent(run: Run, rows: seq<Row>, tree: RunTree, lay: Layout, i: nat,
                                                      raw: string)
    requires Waterfall(run, rows, tree, lay) && i < |rows|
    requires rows[i].spanPath == CanonicalPath(raw) && |Segments(raw)| <= MAX_SPAN_DEPTH
    ensures var recorded := run.uuid5(SpanName(run.traceId, CanonicalPath(raw)));
            && lay.leaves[i].parentSpanId == Some(recorded)
            && Segments(raw) in lay.steps && lay.steps[Segments(raw)].spanId == recorded
            && lay.leaves[i] in lay.steps[Segments(raw)].children
  {
    hide Join, Segments, Layout.Separate, LeavesWeighed, Under;
    CanonicalIdempotent(raw, raw);
    SegmentsWellFormed(raw);
    var calls, home := Calls(rows), Segments(raw);
    CallsAreStepPaths(rows);
    assert Home(rows[i]) == home == calls[i].home;
    HomeOfCall(calls, i);
    var refs := Build(calls, |calls|)[home];
    var k :| 0 <= k < |refs| && refs[k] == Leaf(i);
    assert lay.Mirrors(refs, lay.Links()[home]);
  }

  lemma {:induction false} HomeOfCall(calls: seq<Call>, i: nat)
    requires i < |calls| && forall j | 0 <= j < |calls| :: StepPath(calls[j].home)
    ensures calls[i].home in Build(calls, |calls|) && Leaf(i) in Build(calls, |calls|)[calls[i].home]
  {
    hide Build;
    BuildShape(calls, |calls|);
    assert Owns(Build(calls, |calls|), calls, |calls|, calls[i].home, Leaf(i));
  }
}
