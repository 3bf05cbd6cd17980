/** Request counters per metadata key: values added in memory, flushed to the table in steps that
    interleave with further adds. The sketch is taken as the set of inserted values. */
module HllCounter {
  import opened Common
  import MetadataIndex

  type Pair = MetadataIndex.Pair

  /** In-memory state of one key. */
  datatype Entry = Entry(values: set<string>, dirty: bool, count: nat)

  /** A registered key's row: persisted sketch and request count. */
  datatype Stored = Stored(sketch: set<string>, requestCount: nat)

  type Entries = map<Pair, Entry>
  type Counts = map<Pair, nat>

  function Count(counts: Counts, k: Pair): nat
  {
    if k in counts then counts[k] else 0
  }

  function EntryOf(hlls: Entries, k: Pair): Entry
  {
    if k in hlls then hlls[k] else Entry({}, false, 0)
  }

  function Added(hlls: Entries, k: Pair, value: string): Entries
  {
    hlls[k := Entry(EntryOf(hlls, k).values + {value}, true, EntryOf(hlls, k).count + 1)]
  }

  /** What a flush takes along: the counts of the dirty entries. */
  function DirtyCounts(hlls: Entries): Counts
  {
    map k | k in hlls && hlls[k].dirty :: hlls[k].count
  }

  function Cleared(hlls: Entries): Entries
  {
    map k | k in hlls :: if hlls[k].dirty then Entry(hlls[k].values, false, 0) else hlls[k]
  }

  // ---- The machine ----

  /** How one key's update went: a row was updated, no row matched, or marshalling or the query failed. */
  datatype Outcome = Hit | NoRow | Failed

  /** live: entries in memory; flight: counts taken by the running flush and not yet written;
      table: registered keys. added and dropped only keep the books. */
  datatype State = State(live: Entries, flight: Counts, table: map<Pair, Stored>, added: Counts, dropped: Counts)

  datatype Step = Add(k: Pair, value: string) | Register(k: Pair) | TakeSnapshot | Update(k: Pair, outcome: Outcome)

  predicate Enabled(s: State, step: Step)
  {
    match step
    case Add(_, _) => true
    case Register(_) => true
    case TakeSnapshot => s.flight == map[]  // one flush at a time
    case Update(k, outcome) => k in s.flight && (outcome.Hit? ==> k in s.table) && (outcome.NoRow? ==> k !in s.table)
  }

  function Apply(s: State, step: Step): State
    requires Enabled(s, step)
  {
    match step
    case Add(k, value) => s.(live := Added(s.live, k, value), added := s.added[k := Count(s.added, k) + 1])
    case Register(k) => if k in s.table then s else s.(table := s.table[k := Stored({}, 0)])
    case TakeSnapshot => s.(live := Cleared(s.live), flight := DirtyCounts(s.live))
    case Update(k, outcome) =>
      if outcome.Hit? then
        // the flushed sketch is the live one, shared, so it may hold later values as well
        s.(flight := s.flight - {k},
           table := s.table[k := Stored(EntryOf(s.live, k).values, s.table[k].requestCount + s.flight[k])])
      else
        s.(flight := s.flight - {k}, dropped := s.dropped[k := Count(s.dropped, k) + s.flight[k]])
  }

  ghost predicate Leads(s: State, steps: seq<Step>, t: State)
    decreases |steps|
  {
    if steps == [] then t == s
    else Enabled(s, steps[0]) && Leads(Apply(s, steps[0]), steps[1..], t)
  }

  function Persisted(s: State, k: Pair): nat
  {
    if k in s.table then s.table[k].requestCount else 0
  }

  /** Everything ever counted for a key, wherever it is now. */
  function Accounted(s: State, k: Pair): nat
  {
    Persisted(s, k) + EntryOf(s.live, k).count + Count(s.flight, k) + Count(s.dropped, k)
  }

  /** Dirty means pending counts, and a flush carries only real counts. */
  ghost predicate Counted(s: State)
  {
    && (forall k | k in s.live :: s.live[k].dirty <==> s.live[k].count > 0)
    && (forall k | k in s.flight :: s.flight[k] > 0)
  }

  function Sketch(s: State, k: Pair): set<string>
  {
    if k in s.table then s.table[k].sketch else {}
  }

  /** The key's persisted sketch holds nothing the live one lacks. */
  predicate SketchLags(s: State, k: Pair)
  {
    k in s.table ==> s.table[k].sketch <= EntryOf(s.live, k).values
  }

  // ---- Starting up ----

  /** `LoadFromDB`: rows with a persisted sketch that could be read become clean entries. A failed
      or broken-off load is only logged, so any set of rows may be the readable one. */
  function Loaded(table: map<Pair, Stored>, readable: set<Pair>): State
  {
    State(map k | k in table && k in readable && table[k].sketch != {} :: Entry(table[k].sketch, false, 0),
          map[], table, map[], map[])
  }

  /** Every start keeps the counts in order; a key's persisted sketch is covered exactly when there
      is none or its row was read. */
  lemma {:induction false} LoadedStart(table: map<Pair, Stored>, readable: set<Pair>, k: Pair)
    ensures Counted(Loaded(table, readable))
    ensures SketchLags(Loaded(table, readable), k) <==> (k in table && table[k].sketch != {} ==> k in readable)
  {
  }

  lemma {:induction false} SketchesGrow(s: State, step: Step, k: Pair)
    requires Enabled(s, step)
    ensures EntryOf(s.live, k).values <= EntryOf(Apply(s, step).live, k).values
  {
  }

  lemma {:induction false} StepKeepsCounted(s: State, step: Step)
    requires Enabled(s, step) && Counted(s)
    ensures Counted(Apply(s, step))
  {
    var t := Apply(s, step);
    assert forall k | k in t.live :: t.live[k].dirty <==> t.live[k].count > 0;
  }

  lemma {:induction false} StepKeepsLag(s: State, step: Step, k: Pair)
    requires Enabled(s, step) && SketchLags(s, k)
    ensures SketchLags(Apply(s, step), k) && Sketch(s, k) <= Sketch(Apply(s, step), k)
  {
    SketchesGrow(s, step, k);
  }

  /** Once a key's persisted sketch is covered by the live one it stays so, and no persisted value
      is ever lost again. */
  lemma {:induction false} SketchStaysCovered(s: State, steps: seq<Step>, t: State, k: Pair)
    requires SketchLags(s, k) && Leads(s, steps, t)
    ensures SketchLags(t, k) && Sketch(s, k) <= Sketch(t, k)
    decreases |steps|
  {
    hide SketchLags, Sketch, Enabled, Apply;
    if steps != [] {
      StepKeepsLag(s, steps[0], k);
      SketchStaysCovered(Apply(s, steps[0]), steps[1..], t, k);
    }
  }

  /** A row update keeps every persisted value exactly when the live sketch covers them; without
      that, as after a failed load, it overwrites the larger sketch with the smaller one. */
  lemma {:induction false} HitKeepsSketchIff(s: State, k: Pair)
    requires Enabled(s, Update(k, Hit))
    ensures s.table[k].sketch <= Apply(s, Update(k, Hit)).table[k].sketch <==> SketchLags(s, k)
    ensures SketchLags(Apply(s, Update(k, Hit)), k)
  {
  }

  /** After a load that missed a row, the first value counted for its key and flushed leaves a
      persisted sketch of that value alone; the request count still goes up by one. */
  lemma {:induction false} FailedLoadShrinksSketch(table: map<Pair, Stored>, readable: set<Pair>, k: Pair,
                                                   value: string)
    requires k in table && k !in readable
    ensures exists t ::
              && Leads(Loaded(table, readable), [Add(k, value), TakeSnapshot, Update(k, Hit)], t)
              && k in t.table && t.table[k] == Stored({value}, table[k].requestCount + 1)
  {
    var s := Loaded(table, readable);
    var s1 := Apply(s, Add(k, value));
    var s2 := Apply(s1, TakeSnapshot);
    assert s2.flight[k] == 1 && EntryOf(s2.live, k).values == {value};
    var t := Apply(s2, Update(k, Hit));
    var steps := [Add(k, value), TakeSnapshot, Update(k, Hit)];
    hide Enabled, Apply, Loaded;
    assert steps[1..][1..] == [Update(k, Hit)];
    assert Leads(t, [], t);
    assert Leads(s2, [Update(k, Hit)], t);
    assert Leads(s1, steps[1..], t);
  }

  /** From a start on, no run ever loses a value persisted for a key exactly when the key's row was
      read, or held no sketch. */
  lemma {:induction false} PersistedSketchSafeIff(table: map<Pair, Stored>, readable: set<Pair>, k: Pair)
    ensures (forall steps, t | Leads(Loaded(table, readable), steps, t) ::
               Sketch(Loaded(table, readable), k) <= Sketch(t, k))
            <==> (k in table && table[k].sketch != {} ==> k in readable)
  {
    LoadedStart(table, readable, k);
    var s := Loaded(table, readable);
    if k in table && table[k].sketch != {} && k !in readable {
      var value := NewString(table[k].sketch);
      hide Leads, Loaded;
      FailedLoadShrinksSketch(table, readable, k, value);
    } else {
      hide Leads, Sketch, SketchLags, Loaded;
      forall steps, t | Leads(s, steps, t) ensures Sketch(s, k) <= Sketch(t, k) {
        SketchStaysCovered(s, steps, t, k);
      }
    }
  }

  /** The values that the adds of a run bring for a key. */
  ghost function ValuesAdded(steps: seq<Step>, k: Pair): set<string>
  {
    if steps == [] then {}
    else (if steps[0].Add? && steps[0].k == k then {steps[0].value} else {}) + ValuesAdded(steps[1..], k)
  }

  /** In every run a key's live sketch gains exactly the values added for it. */
  lemma {:induction false} LiveSketchIsWhatWasAdded(s: State, steps: seq<Step>, t: State, k: Pair)
    requires Leads(s, steps, t)
    ensures EntryOf(t.live, k).values == EntryOf(s.live, k).values + ValuesAdded(steps, k)
    decreases |steps|
  {
    if steps != [] {
      StepAddsValue(s, steps[0], k);
      hide EntryOf, Enabled, Apply;
      LiveSketchIsWhatWasAdded(Apply(s, steps[0]), steps[1..], t, k);
    }
  }

  lemma {:induction false} StepAddsValue(s: State, step: Step, k: Pair)
    requires Enabled(s, step)
    ensures EntryOf(Apply(s, step).live, k).values
         == EntryOf(s.live, k).values + if step.Add? && step.k == k then {step.value} else {}
  {
  }

  /** A flush takes every pending count along and leaves none; each update then puts the key's count and
      whole live sketch into its row and changes no other row. */
  lemma {:induction false} FlushTakesAll(s: State, k: Pair, j: Pair)
    requires Counted(s)
    ensures Enabled(s, TakeSnapshot) ==>
              var t := Apply(s, TakeSnapshot);
              Count(t.flight, k) == EntryOf(s.live, k).count && EntryOf(t.live, k).count == 0
    ensures Enabled(s, Update(k, Hit)) ==>
              var t := Apply(s, Update(k, Hit));
              && Sketch(t, k) == EntryOf(s.live, k).values && Persisted(t, k) == Persisted(s, k) + Count(s.flight, k)
              && (j != k ==> Sketch(t, j) == Sketch(s, j) && Persisted(t, j) == Persisted(s, j))
  {
  }

  // ---- Counting ----

  lemma {:induction false} StepConserves(s: State, step: Step, k: Pair)
    requires Enabled(s, step) && Counted(s)
    ensures Accounted(Apply(s, step), k) - Count(Apply(s, step).added, k) == Accounted(s, k) - Count(s.added, k)
  {
    var t := Apply(s, step);
    match step {
      case Add(_, _) =>
      case Register(_) =>
      case TakeSnapshot =>
        assert Count(t.flight, k) + EntryOf(t.live, k).count == EntryOf(s.live, k).count;
      case Update(j, _) =>
        assert j != k ==> Count(t.flight, k) == Count(s.flight, k);
    }
  }

  /** Under every interleaving, for each key: persisted, pending, in-flight and dropped counts grow
      together by exactly the number of adds, and dirty holds exactly when something is pending. */
  lemma {:induction false} CountsAreConserved(s: State, steps: seq<Step>, t: State, k: Pair)
    requires Counted(s) && Leads(s, steps, t)
    ensures Counted(t)
    ensures Accounted(t, k) - Count(t.added, k) == Accounted(s, k) - Count(s.added, k)
    decreases |steps|
  {
    hide Counted, Accounted, Enabled, Apply;
    if steps != [] {
      StepKeepsCounted(s, steps[0]);
      StepConserves(s, steps[0], k);
      CountsAreConserved(Apply(s, steps[0]), steps[1..], t, k);
    }
  }

  predicate Misses(step: Step)
  {
    step.Update? && !step.outcome.Hit?
  }

  predicate MissesKey(step: Step, k: Pair)
  {
    Misses(step) && step.k == k
  }

  lemma {:induction false} StepDropsIff(s: State, step: Step, k: Pair)
    requires Enabled(s, step) && Counted(s)
    ensures Count(s.dropped, k) <= Count(Apply(s, step).dropped, k)
    ensures Count(s.dropped, k) < Count(Apply(s, step).dropped, k) <==> MissesKey(step, k)
  {
  }

  /** A key's counts are dropped in a run exactly when some update of it misses: every update that
      fails or finds no row loses requests, and nothing else does. */
  lemma {:induction false} DroppedIffMissed(s: State, steps: seq<Step>, t: State, k: Pair)
    requires Counted(s) && Leads(s, steps, t)
    ensures Count(s.dropped, k) <= Count(t.dropped, k)
    ensures Count(s.dropped, k) < Count(t.dropped, k) <==> exists i :: 0 <= i < |steps| && MissesKey(steps[i], k)
    decreases |steps|
  {
    hide Counted, Enabled, Apply, MissesKey;
    if steps != [] {
      StepKeepsCounted(s, steps[0]);
      StepDropsIff(s, steps[0], k);
      DroppedIffMissed(Apply(s, steps[0]), steps[1..], t, k);
      assert (exists i :: 0 <= i < |steps| && MissesKey(steps[i], k))
          <==> MissesKey(steps[0], k) || exists i :: 0 <= i < |steps[1..]| && MissesKey(steps[1..][i], k) by {
        if i :| 0 <= i < |steps[1..]| && MissesKey(steps[1..][i], k) { assert MissesKey(steps[i + 1], k); }
        if i :| 0 < i < |steps| && MissesKey(steps[i], k) { assert MissesKey(steps[1..][i - 1], k); }
      }
    }
  }

  /** The writer counts a value before it registers the key: a flush in between loses the first
      requests of a new key for good. */
  lemma {:induction false} CountBeforeRegistrationIsLost(k: Pair, value: string)
    ensures exists t ::
              && Leads(State(map[], map[], map[], map[], map[]),
                       [Add(k, value), TakeSnapshot, Update(k, NoRow), Register(k)], t)
              && Count(t.added, k) == 1 && Persisted(t, k) == 0 && Count(t.dropped, k) == 1
              && EntryOf(t.live, k).count == 0 && t.flight == map[]
  {
    var s := State(map[], map[], map[], map[], map[]);
    var s1 := Apply(s, Add(k, value));
    var s2 := Apply(s1, TakeSnapshot);
    assert s2.flight == map[k := 1];
    var s3 := Apply(s2, Update(k, NoRow));
    var t := Apply(s3, Register(k));
    var steps := [Add(k, value), TakeSnapshot, Update(k, NoRow), Register(k)];
    assert steps[1..][1..] == [Update(k, NoRow), Register(k)];
    assert steps[1..][1..][1..] == [Register(k)];
    assert Leads(t, [], t);
    assert Leads(s3, [Register(k)], t);
    assert Leads(s2, steps[1..][1..], t);
    assert Leads(s1, steps[1..], t);
  }

  // ---- The objects ----

  class KeyTable {
    var rows: map<Pair, Stored>

    constructor ()
      ensures rows == map[]
    {
      rows := map[];
    }
  }

  class HLLManager {
    var hlls: Entries

    constructor ()
      ensures hlls == map[]
    {
      hlls := map[];
    }

    /** `AddValue`. */
    method AddValue(k: Pair, value: string)
      modifies this
      ensures hlls == Added(old(hlls), k, value)
      ensures EntryOf(hlls, k).values == EntryOf(old(hlls), k).values + {value}
      ensures EntryOf(hlls, k).count == EntryOf(old(hlls), k).count + 1 && hlls[k].dirty
    {
      if k !in hlls {
        hlls := hlls[k := Entry({}, true, 0)];
      }
      var entry := hlls[k];
      hlls := hlls[k := Entry(entry.values + {value}, true, entry.count + 1)];
    }

    /** The locked part of `Flush`, over entries in any order. */
    method TakeDirty() returns (toFlush: Counts)
      modifies this
      ensures toFlush == DirtyCounts(old(hlls)) && hlls == Cleared(old(hlls))
    {
      toFlush := map[];
      ghost var was := hlls;
      var rest := hlls.Keys;
      while rest != {}
        invariant rest <= was.Keys && hlls.Keys == was.Keys
        invariant forall k | k in was :: hlls[k] == if k in rest then was[k] else Cleared(was)[k]
        invariant toFlush == map k | k in DirtyCounts(was) && k !in rest :: was[k].count
        decreases rest
      {
        var k :| k in rest;
        rest := rest - {k};
        if hlls[k].dirty {
          toFlush := toFlush[k := hlls[k].count];
          hlls := hlls[k := hlls[k].(dirty := false, count := 0)];
        }
      }
    }

    /** `Flush` without interleaved adds: every dirty key's count reaches its row, unless the
        update fails or there is no row, and those counts are gone. */
    method Flush(table: KeyTable, fails: Pair -> bool)
      modifies this, table
      ensures hlls == Cleared(old(hlls))
      ensures table.rows.Keys == old(table.rows).Keys
      ensures forall k | k in table.rows ::
                table.rows[k] == if k in DirtyCounts(old(hlls)) && !fails(k)
                                 then Stored(old(hlls)[k].values, old(table.rows)[k].requestCount + old(hlls)[k].count)
                                 else old(table.rows)[k]
    {
      var toFlush := TakeDirty();
      ghost var was := old(table.rows);
      var rest := toFlush.Keys;
      while rest != {}
        invariant rest <= toFlush.Keys && hlls == Cleared(old(hlls)) && table.rows.Keys == was.Keys
        invariant forall k | k in was ::
                    table.rows[k] == if k in toFlush && k !in rest && !fails(k)
                                     then Stored(old(hlls)[k].values, was[k].requestCount + toFlush[k])
                                     else was[k]
        decreases rest
      {
        var k :| k in rest;
        rest := rest - {k};
        if fails(k) { continue; }
        if k in table.rows {
          table.rows := table.rows[k := Stored(hlls[k].values, table.rows[k].requestCount + toFlush[k])];
        }
      }
    }
  }
}
