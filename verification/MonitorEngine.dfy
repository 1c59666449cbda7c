/** Recording an observation: the change log first, then the baseline, with a crash anywhere between. */
module MonitorEngine {
  import opened Common
  import opened Sorting
  import opened MonitorSnapshot
  import opened MonitorLog

  lemma DiffUnique(was: seq<Evidence>, now: seq<Evidence>, a: seq<Change>, b: seq<Change>)
    requires IsDiff(was, now, a) && IsDiff(was, now, b)
    ensures a == b
  {
    ChangeOrder();
    AscendingUnique(a, b, ChangeLess);
  }

  /** A merge has one result: observing the same data again over the same baseline finds the same changes. */
  lemma MergedUnique(was: Snapshot, current: seq<SourceState>, a: Snapshot, x: seq<seq<Change>>, b: Snapshot,
      y: seq<seq<Change>>)
    requires Merged(was, current, a, x) && Merged(was, current, b, y)
    ensures a == b && x == y
  {
    StateOrder();
    AscendingUnique(a.Sources(), b.Sources(), StateLess);
    assert a.list == b.list;
    forall i | 0 <= i < |x| ensures x[i] == y[i] {
      assert EventsOf(was.Sources(), current[i], x[i]) && EventsOf(was.Sources(), current[i], y[i]);
      if HasSource(was.Sources(), current[i].id) {
        var s :| s in was.Sources() && s.id == current[i].id;
        DiffUnique(s.evidence, current[i].evidence, x[i], y[i]);
      }
    }
  }

  /** The text of one change: of its revision, its source before and after, the change and a timestamp. */
  type Renderer = (u64, SourceState, SourceState, Change, Str) -> Line

  /** The text of every change is one line. */
  ghost predicate OneLine(render: Renderer) {
    forall rev, s, n, c, t {:trigger render(rev, s, n, c, t)} ::
      render(rev, s, n, c, t) != [] && NoNewline(render(rev, s, n, c, t))
  }

  /** `line` is a record, unless it is above the bound on identified texts. */
  predicate Identified(idOf: Identify, line: Line) { |line| <= MAX_BATCH ==> idOf(line).Some? }

  /** Two texts within the bound have one identity. */
  predicate SameId(idOf: Identify, x: Line, y: Line) {
    |x| <= MAX_BATCH && |y| <= MAX_BATCH ==> idOf(x) == idOf(y)
  }

  /** A change's text is a record as long as it is within the bound, with an identity independent of the timestamp. */
  ghost predicate StableIds(idOf: Identify, render: Renderer) {
    && OneLine(render)
    && (forall rev, s, n, c, t :: Identified(idOf, render(rev, s, n, c, t)))
    && forall rev, s, n, c, t, u :: SameId(idOf, render(rev, s, n, c, t), render(rev, s, n, c, u))
  }

  /** `eventID` of an identity function without its size check. */
  function Bounded(idOf: Identify): Identify { (line: Line) => if |line| > MAX_BATCH then None else idOf(line) }

  /** The size check does not stand in the way, however long a rendered change may be. */
  lemma BoundedStable(idOf: Identify, render: Renderer)
    requires OneLine(render)
    requires forall rev, s, n, c, t, u {:trigger render(rev, s, n, c, t), render(rev, s, n, c, u)} ::
               idOf(render(rev, s, n, c, t)).Some? && idOf(render(rev, s, n, c, t)) == idOf(render(rev, s, n, c, u))
    ensures StableIds(Bounded(idOf), render)
  {
  }

  function BaselineOf(sources: seq<SourceState>, now: SourceState): SourceState {
    if sources == [] then now
    else if sources[|sources| - 1].id == now.id then sources[|sources| - 1]
    else BaselineOf(sources[..|sources| - 1], now)
  }

  function PartLines(render: Renderer, rev: u64, s: SourceState, n: SourceState, part: seq<Change>,
      stamp: Str): (lines: seq<Line>)
    ensures |lines| == |part| && forall i | 0 <= i < |part| :: lines[i] == render(rev, s, n, part[i], stamp)
  {
    seq(|part|, i requires 0 <= i < |part| => render(rev, s, n, part[i], stamp))
  }

  /** The batch of change records of one observation. */
  function Batch(render: Renderer, was: Snapshot, current: seq<SourceState>, parts: seq<seq<Change>>,
      stamp: Str): seq<Line>
    requires |parts| == |current|
  {
    if parts == [] then []
    else
      var n := |parts| - 1;
      Batch(render, was, current[..n], parts[..n], stamp) +
      PartLines(render, was.revision, BaselineOf(was.Sources(), current[n]), current[n], parts[n], stamp)
  }

  /** Two attempts at one observation log the same identities; no record is longer than at the longest timestamp. */
  ghost predicate Stamped(render: Renderer, stamp: Str, longest: Str) {
    forall rev, s, n, c {:trigger render(rev, s, n, c, stamp)} ::
        |render(rev, s, n, c, stamp)| <= |render(rev, s, n, c, longest)|
  }

  /** What two timestamps make of one change: the first is no longer, and within the bound they agree. */
  predicate Agreeing(idOf: Identify, x: Line, y: Line) {
    && |x| <= |y| && x != [] && NoNewline(x)
    && (|y| <= MAX_BATCH ==> IsRecord(idOf, x) && idOf(x) == idOf(y))
  }

  lemma LineAgrees(idOf: Identify, render: Renderer, rev: u64, s: SourceState, n: SourceState, c: Change, stamp: Str,
      longest: Str)
    requires StableIds(idOf, render) && Stamped(render, stamp, longest)
    ensures Agreeing(idOf, render(rev, s, n, c, stamp), render(rev, s, n, c, longest))
  {
    assert Identified(idOf, render(rev, s, n, c, stamp));
    assert SameId(idOf, render(rev, s, n, c, stamp), render(rev, s, n, c, longest));
  }

  lemma {:induction false} BatchAgrees(
    idOf: Identify, render: Renderer, was: Snapshot, current: seq<SourceState>, parts: seq<seq<Change>>, stamp: Str,
    longest: Str, x: seq<Line>, y: seq<Line>)
    requires StableIds(idOf, render) && Stamped(render, stamp, longest) && |parts| == |current|
    requires x == Batch(render, was, current, parts, stamp) && y == Batch(render, was, current, parts, longest)
    ensures |x| == |y| && forall i | 0 <= i < |x| :: Agreeing(idOf, x[i], y[i])
    decreases |parts|
  {
    if parts != [] {
      var n := |parts| - 1;
      var s := BaselineOf(was.Sources(), current[n]);
      var a, b := Batch(render, was, current[..n], parts[..n], stamp),
          Batch(render, was, current[..n], parts[..n], longest);
      BatchAgrees(idOf, render, was, current[..n], parts[..n], stamp, longest, a, b);
      var c, d := PartLines(render, was.revision, s, current[n], parts[n], stamp),
          PartLines(render, was.revision, s, current[n], parts[n], longest);
      forall i | 0 <= i < |c| ensures Agreeing(idOf, c[i], d[i]) {
        LineAgrees(idOf, render, was.revision, s, current[n], parts[n][i], stamp, longest);
      }
      assert x == a + c && y == b + d;
    }
  }

  lemma {:induction false} LineWithin(lines: seq<Line>, i: nat)
    requires i < |lines|
    ensures |lines[i]| < Total(lines)
    decreases |lines|
  {
    if i < |lines| - 1 { LineWithin(lines[..|lines| - 1], i); }
  }

  /** A batch that fits with the longest timestamp consists of records, with the same identities. */
  lemma BatchFits(
    idOf: Identify, render: Renderer, was: Snapshot, current: seq<SourceState>, parts: seq<seq<Change>>, stamp: Str,
    longest: Str)
    requires StableIds(idOf, render) && Stamped(render, stamp, longest) && |parts| == |current|
    requires Total(Batch(render, was, current, parts, longest)) <= MAX_BATCH
    ensures var x, y := Batch(render, was, current, parts, stamp), Batch(render, was, current, parts, longest);
            |x| == |y| && AllRecords(idOf, x) &&
            forall i | 0 <= i < |x| :: idOf(x[i]) == idOf(y[i]) && |x[i]| <= |y[i]|
  {
    var x, y := Batch(render, was, current, parts, stamp), Batch(render, was, current, parts, longest);
    BatchAgrees(idOf, render, was, current, parts, stamp, longest, x, y);
    forall i | 0 <= i < |x| ensures IsRecord(idOf, x[i]) && idOf(x[i]) == idOf(y[i]) && |x[i]| <= |y[i]| {
      assert Agreeing(idOf, x[i], y[i]);
      LineWithin(y, i);
    }
  }

  lemma {:induction false} BatchEmpty(render: Renderer, was: Snapshot, current: seq<SourceState>,
      parts: seq<seq<Change>>, stamp: Str)
    requires |parts| == |current| && forall i | 0 <= i < |parts| :: parts[i] == []
    ensures Batch(render, was, current, parts, stamp) == []
    decreases |parts|
  {
    if parts != [] { BatchEmpty(render, was, current[..|parts| - 1], parts[..|parts| - 1], stamp); }
  }

  // ----- one call of record, dead or alive

  datatype Moment = Moment(baseline: Snapshot, log: Generations)

  /** Where a call ended: before its baseline was saved, or after. */
  datatype End = Cut | Saved

  /** What is saved: without a good source nothing, whatever the merged snapshot's revision says. */
  function Stored(was: Snapshot, current: seq<SourceState>, next: Snapshot): Snapshot {
    if current == [] then was else next
  }

  /**
   One call of `record` for an observation with the good sources `current`.  The batch is appended first;
   only after a complete append can the baseline, replaced in one step, become the merged one.
   */
  ghost predicate Recorded(idOf: Identify, render: Renderer, current: seq<SourceState>, stamp: Str,
                           m: Moment, parts: seq<seq<Change>>, next: Snapshot, end: End, m': Moment, wrote: seq<Line>)
  {
    && Merged(m.baseline, current, next, parts)
    && var batch := Batch(render, m.baseline, current, parts, stamp);
    && Total(batch) <= MAX_BATCH
    && Attempt(idOf, m.log, batch, m'.log, wrote)
    && (end.Cut? ==> m'.baseline == m.baseline)
    && (end.Saved? ==>
        m'.baseline == Stored(m.baseline, current, next) && m'.log == Appended(idOf, m.log, batch, |batch|))
  }

  lemma BatchNext(render: Renderer, was: Snapshot, current: seq<SourceState>, parts: seq<seq<Change>>, stamp: Str,
      i: nat)
    requires |parts| == |current| && i < |parts|
    ensures Batch(render, was, current[..i + 1], parts[..i + 1], stamp) ==
            Batch(render, was, current[..i], parts[..i], stamp) +
            PartLines(render, was.revision, BaselineOf(was.Sources(), current[i]), current[i], parts[i], stamp)
  {
    assert current[..i + 1][..i] == current[..i] && parts[..i + 1][..i] == parts[..i];
  }

  /** The loop that gives every change its identity and its timestamp. */
  method MakeBatch(render: Renderer, was: Snapshot, current: seq<SourceState>, parts: seq<seq<Change>>, stamp: Str)
    returns (batch: seq<Line>)
    requires |parts| == |current|
    ensures batch == Batch(render, was, current, parts, stamp)
  {
    batch := [];
    var i := 0;
    while i < |parts|
      invariant 0 <= i <= |parts| && batch == Batch(render, was, current[..i], parts[..i], stamp)
    {
      BatchNext(render, was, current, parts, stamp, i);
      batch := batch + PartLines(render, was.revision, BaselineOf(was.Sources(), current[i]), current[i], parts[i],
          stamp);
      i := i + 1;
    }
    assert current[..|parts|] == current && parts[..|parts|] == parts;
  }

  /** A complete or a cut append as the attempt that `Recorded` speaks of. */
  lemma AppendAttempt(idOf: Identify, g: Generations, batch: seq<Line>, g': Generations, done: bool)
    returns (wrote: seq<Line>)
    requires if done then g' == Appended(idOf, g, batch, |batch|) else Reached(idOf, g, batch, g')
    ensures Attempt(idOf, g, batch, g', wrote)
  {
    assert done ==> Reached(idOf, g, batch, g');
    wrote := ReachedAttempt(idOf, g, batch, g');
  }

  /** The part of a store that one target's `record` uses: the change log and the target's baseline. */
  class Store {
    const log: Log
    const render: Renderer
    const clean: Cleaner
    const vets: Vetting
    var baseline: Snapshot

    constructor (log: Log, render: Renderer, clean: Cleaner, vets: Vetting, baseline: Snapshot)
      ensures this.log == log && this.render == render && this.clean == clean && this.vets == vets
      ensures this.baseline == baseline
    {
      this.log, this.render, this.clean, this.vets, this.baseline := log, render, clean, vets, baseline;
    }

    ghost function Now(): Moment
      reads this, log
    {
      Moment(baseline, log.g)
    }

    /**
     `record` after the projection.  The process dies after `budget` effects of the append, or, unless it
     `survives`, between the append and the baseline.  A merged snapshot that could not be read back and a batch
     above half a generation are refused whole.
     */
    method Record(current: seq<SourceState>, stamp: Str, budget: nat, survives: bool, ghost torn: seq<byte>)
      returns (end: Option<End>, ghost parts: seq<seq<Change>>, ghost next: Snapshot, ghost wrote: seq<Line>,
          ghost left: seq<byte>)
      requires log.OnDisk(torn) && StableIds(log.idOf, render)
      requires SourcesOk(baseline.Sources()) && SourcesOk(current) && baseline.revision < TWO_64 - 1
      modifies this, log
      ensures log.OnDisk(left) && SourcesOk(baseline.Sources()) && Merged(old(baseline), current, next, parts)
      ensures end == None <==>
                !StateParses(clean, vets, next) ||
                    Total(Batch(render, old(baseline), current, parts, stamp)) > MAX_BATCH
      ensures end == None ==> Now() == old(Now())
      ensures end.Some? ==> Recorded(log.idOf, render, current, stamp, old(Now()), parts, next, end.value, Now(), wrote)
      ensures current == [] ==> Now() == old(Now())
      ensures old(baseline).list.Some? ==> baseline.list.Some?
    {
      var ok := log.Load(torn);
      var merged, events, created, found := Merge(baseline, current);
      parts, next, wrote, left := found, merged, [], [];
      var readable := ParseState(clean, vets, merged);
      if !readable {
        return None, parts, next, wrote, left;
      }
      hide Merged, StateParses, StableIds;
      var done;
      done, wrote, left := Log(current, found, stamp, budget);
      if done == None {
        return None, parts, next, wrote, left;
      }
      GuardKeeps(baseline, current, merged, found);
      end := Some(Cut);
      if done == Some(true) && survives {
        if current != [] && merged != baseline { baseline := merged; }
        end := Some(Saved);
      }
    }

    /** The batch is made and appended: refused, or cut somewhere, or complete. */
    method Log(current: seq<SourceState>, parts: seq<seq<Change>>, stamp: Str, budget: nat)
      returns (done: Option<bool>, ghost wrote: seq<Line>, ghost left: seq<byte>)
      requires log.Valid() && StableIds(log.idOf, render) && |parts| == |current|
      modifies log
      ensures log.OnDisk(left)
      ensures done == None <==> Total(Batch(render, baseline, current, parts, stamp)) > MAX_BATCH
      ensures done == None ==> log.g == old(log.g)
      ensures done.Some? ==> Logged(log.idOf, old(log.g), Batch(render, baseline, current, parts, stamp), log.g, wrote,
                                    done.value)
      ensures current == [] ==> log.g == old(log.g)
    {
      var batch := MakeBatch(render, baseline, current, parts, stamp);
      BatchAppendable(log.idOf, render, baseline, current, parts, stamp);
      ghost var before := log.g;
      wrote := [];
      var outcome;
      outcome, left := log.Append(batch, budget);
      if outcome.Refused? {
        return None, wrote, [];
      }
      done := Some(outcome.Done?);
      wrote := AppendAttempt(log.idOf, before, batch, log.g, outcome.Done?);
      if current == [] { EmptyAttempt(log.idOf, before, log.g, wrote); }
      if outcome.Done? { left := []; }
    }
  }

  ghost predicate Logged(idOf: Identify, g: Generations, batch: seq<Line>, g': Generations, wrote: seq<Line>,
      done: bool)
  {
    Attempt(idOf, g, batch, g', wrote) && (done ==> g' == Appended(idOf, g, batch, |batch|))
  }

  /** What the guard before the save lets through. */
  lemma GuardKeeps(was: Snapshot, current: seq<SourceState>, next: Snapshot, parts: seq<seq<Change>>)
    requires Merged(was, current, next, parts)
    ensures SourcesOk(was.Sources()) && SourcesOk(next.Sources())
    ensures current != [] ==> next.list.Some?
  {
    if current != [] { SomeMerged(was.Sources(), current, next.Sources()); }
  }

  lemma SomeMerged(was: seq<SourceState>, current: seq<SourceState>, next: seq<SourceState>)
    requires Overrides(was, current, next) && current != []
    ensures next != []
  {
    assert current[0] in next;
  }

  lemma LinesAppendable(idOf: Identify, x: seq<Line>)
    requires forall i | 0 <= i < |x| :: Agreeing(idOf, x[i], x[i])
    ensures forall i | 0 <= i < |x| :: x[i] != [] && NoNewline(x[i])
    ensures Acceptable(idOf, x) <==> Total(x) <= MAX_BATCH
  {
    forall i | 0 <= i < |x| ensures Total(x) <= MAX_BATCH ==> idOf(x[i]).Some? {
      assert Agreeing(idOf, x[i], x[i]);
      LineWithin(x, i);
    }
  }

  /** Every batch can be handed to the log, which refuses exactly the ones that are too large. */
  lemma BatchAppendable(idOf: Identify, render: Renderer, was: Snapshot, current: seq<SourceState>,
      parts: seq<seq<Change>>, stamp: Str)
    requires StableIds(idOf, render) && |parts| == |current|
    ensures var batch := Batch(render, was, current, parts, stamp);
            && (forall i | 0 <= i < |batch| :: batch[i] != [] && NoNewline(batch[i]))
            && (Acceptable(idOf, batch) <==> Total(batch) <= MAX_BATCH)
  {
    var batch := Batch(render, was, current, parts, stamp);
    BatchAgrees(idOf, render, was, current, parts, stamp, stamp, batch, batch);
    LinesAppendable(idOf, batch);
  }

  /** Calls for one observation, repeated however often: each starts from what the one before left. */
  datatype Run = Run(moments: seq<Moment>, stamps: seq<Str>, parts: seq<seq<seq<Change>>>, next: seq<Snapshot>,
                     ends: seq<End>, writes: seq<seq<Line>>)

  /** `Recorded` for call `i` of a run, which leads from moment `i` to moment `j`. */
  ghost predicate Step(idOf: Identify, render: Renderer, current: seq<SourceState>, longest: Str, r: Run, i: nat,
      j: nat)
    requires i < |r.stamps| == |r.parts| == |r.next| == |r.ends| == |r.writes| && i < j < |r.moments|
  {
    && Stamped(render, r.stamps[i], longest)
    && Recorded(idOf, render, current, r.stamps[i], r.moments[i], r.parts[i], r.next[i], r.ends[i], r.moments[j],
                r.writes[i])
  }

  ghost predicate IsRun(idOf: Identify, render: Renderer, current: seq<SourceState>, longest: Str, r: Run) {
    var n := |r.stamps|;
    && |r.moments| == n + 1 && |r.parts| == |r.next| == |r.ends| == |r.writes| == n
    && LogOk(idOf, r.moments[0].log)
    && forall i, j | 0 <= i < n && j == i + 1 :: Step(idOf, render, current, longest, r, i, j)
  }

  /** Call `i` of a run leads from moment `i` to moment `j`. */
  lemma Call(idOf: Identify, render: Renderer, current: seq<SourceState>, longest: Str, r: Run, i: nat, j: nat)
    requires IsRun(idOf, render, current, longest, r) && i < |r.stamps| && j == i + 1
    ensures Stamped(render, r.stamps[i], longest)
    ensures Recorded(idOf, render, current, r.stamps[i], r.moments[i], r.parts[i], r.next[i], r.ends[i], r.moments[j],
              r.writes[i])
  {
    assert Step(idOf, render, current, longest, r, i, j);
  }

  lemma CallCut(idOf: Identify, render: Renderer, current: seq<SourceState>, longest: Str, r: Run, i: nat, j: nat)
    requires IsRun(idOf, render, current, longest, r) && i < |r.stamps| && j == i + 1 && r.ends[i] == Cut
    ensures r.moments[j].baseline == r.moments[i].baseline
  {
    Call(idOf, render, current, longest, r, i, j);
  }

  lemma MergedAt(idOf: Identify, render: Renderer, current: seq<SourceState>, longest: Str, r: Run, i: nat)
    requires IsRun(idOf, render, current, longest, r) && i < |r.stamps|
    ensures Merged(r.moments[i].baseline, current, r.next[i], r.parts[i])
  {
    var j := i + 1;
    Call(idOf, render, current, longest, r, i, j);
  }

  lemma {:induction false} BeforeSave(idOf: Identify, render: Renderer, current: seq<SourceState>, longest: Str,
      r: Run, i: nat)
    requires IsRun(idOf, render, current, longest, r) && i < |r.stamps|
    requires forall j | 0 <= j < i :: r.ends[j] == Cut
    ensures r.moments[i].baseline == r.moments[0].baseline
    ensures r.parts[i] == r.parts[0] && r.next[i] == r.next[0]
    decreases i
  {
    hide Merged, Step;
    if i > 0 {
      BeforeSave(idOf, render, current, longest, r, i - 1);
      CallCut(idOf, render, current, longest, r, i - 1, i);
    }
    MergedAt(idOf, render, current, longest, r, 0);
    MergedAt(idOf, render, current, longest, r, i);
    MergedUnique(r.moments[0].baseline, current, r.next[0], r.parts[0], r.next[i], r.parts[i]);
  }

  /** The batch of the run's first call, at the longest timestamp. */
  function Longest(render: Renderer, current: seq<SourceState>, longest: Str, r: Run): seq<Line>
    requires |r.moments| > 0 && |r.parts| > 0 && |r.parts[0]| == |current|
  {
    Batch(render, r.moments[0].baseline, current, r.parts[0], longest)
  }

  lemma EmptyAttempt(idOf: Identify, g: Generations, g': Generations, wrote: seq<Line>)
    requires LogOk(idOf, g) && Attempt(idOf, g, [], g', wrote)
    ensures g' == g && wrote == []
  {
    assert Rotated(g, 0) == g;
    assert wrote == (g.newer + wrote)[|g.newer|..];
  }

  /** A call over the merged baseline finds nothing to log and nothing to save. */
  lemma Quiet(idOf: Identify, render: Renderer, current: seq<SourceState>, stamp: Str, was: Snapshot,
      old_: seq<seq<Change>>, m: Moment, parts: seq<seq<Change>>, next: Snapshot, end: End, m': Moment,
      wrote: seq<Line>)
    requires SourcesOk(current) && Merged(was, current, m.baseline, old_) && LogOk(idOf, m.log)
    requires Recorded(idOf, render, current, stamp, m, parts, next, end, m', wrote)
    ensures m' == m && wrote == []
  {
    MergeQuiescent(was, current, m.baseline, old_, next, parts);
    BatchEmpty(render, m.baseline, current, parts, stamp);
    EmptyAttempt(idOf, m.log, m'.log, wrote);
  }

  /** A call without a good source writes nothing, although the merged revision may be a new one. */
  lemma NothingGood(idOf: Identify, render: Renderer, stamp: Str, m: Moment, parts: seq<seq<Change>>, next: Snapshot,
      end: End, m': Moment, wrote: seq<Line>)
    requires LogOk(idOf, m.log) && Recorded(idOf, render, [], stamp, m, parts, next, end, m', wrote)
    ensures m' == m && wrote == []
  {
    EmptyAttempt(idOf, m.log, m'.log, wrote);
  }

  /** From moment `after`, where the first saved call ended, nothing changes any more. */
  lemma {:induction false} AfterSave(
    idOf: Identify, render: Renderer, current: seq<SourceState>, longest: Str, r: Run, after: nat, i: nat,
    was: Snapshot, saved: seq<seq<Change>>)
    requires IsRun(idOf, render, current, longest, r) && SourcesOk(current)
    requires after <= i <= |r.stamps| && LogOk(idOf, r.moments[after].log)
    requires Merged(was, current, r.moments[after].baseline, saved)
    ensures r.moments[i] == r.moments[after] && Flat(r.writes[..i]) == Flat(r.writes[..after])
    decreases i
  {
    if i > after {
      var j := i - 1;
      AfterSave(idOf, render, current, longest, r, after, j, was, saved);
      Call(idOf, render, current, longest, r, j, i);
      Quiet(idOf, render, current, r.stamps[j], was, saved, r.moments[j], r.parts[j], r.next[j], r.ends[j],
          r.moments[i], r.writes[j]);
      FlatNothing(r.writes, j, i);
    }
  }

  lemma FlatNothing(writes: seq<seq<Line>>, j: nat, i: nat)
    requires i == j + 1 <= |writes| && writes[j] == []
    ensures Flat(writes[..i]) == Flat(writes[..j])
  {
    assert writes[..i][..j] == writes[..j];
    assert Flat(writes[..j]) + [] == Flat(writes[..j]);
  }

  /** Call `i` of a run none of whose calls before it was saved, as an attempt at the run's batch. */
  lemma ReplayAt(idOf: Identify, render: Renderer, current: seq<SourceState>, longest: Str, r: Run, i: nat, j: nat)
    requires StableIds(idOf, render) && IsRun(idOf, render, current, longest, r) && i < |r.stamps| && j == i + 1
    requires |r.parts[0]| == |current| && Total(Longest(render, current, longest, r)) <= MAX_BATCH
    requires forall k | 0 <= k < i :: r.ends[k] == Cut
    ensures var batch := Batch(render, r.moments[0].baseline, current, r.parts[0], r.stamps[i]);
            && Attempt(idOf, r.moments[i].log, batch, r.moments[j].log, r.writes[i])
            && AllRecords(idOf, batch) && Total(batch) <= MAX_BATCH
            && AllFit(idOf, Longest(render, current, longest, r), batch)
  {
    BeforeSave(idOf, render, current, longest, r, i);
    Call(idOf, render, current, longest, r, i, j);
    hide Merged, Step, StableIds, Stamped, Attempt;
    var batch := Batch(render, r.moments[0].baseline, current, r.parts[0], r.stamps[i]);
    BatchFits(idOf, render, r.moments[0].baseline, current, r.parts[0], r.stamps[i], longest);
    FitsPointwise(idOf, batch, Longest(render, current, longest, r));
  }

  lemma RunSizes(idOf: Identify, render: Renderer, current: seq<SourceState>, longest: Str, r: Run)
    requires IsRun(idOf, render, current, longest, r)
    ensures |r.moments| == |r.stamps| + 1 && |r.parts| == |r.next| == |r.ends| == |r.writes| == |r.stamps|
    ensures LogOk(idOf, r.moments[0].log)
  {
  }

  /** The first `n` calls, all but perhaps the last cut short, as attempts at one batch. */
  lemma RunReplays(idOf: Identify, render: Renderer, current: seq<SourceState>, longest: Str, r: Run, n: nat)
    returns (logs: seq<Generations>, batches: seq<seq<Line>>)
    requires StableIds(idOf, render) && IsRun(idOf, render, current, longest, r) && 0 < n <= |r.stamps|
    requires |r.parts[0]| == |current| && Total(Longest(render, current, longest, r)) <= MAX_BATCH
    requires forall j | 0 <= j < n - 1 :: r.ends[j] == Cut
    ensures |batches| == n && |logs| == n + 1 && forall i | 0 <= i <= n :: logs[i] == r.moments[i].log
    ensures forall i | 0 <= i < n ::
              batches[i] == Batch(render, r.moments[0].baseline, current, r.parts[0], r.stamps[i])
    ensures Replays(idOf, logs, batches, r.writes[..n], Longest(render, current, longest, r))
  {
    RunSizes(idOf, render, current, longest, r);
    hide IsRun, StableIds, Step, Attempt, AllRecords, AllFit, Batch, Total;
    var long := Longest(render, current, longest, r);
    logs := seq(n + 1, i requires 0 <= i < n + 1 => r.moments[i].log);
    batches := seq(n, i requires 0 <= i < n => Batch(render, r.moments[0].baseline, current, r.parts[0], r.stamps[i]));
    forall i | 0 <= i < n
      ensures Attempt(idOf, logs[i], batches[i], logs[i + 1], r.writes[..n][i])
      ensures AllRecords(idOf, batches[i]) && Total(batches[i]) <= MAX_BATCH && AllFit(idOf, long, batches[i])
    {
      var j := i + 1;
      ReplayAt(idOf, render, current, longest, r, i, j);
      assert logs[i] == r.moments[i].log && logs[j] == r.moments[j].log;
    }
  }

  lemma FitsPointwise(idOf: Identify, x: seq<Line>, y: seq<Line>)
    requires |x| == |y| && forall i | 0 <= i < |x| :: idOf(x[i]) == idOf(y[i]) && |x[i]| <= |y[i]|
    ensures AllFit(idOf, y, x)
  {
    forall i | 0 <= i < |x| ensures Fits(idOf, y, x[i]) {
      assert idOf(y[i]) == idOf(x[i]);
    }
  }

  lemma LoggedOnce(idOf: Identify, logs: seq<Generations>, batches: seq<seq<Line>>, writes: seq<seq<Line>>,
      long: seq<Line>, k: nat, after: nat, e: Line)
    requires Replays(idOf, logs, batches, writes, long) && after == k + 1 == |batches|
    requires logs[after] == Appended(idOf, logs[k], batches[k], |batches[k]|) && e in batches[k] && idOf(e).Some?
    ensures LogOk(idOf, logs[after]) && Has(idOf, Kept(logs[after]), IdAt(idOf, e)) && Distinct(idOf, Flat(writes))
    ensures !Has(idOf, Kept(logs[0]), IdAt(idOf, e)) ==> Has(idOf, Flat(writes), IdAt(idOf, e))
  {
    CutKeeps(idOf, logs, batches, writes, long, after);
    ReplayedOnce(idOf, logs, batches, writes, long, e);
  }

  /** The log and the writes when the first saved call `k` has ended. */
  lemma SavedLog(idOf: Identify, render: Renderer, current: seq<SourceState>, longest: Str, r: Run, k: nat, after: nat,
      e: Line)
    requires StableIds(idOf, render) && IsRun(idOf, render, current, longest, r) && k < |r.stamps| && after == k + 1
    requires r.ends[k] == Saved && forall j | 0 <= j < k :: r.ends[j] == Cut
    requires |r.parts[0]| == |current| && Total(Longest(render, current, longest, r)) <= MAX_BATCH
    requires e in Batch(render, r.moments[0].baseline, current, r.parts[0], r.stamps[k]) && idOf(e).Some?
    ensures LogOk(idOf, r.moments[after].log)
    ensures Has(idOf, Kept(r.moments[after].log), IdAt(idOf, e)) && Distinct(idOf, Flat(r.writes[..after]))
    ensures !Has(idOf, Kept(r.moments[0].log), IdAt(idOf, e)) ==> Has(idOf, Flat(r.writes[..after]), IdAt(idOf, e))
  {
    var logs, batches := RunReplays(idOf, render, current, longest, r, after);
    BeforeSave(idOf, render, current, longest, r, k);
    Call(idOf, render, current, longest, r, k, after);
    LoggedOnce(idOf, logs, batches, r.writes[..after], Longest(render, current, longest, r), k, after, e);
  }

  lemma SavedBaseline(idOf: Identify, render: Renderer, current: seq<SourceState>, longest: Str, r: Run, k: nat,
      after: nat)
    requires IsRun(idOf, render, current, longest, r) && k < |r.stamps| && after == k + 1
    requires r.ends[k] == Saved && forall j | 0 <= j < k :: r.ends[j] == Cut
    ensures r.moments[after].baseline == Stored(r.moments[0].baseline, current, r.next[0])
    ensures Merged(r.moments[0].baseline, current, r.next[0], r.parts[0])
  {
    BeforeSave(idOf, render, current, longest, r, k);
    Call(idOf, render, current, longest, r, 0, 1);
    Call(idOf, render, current, longest, r, k, after);
  }

  /**
   Exactly once.  Let the same observation be recorded by any number of calls, each of them cut anywhere or
   completed, and let call `k` be the first to save its baseline.  Then at the end the baseline is the merged
   one, every change between the two baselines is in the retained log exactly once, no identity was ever
   written twice, and each that the log did not hold before was written.
   */
  lemma ExactlyOnce(idOf: Identify, render: Renderer, current: seq<SourceState>, longest: Str, r: Run, k: nat, n: nat,
      e: Line)
    requires StableIds(idOf, render) && IsRun(idOf, render, current, longest, r) && SourcesOk(current)
    requires k < n == |r.stamps| && r.ends[k] == Saved && forall j | 0 <= j < k :: r.ends[j] == Cut
    requires |r.parts[0]| == |current| && Total(Longest(render, current, longest, r)) <= MAX_BATCH
    requires e in Batch(render, r.moments[0].baseline, current, r.parts[0], r.stamps[k]) && idOf(e).Some?
    ensures r.moments[n].baseline == r.next[0]
    ensures Has(idOf, Kept(r.moments[n].log), IdAt(idOf, e)) && Distinct(idOf, Kept(r.moments[n].log))
    ensures Distinct(idOf, Flat(r.writes))
    ensures !Has(idOf, Kept(r.moments[0].log), IdAt(idOf, e)) ==> Has(idOf, Flat(r.writes), IdAt(idOf, e))
  {
    var after := k + 1;
    SavedLog(idOf, render, current, longest, r, k, after, e);
    assert current != [] by { assert Batch(render, r.moments[0].baseline, [], [], r.stamps[k]) == []; }
    Settled(idOf, render, current, longest, r, k, after, n);
  }

  lemma Settled(idOf: Identify, render: Renderer, current: seq<SourceState>, longest: Str, r: Run, k: nat, after: nat,
      n: nat)
    requires IsRun(idOf, render, current, longest, r) && SourcesOk(current) && k < n == |r.stamps| && after == k + 1
    requires current != []
    requires r.ends[k] == Saved && forall j | 0 <= j < k :: r.ends[j] == Cut
    requires LogOk(idOf, r.moments[after].log)
    ensures r.moments[n] == r.moments[after] && r.moments[n].baseline == r.next[0] &&
              Flat(r.writes) == Flat(r.writes[..after])
  {
    SavedBaseline(idOf, render, current, longest, r, k, after);
    AfterSave(idOf, render, current, longest, r, after, n, r.moments[0].baseline, r.parts[0]);
    assert r.writes[..n] == r.writes;
  }

  /** While every call is cut before its save, the baseline is untouched and no change has been written twice. */
  lemma AtMostOnce(idOf: Identify, render: Renderer, current: seq<SourceState>, longest: Str, r: Run, n: nat)
    requires StableIds(idOf, render) && IsRun(idOf, render, current, longest, r) && 0 < n == |r.stamps|
    requires |r.parts[0]| == |current| && Total(Longest(render, current, longest, r)) <= MAX_BATCH
    requires forall j | 0 <= j < n :: r.ends[j] == Cut
    ensures r.moments[n].baseline == r.moments[0].baseline
    ensures Distinct(idOf, Flat(r.writes)) && Distinct(idOf, Kept(r.moments[n].log))
  {
    CutLog(idOf, render, current, longest, r, n);
    CutBaseline(idOf, render, current, longest, r, n);
  }

  lemma CutLog(idOf: Identify, render: Renderer, current: seq<SourceState>, longest: Str, r: Run, n: nat)
    requires StableIds(idOf, render) && IsRun(idOf, render, current, longest, r) && 0 < n == |r.stamps|
    requires |r.parts[0]| == |current| && Total(Longest(render, current, longest, r)) <= MAX_BATCH
    requires forall j | 0 <= j < n :: r.ends[j] == Cut
    ensures Distinct(idOf, Flat(r.writes)) && LogOk(idOf, r.moments[n].log)
  {
    var logs, batches := RunReplays(idOf, render, current, longest, r, n);
    assert r.writes[..n] == r.writes;
    CutKeeps(idOf, logs, batches, r.writes, Longest(render, current, longest, r), n);
  }

  lemma CutBaseline(idOf: Identify, render: Renderer, current: seq<SourceState>, longest: Str, r: Run, n: nat)
    requires IsRun(idOf, render, current, longest, r) && 0 < n == |r.stamps| &&
              forall j | 0 <= j < n :: r.ends[j] == Cut
    ensures r.moments[n].baseline == r.moments[0].baseline
  {
    var last := n - 1;
    assert r.ends[last] == Cut;
    BeforeSave(idOf, render, current, longest, r, last);
    CallCut(idOf, render, current, longest, r, last, n);
  }

  lemma CutKeeps(idOf: Identify, logs: seq<Generations>, batches: seq<seq<Line>>, writes: seq<seq<Line>>,
      long: seq<Line>, n: nat)
    requires Replays(idOf, logs, batches, writes, long) && n == |batches|
    ensures Distinct(idOf, Flat(writes)) && LogOk(idOf, logs[n])
  {
    var k := ReplayKept(idOf, logs, batches, writes, long, n);
    assert writes[..n] == writes;
    ReplayingKeeps(idOf, logs[0], logs[n], Flat(writes), k);
  }

  // ----- the calls themselves make such runs

  lemma {:induction false} TotalPointwise(x: seq<Line>, y: seq<Line>)
    requires |x| == |y| && forall i | 0 <= i < |x| :: |x[i]| <= |y[i]|
    ensures Total(x) <= Total(y)
    decreases |x|
  {
    if x != [] {
      var n := |x| - 1;
      TotalPointwise(x[..n], y[..n]);
      assert x == x[..n] + [x[n]] && y == y[..n] + [y[n]];
      TextWith(x[..n], x[n]);
      TextWith(y[..n], y[n]);
    }
  }

  /** A batch that fits with the longest timestamp fits with every other. */
  lemma Fitting(idOf: Identify, render: Renderer, was: Snapshot, current: seq<SourceState>, parts: seq<seq<Change>>,
                stamp: Str, longest: Str)
    requires StableIds(idOf, render) && Stamped(render, stamp, longest) && |parts| == |current|
    ensures Total(Batch(render, was, current, parts, stamp)) <= Total(Batch(render, was, current, parts, longest))
  {
    var x, y := Batch(render, was, current, parts, stamp), Batch(render, was, current, parts, longest);
    BatchAgrees(idOf, render, was, current, parts, stamp, longest, x, y);
    TotalPointwise(x, y);
  }

  /** One call: its timestamp, after how many effects of the append it dies, and whether it reaches the baseline. */
  datatype Try = Try(stamp: Str, budget: nat, survives: bool)

  function Longer(r: Run, stamp: Str, parts: seq<seq<Change>>, next: Snapshot, end: End, m: Moment,
      wrote: seq<Line>): Run {
    Run(r.moments + [m], r.stamps + [stamp], r.parts + [parts], r.next + [next], r.ends + [end], r.writes + [wrote])
  }

  lemma LongerStep(idOf: Identify, render: Renderer, current: seq<SourceState>, longest: Str, r: Run, t: Run, i: nat,
      j: nat)
    requires IsRun(idOf, render, current, longest, r) && i < |r.stamps| && j == i + 1
    requires |t.stamps| == |t.parts| == |t.next| == |t.ends| == |t.writes| == |r.stamps| + 1
    requires |t.moments| == |r.moments| + 1
    requires r.stamps <= t.stamps && r.moments <= t.moments && r.parts <= t.parts && r.next <= t.next
    requires r.ends <= t.ends && r.writes <= t.writes
    ensures Step(idOf, render, current, longest, t, i, j)
  {
    hide Recorded, Stamped;
    Call(idOf, render, current, longest, r, i, j);
  }

  lemma LongerRun(idOf: Identify, render: Renderer, current: seq<SourceState>, longest: Str, r: Run, n: nat,
                  stamp: Str, parts: seq<seq<Change>>, next: Snapshot, end: End, m: Moment, wrote: seq<Line>)
    requires IsRun(idOf, render, current, longest, r) && n == |r.stamps| && Stamped(render, stamp, longest)
    requires Recorded(idOf, render, current, stamp, r.moments[n], parts, next, end, m, wrote)
    ensures IsRun(idOf, render, current, longest, Longer(r, stamp, parts, next, end, m, wrote))
  {
    hide Recorded, Stamped;
    var t := Longer(r, stamp, parts, next, end, m, wrote);
    forall i, j | 0 <= i < |t.stamps| && j == i + 1 ensures Step(idOf, render, current, longest, t, i, j) {
      if i < n { LongerStep(idOf, render, current, longest, r, t, i, j); }
    }
  }

  /** Where a run stands: the baseline untouched, or the merged one. */
  ghost predicate Standing(was: Snapshot, current: seq<SourceState>, now: Snapshot) {
    && SourcesOk(now.Sources()) && now.revision <= was.revision + 1
    && (now == was || exists parts :: Merged(was, current, now, parts))
  }

  /** Whatever the observation makes of the baseline can be read back, and its batch fits with the longest timestamp. */
  ghost predicate Fitted(s: Store, was: Snapshot, current: seq<SourceState>, longest: Str) {
    forall p, n | Merged(was, current, n, p) ::
      StateParses(s.clean, s.vets, n) && Total(Batch(s.render, was, current, p, longest)) <= MAX_BATCH
  }

  /** A call of a run is never refused and leaves the run standing. */
  lemma Stands(s: Store, was: Snapshot, current: seq<SourceState>, stamp: Str, longest: Str, now: Snapshot,
               parts: seq<seq<Change>>, next: Snapshot)
    requires StableIds(s.log.idOf, s.render) && Stamped(s.render, stamp, longest) && SourcesOk(current)
    requires Standing(was, current, now) && Merged(now, current, next, parts) && Fitted(s, was, current, longest)
    ensures Total(Batch(s.render, now, current, parts, stamp)) <= MAX_BATCH && StateParses(s.clean, s.vets, next)
    ensures Standing(was, current, next)
  {
    hide StateParses;
    if now == was {
      Fitting(s.log.idOf, s.render, was, current, parts, stamp, longest);
    } else {
      var first :| Merged(was, current, now, first);
      MergeQuiescent(was, current, now, first, next, parts);
      BatchEmpty(s.render, now, current, parts, stamp);
    }
  }

  /** What one call more makes of a run. */
  lemma OneMore(s: Store, was: Snapshot, current: seq<SourceState>, stamp: Str, longest: Str, r: Run, n: nat,
                parts: seq<seq<Change>>, next: Snapshot, end: Option<End>, m: Moment, wrote: seq<Line>)
    requires StableIds(s.log.idOf, s.render) && Stamped(s.render, stamp, longest) && SourcesOk(current)
    requires Fitted(s, was, current, longest)
    requires IsRun(s.log.idOf, s.render, current, longest, r) && n == |r.stamps|
    requires var now := r.moments[n].baseline;
             && Standing(was, current, now) && Merged(now, current, next, parts)
             && (end == None <==> !StateParses(s.clean, s.vets, next) ||
                                  Total(Batch(s.render, now, current, parts, stamp)) > MAX_BATCH)
    requires end.Some? ==>
              Recorded(s.log.idOf, s.render, current, stamp, r.moments[n], parts, next, end.value, m, wrote)
    ensures end.Some? && Standing(was, current, m.baseline)
    ensures var t := Longer(r, stamp, parts, next, end.value, m, wrote);
            && IsRun(s.log.idOf, s.render, current, longest, t)
            && |t.stamps| == n + 1 && t.moments[n + 1] == m && t.moments[0] == r.moments[0]
  {
    RunSizes(s.log.idOf, s.render, current, longest, r);
    hide StateParses, Merged, StableIds, Fitted, Standing, IsRun, Batch, Total, Stamped;
    Stands(s, was, current, stamp, longest, r.moments[n].baseline, parts, next);
    assert m.baseline == r.moments[n].baseline || m.baseline == next;
    LongerRun(s.log.idOf, s.render, current, longest, r, n, stamp, parts, next, end.value, m, wrote);
  }

  /** One call more. */
  method Again(s: Store, current: seq<SourceState>, longest: Str, call: Try, ghost was: Snapshot, ghost r: Run,
               ghost n: nat, ghost torn: seq<byte>)
    returns (ghost longer: Run, ghost left: seq<byte>)
    requires s.log.OnDisk(torn) && StableIds(s.log.idOf, s.render) && Stamped(s.render, call.stamp, longest)
    requires SourcesOk(current) && was.revision < TWO_64 - 2 && Fitted(s, was, current, longest)
    requires Standing(was, current, s.baseline)
    requires IsRun(s.log.idOf, s.render, current, longest, r) && n == |r.stamps| && r.moments[n] == s.Now()
    modifies s, s.log
    ensures s.log.OnDisk(left) && Standing(was, current, s.baseline)
    ensures IsRun(s.log.idOf, s.render, current, longest, longer) && |longer.stamps| == n + 1
    ensures longer.moments[n + 1] == s.Now() && longer.moments[0] == r.moments[0]
  {
    var end;
    ghost var parts, next, wrote;
    end, parts, next, wrote, left := s.Record(current, call.stamp, call.budget, call.survives, torn);
    hide StateParses, Merged, StableIds, Fitted, Standing, Recorded, Stamped, Batch, Total, IsRun, Longer;
    OneMore(s, was, current, call.stamp, longest, r, n, parts, next, end, s.Now(), wrote);
    longer := Longer(r, call.stamp, parts, next, end.value, s.Now(), wrote);
  }

  /**
   Any calls for one observation, each cut wherever it may be and each started on what the one before left on
   disk, make a run; what was proved of runs holds of the store.
   */
  method Repeat(s: Store, current: seq<SourceState>, longest: Str, calls: seq<Try>, ghost torn: seq<byte>)
    returns (ghost r: Run, ghost left: seq<byte>)
    requires s.log.OnDisk(torn) && StableIds(s.log.idOf, s.render)
    requires SourcesOk(s.baseline.Sources()) && SourcesOk(current) && s.baseline.revision < TWO_64 - 2
    requires forall i | 0 <= i < |calls| :: Stamped(s.render, calls[i].stamp, longest)
    requires Fitted(s, s.baseline, current, longest)
    modifies s, s.log
    ensures IsRun(s.log.idOf, s.render, current, longest, r) && |r.stamps| == |calls|
    ensures r.moments[0] == old(s.Now()) && r.moments[|calls|] == s.Now() && s.log.OnDisk(left)
  {
    ghost var was := s.baseline;
    r, left := Run([s.Now()], [], [], [], [], []), torn;
    assert Standing(was, current, was);
    hide Fitted, Standing, StableIds, Stamped, Step;
    var i := 0;
    while i < |calls|
      invariant 0 <= i <= |calls| && |r.stamps| == i
      invariant IsRun(s.log.idOf, s.render, current, longest, r)
      invariant r.moments[0] == old(s.Now()) && r.moments[i] == s.Now()
      invariant s.log.OnDisk(left) && Standing(was, current, s.baseline)
    {
      r, left := Again(s, current, longest, calls[i], was, r, i, left);
      i := i + 1;
    }
  }
}
