/**
 `Manager.Search`: the sequential path, the parallel path as a state machine over batches, and
 the refinement between them.
 */
module SourceSearch {
  import opened Common
  import opened SourceBatch

  const MAX_PARALLEL_SOURCES: nat := 2

  datatype SearchResult =
    | ConsumerFailed(error: Error)
    | JoinedErrors(failures: seq<Error>)
    | Unsupported
    | PanicOut

  /** What a search shows its caller: the rows handed over, the last one possibly refused, and the return. */
  datatype Report = Report(accepted: seq<Row>, refused: Option<Row>, result: SearchResult)

  // ----- the simple form: one source after the other

  datatype Feeding = Feeding(accepted: seq<Row>, verdict: Verdict, refused: Option<Row>)

  /** A source's rows handed to the consumer one by one until one is not accepted. */
  function Feed(consumer: Consumer, accepted: seq<Row>, rows: seq<Row>): Feeding
    decreases |rows|
  {
    if rows == [] then Feeding(accepted, Accept, None)
    else
      var verdict := consumer(accepted + [rows[0]]);
      if verdict.Accept? then Feed(consumer, accepted + [rows[0]], rows[1..])
      else Feeding(accepted, verdict, Some(rows[0]))
  }

  /**
   `searchSequential` from the source `srcs[0]` on, when the context is never cancelled.  `panics` is whether a source
   that may panic when it is stopped does so after its row was refused.
   */
  function SequentialFrom(consumer: Consumer, panics: bool, srcs: seq<Source>, accepted: seq<Row>,
                          failures: seq<Error>, supported: bool): Report
    decreases |srcs|
  {
    if srcs == [] then
      Report(accepted, None, if supported then JoinedErrors(failures) else Unsupported)
    else if !srcs[0].supported then SequentialFrom(consumer, panics, srcs[1..], accepted, failures, supported)
    else
      var fed := Feed(consumer, accepted, srcs[0].rows);
      match fed.verdict
      case Reject(e) =>
        Report(fed.accepted, fed.refused, if panics && srcs[0].panicsWhenStopped then PanicOut else ConsumerFailed(e))
      case Blow => Report(fed.accepted, fed.refused, PanicOut)
      case Accept =>
        match srcs[0].end
        case Panics => Report(fed.accepted, None, PanicOut)
        case Returns(f) => SequentialFrom(consumer, panics, srcs[1..], fed.accepted, WithFailure(failures, f), true)
  }

  /** The sequential search when no stopped source panics. */
  function Sequential(consumer: Consumer, snapshot: seq<Source>): Report {
    SequentialFrom(consumer, false, snapshot, [], [], false)
  }

  /** A source that panics after it was stopped changes nothing but how the search ends. */
  lemma {:induction false} PanicInstead(
    consumer: Consumer, srcs: seq<Source>, accepted: seq<Row>, failures: seq<Error>, supported: bool)
    ensures var r, t := SequentialFrom(consumer, false, srcs, accepted, failures, supported),
                        SequentialFrom(consumer, true, srcs, accepted, failures, supported);
            t == r || (r.result.ConsumerFailed? && t == r.(result := PanicOut) && SomeCanPanic(srcs))
    decreases |srcs|
  {
    if srcs != [] {
      var fed := Feed(consumer, accepted, srcs[0].rows);
      if !srcs[0].supported {
        PanicInstead(consumer, srcs[1..], accepted, failures, supported);
      } else if fed.verdict.Accept? && srcs[0].end.Returns? {
        PanicInstead(consumer, srcs[1..], fed.accepted, WithFailure(failures, srcs[0].end.failure), true);
      }
      if SomeCanPanic(srcs[1..]) {
        var j :| 0 <= j < |srcs[1..]| && (srcs[1..][j].end.Panics? || srcs[1..][j].panicsWhenStopped);
        assert srcs[j + 1] == srcs[1..][j];
      }
    }
  }

  /**
   The sequential search when only the first `live` checks of the context pass; there is one before every source
   and one at the end.  A context that ends before source `live` ends the search there, after what the sources
   before it showed, and its error is joined last; a snapshot without a supported source says so first.
   */
  function SequentialUntil(consumer: Consumer, panics: bool, snapshot: seq<Source>, live: nat): Report {
    if live > |snapshot| then SequentialFrom(consumer, panics, snapshot, [], [], false)
    else
      var r := SequentialFrom(consumer, panics, snapshot[..live], [], [], false);
      match r.result
      case JoinedErrors(failures) => r.(result := JoinedErrors(failures + [ContextDone]))
      case Unsupported => if live < |snapshot| then r.(result := JoinedErrors([ContextDone])) else r
      case _ => r
  }

  /** `searchSequential` as the loop it is: providers in order, each emitting through `invoke`. */
  method SearchSequential(consumer: Consumer, panics: bool, snapshot: seq<Source>, live: nat)
    returns (report: Report)
    ensures report == SequentialUntil(consumer, panics, snapshot, live)
  {
    var accepted, failures, supported := [], [], false;
    ghost var seen := if live > |snapshot| then snapshot else snapshot[..live];
    var i := 0;
    while i < |snapshot|
      invariant 0 <= i <= |seen|
      invariant SequentialFrom(consumer, panics, seen[i..], accepted, failures, supported) ==
                SequentialFrom(consumer, panics, seen, [], [], false)
      invariant !supported ==> failures == []
    {
      if i >= live {
        assert seen[i..] == [] && [] + [ContextDone] == [ContextDone];
        return Report(accepted, None, JoinedErrors(failures + [ContextDone]));
      }
      var s := snapshot[i];
      assert seen[i..][0] == s && seen[i..][1..] == seen[i + 1..];
      if s.supported {
        supported := true;
        ghost var before := accepted;
        var k := 0;
        while k < |s.rows|
          invariant 0 <= k <= |s.rows|
          invariant Feed(consumer, accepted, s.rows[k..]) == Feed(consumer, before, s.rows)
        {
          assert s.rows[k..][1..] == s.rows[k + 1..];
          match consumer(accepted + [s.rows[k]]) {
            case Accept => accepted := accepted + [s.rows[k]];
            case Reject(e) =>
              var result := if panics && s.panicsWhenStopped then PanicOut else ConsumerFailed(e);
              return Report(accepted, Some(s.rows[k]), result);
            case Blow => return Report(accepted, Some(s.rows[k]), PanicOut);
          }
          k := k + 1;
        }
        match s.end {
          case Panics => return Report(accepted, None, PanicOut);
          case Returns(f) => failures := WithFailure(failures, f);
        }
      }
      i := i + 1;
    }
    assert seen[i..] == [];
    if supported && i >= live {
      failures := failures + [ContextDone];
    }
    report := Report(accepted, None, if supported then JoinedErrors(failures) else Unsupported);
  }

  function Select(snapshot: seq<Source>): seq<Source> {
    if snapshot == [] then []
    else (if snapshot[0].supported then [snapshot[0]] else []) + Select(snapshot[1..])
  }

  // ----- the parallel form: batches of at most two sources

  datatype Search =
    | Between(first: nat, parent: bool, accepted: seq<Row>, failures: seq<Error>)
    | Running(first: nat, base: seq<Row>, failures: seq<Error>, batch: State)
    | Over(parent: bool, report: Report)

  datatype Move = CancelParent | Launch | Inner(e: Event) | Collect

  function Min(a: nat, b: nat): nat { if a <= b then a else b }

  function BatchAt(selected: seq<Source>, first: nat): seq<Source>
    requires first <= |selected|
  {
    selected[first..Min(first + MAX_PARALLEL_SOURCES, |selected|)]
  }

  function ConfigAt(selected: seq<Source>, consumer: Consumer, first: nat, base: seq<Row>): Config
    requires first <= |selected|
  {
    ConfigFor(BatchAt(selected, first), consumer, base)
  }

  predicate CanMove(selected: seq<Source>, consumer: Consumer, x: Search, m: Move) {
    match x
    case Between(_, parent, _, _) => m.Launch? || (m.CancelParent? && !parent)
    case Running(first, base, _, s) =>
      first < |selected| &&
      ((m.Inner? && Enabled(ConfigAt(selected, consumer, first, base), s, m.e)) || (m.Collect? && s.main.Returned?))
    case Over(_, _) => false
  }

  /** `searchParallel` after one call of `searchBatch`. */
  function Settled(first: nat, failures: seq<Error>, s: State): Search
    requires s.main.Returned?
  {
    match s.main.result
    case Panicked => Over(s.parentCancelled, Report(s.accepted, s.refused, PanicOut))
    case Done(found, Some(e)) => Over(s.parentCancelled, Report(s.accepted, s.refused, ConsumerFailed(e)))
    case Done(found, None) =>
      Between(first + MAX_PARALLEL_SOURCES, s.parentCancelled, s.accepted, failures + found)
  }

  function Next(selected: seq<Source>, consumer: Consumer, x: Search, m: Move): Search
    requires CanMove(selected, consumer, x, m)
  {
    match x
    case Between(first, parent, accepted, failures) =>
      if m.CancelParent? then Between(first, true, accepted, failures)
      else if first < |selected| && !parent then
        Running(first, accepted, failures, Init(ConfigAt(selected, consumer, first, accepted), parent))
      else
        Over(parent, Report(accepted, None, JoinedErrors(if parent then failures + [ContextDone] else failures)))
    case Running(first, base, failures, s) =>
      if m.Inner? then x.(batch := Apply(ConfigAt(selected, consumer, first, base), s, m.e))
      else Settled(first, failures, s)
  }

  // ----- what every run keeps

  predicate AllSupported(srcs: seq<Source>) { forall j | 0 <= j < |srcs| :: srcs[j].supported }

  function HandedOver(r: Report): seq<Row> {
    match r.refused
    case None => r.accepted
    case Some(row) => r.accepted + [row]
  }

  /** The first `n` sources ran to their ends and everything they emitted was accepted. */
  ghost predicate Caught(selected: seq<Source>, n: nat, accepted: seq<Row>, failures: seq<Error>)
    requires n <= |selected|
  {
    && accepted == Concat(selected[..n])
    && failures == ScriptFailures(selected[..n])
    && AllReturn(selected[..n])
  }

  ghost predicate CanPanic(selected: seq<Source>, consumer: Consumer, r: Report) {
    || SomeCanPanic(selected)
    || consumer(HandedOver(r)) == Blow
  }

  ghost predicate SearchInv(selected: seq<Source>, consumer: Consumer, x: Search) {
    match x
    case Between(first, parent, accepted, failures) =>
      && accepted <= Concat(selected)
      && AllAccepted(consumer, [], accepted)
      && (!parent ==> Caught(selected, Min(first, |selected|), accepted, failures))
    case Running(first, base, failures, s) =>
      && first < |selected|
      && AllAccepted(consumer, [], base)
      && Caught(selected, first, base, failures)
      && Inv(ConfigAt(selected, consumer, first, base), s)
    case Over(parent, r) =>
      && HandedOver(r) <= Concat(selected)
      && AllAccepted(consumer, [], r.accepted)
      && (r.result.PanicOut? ==> CanPanic(selected, consumer, r))
      && (!parent && !r.result.PanicOut? ==> r == SequentialFrom(consumer, false, selected, [], [], true))
      && (r.result.ConsumerFailed? ==> r.refused.Some? && consumer(HandedOver(r)) == Reject(r.result.error))
  }

  // ----- the sequential search read off the stream of all rows

  lemma {:induction false} ConcatPrefix(srcs: seq<Source>, j: nat)
    requires j <= |srcs|
    ensures Concat(srcs[..j]) <= Concat(srcs)
    decreases |srcs|
  {
    if j == |srcs| {
      assert srcs[..j] == srcs;
    } else {
      ConcatPrefix(srcs[..|srcs| - 1], j);
      assert srcs[..|srcs| - 1][..j] == srcs[..j];
    }
  }

  lemma {:induction false} FeedUntil(consumer: Consumer, accepted: seq<Row>, rows: seq<Row>, m: nat)
    requires m <= |rows|
    requires forall n | 0 < n <= m :: consumer(accepted + rows[..n]) == Accept
    requires m < |rows| ==> consumer(accepted + rows[..m + 1]) != Accept
    ensures m == |rows| ==> Feed(consumer, accepted, rows) == Feeding(accepted + rows, Accept, None)
    ensures m < |rows| ==> Feed(consumer, accepted, rows)
                           == Feeding(accepted + rows[..m], consumer(accepted + rows[..m + 1]), Some(rows[m]))
    decreases |rows|
  {
    if rows == [] {
      assert accepted + rows == accepted;
    } else {
      assert rows[..1] == [rows[0]];
      if m == 0 {
        assert accepted + rows[..0] == accepted;
      } else {
        assert consumer(accepted + rows[..1]) == Accept;
        var more := accepted + [rows[0]];
        forall n | 0 < n <= |rows[1..]| ensures more + rows[1..][..n] == accepted + rows[..n + 1] {
          assert rows[..n + 1] == [rows[0]] + rows[1..][..n];
        }
        FeedUntil(consumer, more, rows[1..], m - 1);
        assert more + rows[1..] == accepted + rows;
        assert more + rows[1..][..m - 1] == accepted + rows[..m];
      }
    }
  }

  /** Sources that return and whose rows are all accepted only extend the two accumulators. */
  lemma {:induction false} SequentialSkips(consumer: Consumer, srcs: seq<Source>, n: nat, accepted: seq<Row>)
    requires n <= |srcs| && AllSupported(srcs) && AllReturn(srcs[..n])
    requires Concat(srcs[..n]) <= accepted && AllAccepted(consumer, [], accepted)
    ensures SequentialFrom(consumer, false, srcs, [], [], true)
            == SequentialFrom(consumer, false, srcs[n..], Concat(srcs[..n]), ScriptFailures(srcs[..n]), true)
  {
    if n == 0 {
      assert srcs[0..] == srcs;
    } else {
      var done := srcs[..n];
      assert done[..n - 1] == srcs[..n - 1] && done[n - 1] == srcs[n - 1];
      assert forall j | 0 <= j < n - 1 :: srcs[..n - 1][j] == done[j];
      SequentialSkips(consumer, srcs, n - 1, accepted);
      var base, rows := Concat(srcs[..n - 1]), srcs[n - 1].rows;
      forall k | 0 < k <= |rows| ensures consumer(base + rows[..k]) == Accept {
        assert base + rows[..k] == accepted[..|base| + k];
      }
      FeedUntil(consumer, base, rows, |rows|);
      assert srcs[n - 1..][1..] == srcs[n..];
      assert srcs[n - 1..][0].end.Returns? by { assert done[n - 1].end.Returns?; }
    }
  }

  /** A source whose rows were accepted up to one at which the consumer stops. */
  lemma FedUntil(consumer: Consumer, base: seq<Row>, rows: seq<Row>, m: nat, accepted: seq<Row>, row: Row)
    requires m < |rows| && |accepted| == |base| + m && accepted + [row] <= base + rows
    requires AllAccepted(consumer, [], accepted) && !consumer(accepted + [row]).Accept?
    ensures Feed(consumer, base, rows) == Feeding(accepted, consumer(accepted + [row]), Some(row))
  {
    forall k | 0 < k <= m + 1 ensures base + rows[..k] == (accepted + [row])[..|base| + k] {
      assert (base + rows)[..|base| + k] == base + rows[..k];
    }
    assert base + rows[..m + 1] == accepted + [row];
    forall k | 0 < k <= m ensures consumer(base + rows[..k]) == Accept {
      assert base + rows[..k] == accepted[..|base| + k];
    }
    FeedUntil(consumer, base, rows, m);
    assert (base + rows[..m + 1])[..|accepted|] == base + rows[..m];
    assert base + rows[..m] == accepted;
    assert rows[m] == (base + rows[..m + 1])[|accepted|] == row;
  }

  /** A consumer that stops inside source `n` ends the sequential search right there. */
  lemma SequentialStops(consumer: Consumer, srcs: seq<Source>, n: nat, accepted: seq<Row>, row: Row)
    requires n < |srcs| && AllSupported(srcs) && AllReturn(srcs[..n])
    requires |Concat(srcs[..n])| <= |accepted| < |Concat(srcs[..n + 1])|
    requires accepted + [row] <= Concat(srcs)
    requires AllAccepted(consumer, [], accepted) && !consumer(accepted + [row]).Accept?
    ensures SequentialFrom(consumer, false, srcs, [], [], true)
            == Report(accepted, Some(row), match consumer(accepted + [row])
                                           case Reject(e) => ConsumerFailed(e)
                                           case _ => PanicOut)
  {
    ConcatPrefix(srcs, n);
    ConcatPrefix(srcs, n + 1);
    var base, rows := Concat(srcs[..n]), srcs[n].rows;
    assert srcs[..n + 1][..n] == srcs[..n];
    assert Concat(srcs[..n + 1]) == base + rows;
    SequentialSkips(consumer, srcs, n, accepted);
    var m := |accepted| - |base|;
    assert accepted + [row] <= base + rows;
    FedUntil(consumer, base, rows, m, accepted, row);
    assert srcs[n..][0] == srcs[n];
  }

  /** Dropping unsupported sources first, as the parallel path does, changes nothing. */
  lemma {:induction false} SelectSame(
    consumer: Consumer, snapshot: seq<Source>, accepted: seq<Row>, failures: seq<Error>, supported: bool)
    ensures SequentialFrom(consumer, false, snapshot, accepted, failures, supported)
            == SequentialFrom(consumer, false, Select(snapshot), accepted, failures, supported)
    ensures AllSupported(Select(snapshot))
    decreases |snapshot|
  {
    if snapshot != [] {
      var s := snapshot[0];
      SelectSame(consumer, snapshot[1..], accepted, failures, supported);
      if s.supported {
        assert Select(snapshot)[1..] == Select(snapshot[1..]);
        var fed := Feed(consumer, accepted, s.rows);
        if fed.verdict.Accept? && s.end.Returns? {
          SelectSame(consumer, snapshot[1..], fed.accepted, WithFailure(failures, s.end.failure), true);
        }
      } else {
        assert Select(snapshot) == Select(snapshot[1..]);
      }
    }
  }

  // ----- every run

  lemma {:induction false} ConcatAppend(a: seq<Source>, b: seq<Source>)
    ensures Concat(a + b) == Concat(a) + Concat(b)
    decreases |b|
  {
    if b == [] {
      assert a + b == a;
    } else {
      var n := |b| - 1;
      ConcatAppend(a, b[..n]);
      var last := b[n].rows;
      assert (a + b)[..|a + b| - 1] == a + b[..n] && (a + b)[|a + b| - 1] == b[n];
      assert Concat(a + b) == Concat(a + b[..n]) + last;
      assert (Concat(a) + Concat(b[..n])) + last == Concat(a) + (Concat(b[..n]) + last);
    }
  }

  lemma {:induction false} FailuresAppend(a: seq<Source>, b: seq<Source>)
    ensures ScriptFailures(a + b) == ScriptFailures(a) + ScriptFailures(b)
    decreases |b|
  {
    if b == [] {
      assert a + b == a;
    } else {
      var n := |b| - 1;
      FailuresAppend(a, b[..n]);
      assert (a + b)[..|a + b| - 1] == a + b[..n];
    }
  }

  lemma AcceptedTogether(consumer: Consumer, base: seq<Row>, accepted: seq<Row>)
    requires AllAccepted(consumer, [], base) && AllAccepted(consumer, base, accepted)
    ensures AllAccepted(consumer, [], accepted)
  {
    forall n | 0 < n <= |accepted| ensures consumer(accepted[..n]) == Accept {
      if n <= |base| { assert accepted[..n] == base[..n]; }
    }
  }

  lemma AppendBoth(head: seq<Source>, part: seq<Source>, whole: seq<Source>)
    requires head + part == whole
    ensures Concat(whole) == Concat(head) + Concat(part)
    ensures ScriptFailures(whole) == ScriptFailures(head) + ScriptFailures(part)
  {
    ConcatAppend(head, part);
    FailuresAppend(head, part);
  }

  /** `base` plus part of a batch is the same part of the whole registry-order stream. */
  lemma BatchStream(selected: seq<Source>, first: nat, i: nat)
    requires first <= |selected| && i <= |BatchAt(selected, first)|
    ensures var batch := BatchAt(selected, first);
            && selected[..first] + batch[..i] == selected[..first + i]
            && Concat(selected[..first + i]) == Concat(selected[..first]) + Concat(batch[..i])
            && ScriptFailures(selected[..first + i]) == ScriptFailures(selected[..first]) + ScriptFailures(batch[..i])
            && |Concat(selected[..first + i])| == |Concat(selected[..first])| + Start(batch, i)
            && Concat(selected[..first + i]) <= Concat(selected)
  {
    var batch := BatchAt(selected, first);
    var head, part, whole := selected[..first], batch[..i], selected[..first + i];
    assert head + part == whole;
    AppendBoth(head, part, whole);
    StartIsLength(batch, i);
    ConcatPrefix(selected, first + i);
  }

  lemma WholeBatch(selected: seq<Source>, first: nat)
    requires first <= |selected|
    ensures var batch, next := BatchAt(selected, first), Min(first + MAX_PARALLEL_SOURCES, |selected|);
            && first + |batch| == next
            && Concat(selected[..next]) == Concat(selected[..first]) + Concat(batch)
            && ScriptFailures(selected[..next]) == ScriptFailures(selected[..first]) + ScriptFailures(batch)
            && Concat(selected[..next]) <= Concat(selected)
  {
    var batch := BatchAt(selected, first);
    BatchStream(selected, first, |batch|);
    assert batch[..|batch|] == batch;
  }

  lemma ReturnsTogether(selected: seq<Source>, first: nat, i: nat)
    requires first <= |selected| && i <= |BatchAt(selected, first)|
    requires AllReturn(selected[..first]) && forall j | 0 <= j < i :: BatchAt(selected, first)[j].end.Returns?
    ensures AllReturn(selected[..first + i])
  {
    var head := selected[..first + i];
    forall j | 0 <= j < |head| ensures head[j].end.Returns? {
      if j < first {
        assert selected[..first][j].end.Returns?;
      } else {
        assert BatchAt(selected, first)[j - first].end.Returns?;
      }
    }
  }

  lemma PanicSelected(selected: seq<Source>, first: nat)
    requires first <= |selected| && SomeCanPanic(BatchAt(selected, first))
    ensures SomeCanPanic(selected)
  {
    var batch := BatchAt(selected, first);
    var j :| 0 <= j < |batch| && (batch[j].end.Panics? || batch[j].panicsWhenStopped);
    assert selected[first + j].end.Panics? || selected[first + j].panicsWhenStopped;
  }

  /** A panic that leaves the search came from a source or the consumer. */
  lemma CollectPanic(selected: seq<Source>, consumer: Consumer, first: nat, base: seq<Row>, failures: seq<Error>,
      s: State)
    requires AllSupported(selected) && first < |selected| && s.main.Returned? && s.main.result.Panicked?
    requires AllAccepted(consumer, [], base) && Caught(selected, first, base, failures)
    requires Reported(ConfigAt(selected, consumer, first, base), s)
    ensures SearchInv(selected, consumer, Settled(first, failures, s))
  {
    hide SequentialFrom, SomeCanPanic;
    var batch := BatchAt(selected, first);
    AcceptedTogether(consumer, base, s.accepted);
    WholeBatch(selected, first);
    if SomeCanPanic(batch) { PanicSelected(selected, first); }
  }

  /** A batch that ran to its end adds its rows and failures to the earlier ones. */
  lemma CollectDone(selected: seq<Source>, consumer: Consumer, first: nat, base: seq<Row>, failures: seq<Error>,
      s: State)
    requires AllSupported(selected) && first < |selected| && s.main.Returned? && s.main.result.Done? &&
              s.main.result.consumerErr.None?
    requires AllAccepted(consumer, [], base) && Caught(selected, first, base, failures)
    requires Reported(ConfigAt(selected, consumer, first, base), s)
    ensures SearchInv(selected, consumer, Settled(first, failures, s))
  {
    hide SequentialFrom, CanPanic;
    var batch := BatchAt(selected, first);
    AcceptedTogether(consumer, base, s.accepted);
    WholeBatch(selected, first);
    if !s.parentCancelled {
      ReturnsTogether(selected, first, |batch|);
    }
  }

  /** The refused row lies in the rows of source `n`, behind sources that all returned. */
  ghost predicate RefusedIn(selected: seq<Source>, consumer: Consumer, s: State, n: nat) {
    && n < |selected| && AllReturn(selected[..n]) && s.refused.Some?
    && |Concat(selected[..n])| <= |s.accepted| < |Concat(selected[..n + 1])|
    && s.accepted + [s.refused.value] <= Concat(selected)
    && s.main.Returned? && s.main.result.Done? && s.main.result.consumerErr.Some?
    && consumer(s.accepted + [s.refused.value]) == Reject(s.main.result.consumerErr.value)
  }

  lemma RefusedAt(selected: seq<Source>, consumer: Consumer, first: nat, base: seq<Row>, s: State) returns (n: nat)
    requires AllSupported(selected) && first < |selected|
    requires s.main.Returned? && s.main.result.Done? && s.main.result.consumerErr.Some?
    requires base == Concat(selected[..first]) && AllReturn(selected[..first])
    requires Reported(ConfigAt(selected, consumer, first, base), s)
    requires AllAccepted(consumer, [], s.accepted)
    requires Concat(selected[..first]) + Concat(BatchAt(selected, first)) <= Concat(selected)
    ensures RefusedIn(selected, consumer, s, n)
  {
    var i := s.main.exit.i;
    n := first + i;
    BatchStream(selected, first, i);
    BatchStream(selected, first, i + 1);
    ReturnsTogether(selected, first, i);
  }

  lemma RefusedMatches(selected: seq<Source>, consumer: Consumer, first: nat, base: seq<Row>, s: State)
    requires AllSupported(selected) && first < |selected|
    requires s.main.Returned? && s.main.result.Done? && s.main.result.consumerErr.Some?
    requires base == Concat(selected[..first]) && AllReturn(selected[..first])
    requires Reported(ConfigAt(selected, consumer, first, base), s)
    requires AllAccepted(consumer, [], s.accepted)
    requires Concat(selected[..first]) + Concat(BatchAt(selected, first)) <= Concat(selected)
    ensures SequentialFrom(consumer, false, selected, [], [], true)
            == Report(s.accepted, s.refused, ConsumerFailed(s.main.result.consumerErr.value))
  {
    var n := RefusedAt(selected, consumer, first, base, s);
    SequentialStops(consumer, selected, n, s.accepted, s.refused.value);
  }

  /** A consumer error ends the parallel search where it ends the sequential one. */
  lemma CollectRefused(selected: seq<Source>, consumer: Consumer, first: nat, base: seq<Row>, failures: seq<Error>,
      s: State)
    requires AllSupported(selected) && first < |selected|
    requires s.main.Returned? && s.main.result.Done? && s.main.result.consumerErr.Some?
    requires AllAccepted(consumer, [], base) && Caught(selected, first, base, failures)
    requires Reported(ConfigAt(selected, consumer, first, base), s)
    ensures SearchInv(selected, consumer, Settled(first, failures, s))
  {
    var batch := BatchAt(selected, first);
    AcceptedTogether(consumer, base, s.accepted);
    WholeBatch(selected, first);
    RefusedMatches(selected, consumer, first, base, s);
  }

  /** Every step of a parallel search, whoever takes it, keeps the invariant. */
  lemma MoveInv(selected: seq<Source>, consumer: Consumer, x: Search, m: Move)
    requires AllSupported(selected) && SearchInv(selected, consumer, x) && CanMove(selected, consumer, x, m)
    ensures SearchInv(selected, consumer, Next(selected, consumer, x, m))
  {
    match m {
      case CancelParent =>
      case Launch =>
        if x.first < |selected| && !x.parent {
          InitInv(ConfigAt(selected, consumer, x.first, x.accepted), x.parent);
        } else if !x.parent {
          assert selected[..|selected|] == selected;
          SequentialSkips(consumer, selected, |selected|, x.accepted);
        }
      case Inner(e) => StepInv(ConfigAt(selected, consumer, x.first, x.base), x.batch, e);
      case Collect =>
        BatchReports(ConfigAt(selected, consumer, x.first, x.base), x.batch);
        if x.batch.main.result.Panicked? {
          CollectPanic(selected, consumer, x.first, x.base, x.failures, x.batch);
        } else if x.batch.main.result.consumerErr.None? {
          CollectDone(selected, consumer, x.first, x.base, x.failures, x.batch);
        } else {
          CollectRefused(selected, consumer, x.first, x.base, x.failures, x.batch);
        }
    }
  }

  // ----- no stuck state and bounded runs

  lemma SearchProgress(selected: seq<Source>, consumer: Consumer, x: Search) returns (m: Move)
    requires SearchInv(selected, consumer, x) && !x.Over?
    ensures CanMove(selected, consumer, x, m) && !m.CancelParent? && !(m.Inner? && m.e.ParentCancel?)
  {
    match x {
      case Between(_, _, _, _) => m := Launch;
      case Running(first, base, _, s) =>
        if s.main.Returned? {
          m := Collect;
        } else {
          var e := Progress(ConfigAt(selected, consumer, first, base), s);
          m := Inner(e);
        }
    }
  }

  function BatchWork(batch: seq<Source>): nat { 8 * Start(batch, |batch|) + 13 * |batch| + 4 }

  /** Upper bound on the steps left once the sources before `first` are settled. */
  function WorkFrom(selected: seq<Source>, first: nat): nat
    decreases |selected| - first
  {
    if first >= |selected| then 1
    else 2 + BatchWork(BatchAt(selected, first)) + WorkFrom(selected, first + MAX_PARALLEL_SOURCES)
  }

  predicate Shaped(selected: seq<Source>, x: Search) {
    x.Running? ==> x.first < |selected| && |x.batch.producers| == |BatchAt(selected, x.first)|
  }

  function SearchRank(selected: seq<Source>, consumer: Consumer, x: Search): nat
    requires Shaped(selected, x)
  {
    match x
    case Between(first, parent, _, _) => (if parent then 0 else 1) + WorkFrom(selected, first)
    case Running(first, base, _, s) =>
      (if s.parentCancelled then 0 else 1) + 1 + Rank(ConfigAt(selected, consumer, first, base), s)
      + WorkFrom(selected, first + MAX_PARALLEL_SOURCES)
    case Over(_, _) => 0
  }

  lemma LaunchLowers(selected: seq<Source>, consumer: Consumer, x: Search)
    requires x.Between? && x.first < |selected| && !x.parent
    ensures var y := Next(selected, consumer, x, Launch);
            Shaped(selected, y) && SearchRank(selected, consumer, y) < SearchRank(selected, consumer, x)
  {
    FirstRank(ConfigAt(selected, consumer, x.first, x.accepted), x.parent);
  }

  lemma InnerLowers(selected: seq<Source>, consumer: Consumer, x: Search, e: Event)
    requires x.Running? && CanMove(selected, consumer, x, Inner(e))
    requires Inv(ConfigAt(selected, consumer, x.first, x.base), x.batch)
    ensures var y := Next(selected, consumer, x, Inner(e));
            Shaped(selected, y) && SearchRank(selected, consumer, y) < SearchRank(selected, consumer, x)
  {
    var c := ConfigAt(selected, consumer, x.first, x.base);
    StepRank(c, x.batch, e);
    assert e.ParentCancel? == (Apply(c, x.batch, e).parentCancelled && !x.batch.parentCancelled);
  }

  lemma MoveRank(selected: seq<Source>, consumer: Consumer, x: Search, m: Move)
    requires SearchInv(selected, consumer, x) && CanMove(selected, consumer, x, m)
    ensures Shaped(selected, x) && Shaped(selected, Next(selected, consumer, x, m))
    ensures SearchRank(selected, consumer, Next(selected, consumer, x, m)) < SearchRank(selected, consumer, x)
  {
    if m.Launch? {
      if x.first < |selected| && !x.parent { LaunchLowers(selected, consumer, x); }
    } else if m.Inner? {
      InnerLowers(selected, consumer, x, m.e);
    }
  }

  /** A run of `searchParallel`: any interleaving of its goroutines with its caller's context. */
  ghost predicate Run(selected: seq<Source>, consumer: Consumer, trace: seq<Search>, moves: seq<Move>) {
    && |trace| == |moves| + 1
    && (trace[0] == Between(0, false, [], []) || trace[0] == Between(0, true, [], []))
    && forall n | 0 <= n < |moves| ::
         CanMove(selected, consumer, trace[n], moves[n]) && trace[n + 1] == Next(selected, consumer, trace[n], moves[n])
  }

  lemma {:induction false} RunInv(selected: seq<Source>, consumer: Consumer, trace: seq<Search>, moves: seq<Move>,
      n: nat)
    requires AllSupported(selected) && Run(selected, consumer, trace, moves) && n < |trace|
    ensures SearchInv(selected, consumer, trace[n])
    ensures Shaped(selected, trace[n]) && SearchRank(selected, consumer, trace[n]) + n <= 1 + WorkFrom(selected, 0)
  {
    if n == 0 {
      assert selected[..0] == [];
    } else {
      RunInv(selected, consumer, trace, moves, n - 1);
      MoveInv(selected, consumer, trace[n - 1], moves[n - 1]);
      MoveRank(selected, consumer, trace[n - 1], moves[n - 1]);
    }
  }

  /** No run is longer than a bound computed from the scripts: every search returns. */
  lemma RunsEnd(selected: seq<Source>, consumer: Consumer, trace: seq<Search>, moves: seq<Move>)
    requires AllSupported(selected) && Run(selected, consumer, trace, moves)
    ensures |moves| <= 1 + WorkFrom(selected, 0)
  {
    RunInv(selected, consumer, trace, moves, |moves|);
  }

  /** A run that cannot be extended has returned: there is no stuck state. */
  lemma RunsReturn(selected: seq<Source>, consumer: Consumer, trace: seq<Search>, moves: seq<Move>)
    requires AllSupported(selected) && Run(selected, consumer, trace, moves)
    requires forall m :: !CanMove(selected, consumer, trace[|moves|], m)
    ensures trace[|moves|].Over?
  {
    RunInv(selected, consumer, trace, moves, |moves|);
    if !trace[|moves|].Over? {
      var m := SearchProgress(selected, consumer, trace[|moves|]);
    }
  }

  // ----- the theorems

  function Delivered(x: Search): seq<Row> {
    match x
    case Between(_, _, accepted, _) => accepted
    case Running(_, _, _, s) => Handed(s)
    case Over(_, r) => HandedOver(r)
  }

  /** At every moment of every run the rows handed over are a prefix of the registry-order stream. */
  lemma DeliveredInOrder(selected: seq<Source>, consumer: Consumer, trace: seq<Search>, moves: seq<Move>, n: nat)
    requires AllSupported(selected) && Run(selected, consumer, trace, moves) && n < |trace|
    ensures Delivered(trace[n]) <= Concat(selected)
  {
    RunInv(selected, consumer, trace, moves, n);
    if trace[n].Running? {
      var first := trace[n].first;
      BatchStream(selected, first, |BatchAt(selected, first)|);
      assert BatchAt(selected, first)[..|BatchAt(selected, first)|] == BatchAt(selected, first);
    }
  }

  /** Row `k` of the batch's source `j` was accepted, at its own place in the registry-order stream. */
  ghost predicate RowAccepted(selected: seq<Source>, consumer: Consumer, x: Search, j: nat, k: nat)
    requires x.Running?
  {
    && x.first < |selected| && j < |BatchAt(selected, x.first)| && k < |selected[x.first + j].rows|
    && var at := |Concat(selected[..x.first])| + Start(BatchAt(selected, x.first), j) + k;
    && at < |x.batch.accepted|
    && x.batch.accepted[at] == selected[x.first + j].rows[k]
    && consumer(x.batch.accepted[..at + 1]) == Accept
  }

  lemma EmitAt(selected: seq<Source>, consumer: Consumer, x: Search, j: nat, k: nat)
    requires x.Running? && x.first < |selected| && x.base == Concat(selected[..x.first])
    requires Inv(ConfigAt(selected, consumer, x.first, x.base), x.batch)
    requires j < |x.batch.producers| && k < x.batch.producers[j].sent
    ensures RowAccepted(selected, consumer, x, j, k)
  {
    EmitTold(ConfigAt(selected, consumer, x.first, x.base), x.batch, j, k);
  }

  /** A source's Emit has returned nil only for rows the consumer accepted, at their own place in the stream. */
  lemma EmitIsTruthful(
    selected: seq<Source>, consumer: Consumer, trace: seq<Search>, moves: seq<Move>, n: nat, x: Search, j: nat, k: nat)
    requires AllSupported(selected) && Run(selected, consumer, trace, moves) && n < |trace|
    requires x == trace[n] && x.Running? && j < |x.batch.producers| && k < x.batch.producers[j].sent
    ensures RowAccepted(selected, consumer, x, j, k)
  {
    RunInv(selected, consumer, trace, moves, n);
    EmitAt(selected, consumer, x, j, k);
  }

  /** When the consumer is called for source `i`, every earlier source has ended, without a panic. */
  lemma CalledInOrder(selected: seq<Source>, consumer: Consumer, trace: seq<Search>, moves: seq<Move>, n: nat, j: nat)
    requires AllSupported(selected) && Run(selected, consumer, trace, moves) && n < |trace|
    requires trace[n].Running? && trace[n].batch.main.Calling? && j < trace[n].batch.main.i
    ensures j < |trace[n].batch.producers| && trace[n].first < |selected|
    ensures j < |BatchAt(selected, trace[n].first)|
    ensures var p := trace[n].batch.producers[j];
            RowsClosed(p) && !p.panicked && p.sent == |BatchAt(selected, trace[n].first)[j].rows|
  {
    RunInv(selected, consumer, trace, moves, n);
    var x := trace[n];
    assert ScriptDone(BatchAt(selected, x.first)[j], x.batch.producers[j]);
  }

  /** At most two invocations are ever live, and none is live once `searchBatch` has returned. */
  lemma FewLive(selected: seq<Source>, consumer: Consumer, trace: seq<Search>, moves: seq<Move>, n: nat)
    requires AllSupported(selected) && Run(selected, consumer, trace, moves) && n < |trace| && trace[n].Running?
    ensures |trace[n].batch.producers| <= MAX_PARALLEL_SOURCES
    ensures trace[n].batch.main.Returned? ==> AllJoined(trace[n].batch.producers)
  {
    RunInv(selected, consumer, trace, moves, n);
  }

  /**
   Refinement.  Unless the caller cancels, a parallel search over the supported sources of a registry
   snapshot either unwinds with a panic that a source or the consumer raised, or shows its caller exactly
   what the sequential search over the snapshot shows: same rows, same refused row, same ordered failures.
   */
  lemma ParallelRefinesSequential(
    snapshot: seq<Source>, consumer: Consumer, trace: seq<Search>, moves: seq<Move>)
    requires Select(snapshot) != []
    requires Run(Select(snapshot), consumer, trace, moves)
    requires trace[|moves|].Over? && !trace[|moves|].parent
    ensures var r := trace[|moves|].report;
            r == Sequential(consumer, snapshot) || (r.result.PanicOut? && CanPanic(Select(snapshot), consumer, r))
  {
    var selected := Select(snapshot);
    SelectSame(consumer, snapshot, [], [], false);
    RunInv(selected, consumer, trace, moves, |moves|);
    assert selected[0].supported;
    assert SequentialFrom(consumer, false, selected, [], [], true) == SequentialFrom(consumer, false, selected, [], [],
        false);
  }

  /** Even under cancellation a consumer error is the one the consumer gave for the last row it saw. */
  lemma ConsumerErrorIsReal(selected: seq<Source>, consumer: Consumer, trace: seq<Search>, moves: seq<Move>)
    requires AllSupported(selected) && Run(selected, consumer, trace, moves) && trace[|moves|].Over?
    requires trace[|moves|].report.result.ConsumerFailed?
    ensures consumer(HandedOver(trace[|moves|].report)) == Reject(trace[|moves|].report.result.error)
    ensures AllAccepted(consumer, [], trace[|moves|].report.accepted)
  {
    RunInv(selected, consumer, trace, moves, |moves|);
  }
}
