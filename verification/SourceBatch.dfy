/**
 The pairwise fan-out of `searchBatch`: producer goroutines hand rows to one consumer
 goroutine over unbuffered row and acknowledgement channels, under a shared cancellation
 flag.  Every goroutine is a program counter; a rendezvous is one step that moves both sides.
 */
module SourceBatch {
  import opened Common

  datatype Row = Row(source: string, payload: string)
  datatype Error = SourceFailure(message: string) | ContextDone | ConsumerError(code: nat)

  /** How a provider that is left alone ends: it returns (perhaps with a failure) or panics. */
  datatype End = Returns(failure: Option<Error>) | Panics

  /** A provider's script.  `panicsWhenStopped` lets it panic after cancellation or a failed Emit. */
  datatype Source = Source(supported: bool, rows: seq<Row>, end: End, panicsWhenStopped: bool)

  datatype Verdict = Accept | Reject(error: Error) | Blow

  /** The caller's consumer: its verdict on the last row, given every row handed to it so far. */
  type Consumer = seq<Row> -> Verdict

  datatype Stage = Begin | Working | Offering | Awaiting | Stopped | Ended | Closed | Joined

  /** A producer goroutine.  `sent` counts the rows whose Emit has returned nil; `err` is the failed
      Emit's error while Stopped and the stream's recorded error from Ended on. */
  datatype Producer = Producer(at: Stage, sent: nat, err: Option<Error>, panicked: bool)

  /** Why the consumer goroutine left its drain loop (history only; no step depends on it). */
  datatype Exit = Complete | Interrupted | Refused(i: nat, error: Error) | Blew(i: nat)

  datatype BatchResult = Panicked | Done(failures: seq<Error>, consumerErr: Option<Error>)

  /** The consumer goroutine; `m` counts the rows of source `i` it has seen accepted. */
  datatype Main =
    | Receiving(i: nat, m: nat)
    | Holding(i: nat, m: nat, row: Row)
    | Calling(i: nat, m: nat, row: Row)
    | Acking(i: nat, m: nat, err: Option<Error>)
    | Leaving(exit: Exit)
    | Joining(exit: Exit)
    | Returned(exit: Exit, result: BatchResult)

  datatype State = State(
    producers: seq<Producer>,
    main: Main,
    parentCancelled: bool,
    cancelled: bool,
    accepted: seq<Row>,
    refused: Option<Row>)

  /** One call: its sources, the consumer, the rows accepted by earlier batches, and the derived
      registry-order stream with the position at which each source starts in it. */
  datatype Config = Config(
    batch: seq<Source>, consumer: Consumer, base: seq<Row>, stream: seq<Row>, starts: seq<nat>)

  datatype Event =
    | ParentCancel
    | Check(j: nat)
    | Offer(j: nat)
    | Finish(j: nat)
    | GiveUp(j: nat)
    | Abandon(j: nat, err: Option<Error>, panics: bool)
    | Close(j: nat)
    | Join(j: nat)
    | Receive
    | SeeClosed
    | CheckHeld
    | Call
    | Ack
    | SeeDone
    | Cancel
    | Return

  function Init(c: Config, parentCancelled: bool): State {
    State(seq(|c.batch|, _ => Producer(Begin, 0, None, false)),
          if c.batch == [] then Leaving(Complete) else Receiving(0, 0),
          parentCancelled, parentCancelled, c.base, None)
  }

  /** The producer of a source that ran its script undisturbed. */
  function ScriptEnd(s: Source, at: Stage): Producer {
    match s.end
    case Returns(f) => Producer(at, |s.rows|, f, false)
    case Panics => Producer(at, |s.rows|, None, true)
  }

  predicate InLoop(m: Main) { m.Receiving? || m.Holding? || m.Calling? || m.Acking? }

  predicate HasOutcome(p: Producer) { p.at.Ended? || p.at.Closed? || p.at.Joined? }

  predicate RowsClosed(p: Producer) { p.at.Closed? || p.at.Joined? }

  predicate AllJoined(ps: seq<Producer>) { forall j | 0 <= j < |ps| :: ps[j].at.Joined? }

  /** The failures a joined batch reports, in registry order. */
  function Failures(ps: seq<Producer>): seq<Error> {
    if ps == [] then []
    else
      var rest := Failures(ps[..|ps| - 1]);
      var p := ps[|ps| - 1];
      if HasOutcome(p) && p.err.Some? then rest + [p.err.value] else rest
  }

  function ResultOf(ps: seq<Producer>, exit: Exit): BatchResult {
    if SomePanicked(ps) || exit.Blew? then Panicked
    else Done(Failures(ps), if exit.Refused? then Some(exit.error) else None)
  }

  predicate Enabled(c: Config, s: State, e: Event) {
    |s.producers| == |c.batch| &&
    match e
    case ParentCancel => !s.parentCancelled && !s.main.Returned?
    case Check(j) => j < |c.batch| && s.producers[j].at.Begin?
    case Offer(j) =>
      j < |c.batch| && s.producers[j].at.Working? && s.producers[j].sent < |c.batch[j].rows|
    case Finish(j) =>
      j < |c.batch| && s.producers[j].at.Working? && s.producers[j].sent == |c.batch[j].rows|
    case GiveUp(j) =>
      j < |c.batch| && s.cancelled && (s.producers[j].at.Offering? || s.producers[j].at.Awaiting?)
    case Abandon(j, err, panics) =>
      j < |c.batch| && (panics ==> c.batch[j].panicsWhenStopped) &&
      (s.producers[j].at.Stopped? || (s.cancelled && s.producers[j].at.Working?))
    case Close(j) => j < |c.batch| && s.producers[j].at.Ended?
    case Join(j) => j < |c.batch| && s.producers[j].at.Closed?
    case Receive =>
      s.main.Receiving? && s.main.i < |c.batch| && s.producers[s.main.i].at.Offering? &&
      s.producers[s.main.i].sent < |c.batch[s.main.i].rows|
    case SeeClosed => s.main.Receiving? && s.main.i < |c.batch| && RowsClosed(s.producers[s.main.i])
    case CheckHeld => s.main.Holding?
    case Call => s.main.Calling?
    case Ack => s.main.Acking? && s.main.i < |c.batch| && s.producers[s.main.i].at.Awaiting?
    case SeeDone => s.cancelled && (s.main.Receiving? || s.main.Acking?)
    case Cancel => s.main.Leaving?
    case Return => s.main.Joining? && AllJoined(s.producers)
  }

  function SetProducer(s: State, j: nat, p: Producer): State
    requires j < |s.producers|
  {
    s.(producers := s.producers[j := p])
  }

  /** The consumer goroutine after its acknowledgement was taken or abandoned. */
  function AfterAck(m: Main): Main
    requires m.Acking?
  {
    match m.err
    case None => Receiving(m.i, m.m + 1)
    case Some(e) => Leaving(Refused(m.i, e))
  }

  function Apply(c: Config, s: State, e: Event): State
    requires Enabled(c, s, e)
  {
    match e
    case ParentCancel => s.(parentCancelled := true, cancelled := true)
    case Check(j) =>
      SetProducer(s, j,
        if s.cancelled then Producer(Ended, 0, Some(ContextDone), false) else s.producers[j].(at := Working))
    case Offer(j) => SetProducer(s, j, s.producers[j].(at := Offering))
    case Finish(j) =>
      var p := ScriptEnd(c.batch[j], Ended);
      SetProducer(s, j, p).(cancelled := s.cancelled || p.panicked)
    case GiveUp(j) => SetProducer(s, j, s.producers[j].(at := Stopped, err := Some(ContextDone)))
    case Abandon(j, err, panics) =>
      var p := s.producers[j];
      if panics then SetProducer(s, j, Producer(Ended, p.sent, None, true)).(cancelled := true)
      else SetProducer(s, j, p.(at := Ended, err := if p.at.Stopped? then p.err else err))
    case Close(j) => SetProducer(s, j, s.producers[j].(at := Closed))
    case Join(j) => SetProducer(s, j, s.producers[j].(at := Joined))
    case Receive =>
      var i := s.main.i;
      var p := s.producers[i];
      SetProducer(s, i, p.(at := Awaiting)).(main := Holding(i, s.main.m, c.batch[i].rows[p.sent]))
    case SeeClosed =>
      s.(main := if s.main.i + 1 < |c.batch| then Receiving(s.main.i + 1, 0)
                 else Leaving(if s.cancelled then Interrupted else Complete))
    case CheckHeld =>
      s.(main := if s.cancelled then Leaving(Interrupted) else Calling(s.main.i, s.main.m, s.main.row))
    case Call =>
      (match c.consumer(s.accepted + [s.main.row])
       case Accept =>
         s.(main := Acking(s.main.i, s.main.m, None), accepted := s.accepted + [s.main.row])
       case Reject(err) =>
         s.(main := Acking(s.main.i, s.main.m, Some(err)), refused := Some(s.main.row))
       case Blow => s.(main := Leaving(Blew(s.main.i)), refused := Some(s.main.row)))
    case Ack =>
      var i := s.main.i;
      var p := s.producers[i];
      SetProducer(s, i, if s.main.err.None? then p.(at := Working, sent := p.sent + 1)
                        else p.(at := Stopped, err := s.main.err))
      .(main := AfterAck(s.main))
    case SeeDone => s.(main := if s.main.Receiving? then Leaving(Interrupted) else AfterAck(s.main))
    case Cancel => s.(cancelled := true, main := Joining(s.main.exit))
    case Return => s.(main := Returned(s.main.exit, ResultOf(s.producers, s.main.exit)))
  }

  /** All rows of a list of sources, in registry order and then emission order. */
  function Concat(srcs: seq<Source>): seq<Row> {
    if srcs == [] then [] else Concat(srcs[..|srcs| - 1]) + srcs[|srcs| - 1].rows
  }

  function ConfigFor(batch: seq<Source>, consumer: Consumer, base: seq<Row>): Config {
    Config(batch, consumer, base, base + Concat(batch),
        seq(|batch| + 1, j requires 0 <= j <= |batch| => Start(batch, j)))
  }

  /** Number of rows emitted by the sources before source `j`. */
  function Start(srcs: seq<Source>, j: nat): nat
    requires j <= |srcs|
  {
    if j == 0 then 0 else Start(srcs, j - 1) + |srcs[j - 1].rows|
  }

  /** Length of the stream when source `j` has emitted its first `k` rows. */
  function Pos(c: Config, j: nat, k: nat): nat
    requires j < |c.starts|
  {
    |c.base| + c.starts[j] + k
  }

  /** The consumer accepted every row of `accepted` beyond `base`. */
  ghost predicate AllAccepted(consumer: Consumer, base: seq<Row>, accepted: seq<Row>) {
    && base <= accepted
    && forall n | |base| < n <= |accepted| :: consumer(accepted[..n]) == Accept
  }

  predicate ProducerFits(src: Source, p: Producer) {
    && p.sent <= |src.rows|
    && (p.at.Begin? ==> p.sent == 0)
    && (p.at.Stopped? ==> p.err.Some?)
    && (!p.at.Stopped? && !HasOutcome(p) ==> p.err.None?)
    && (!HasOutcome(p) ==> !p.panicked)
    && (p.panicked ==> src.end.Panics? || src.panicsWhenStopped)
    && (p.at.Offering? || p.at.Awaiting? ==> p.sent < |src.rows|)
  }

  /** Without cancellation or refusal a producer is exactly on its script. */
  predicate OnScript(src: Source, p: Producer) {
    && !p.at.Stopped?
    && (HasOutcome(p) ==> p == ScriptEnd(src, p.at) && src.end.Returns?)
  }

  predicate ScriptDone(src: Source, p: Producer) { RowsClosed(p) && p == ScriptEnd(src, p.at) && src.end.Returns? }

  predicate SomePanicked(ps: seq<Producer>) {
    exists j | 0 <= j < |ps| :: HasOutcome(ps[j]) && ps[j].panicked
  }

  // ----- the invariant

  /** Position of the consumer goroutine inside the registry-order stream. */
  ghost predicate Positioned(c: Config, s: State)
    requires |s.producers| == |c.batch| && |c.starts| == |c.batch| + 1
  {
    match s.main
    case Receiving(i, m) =>
      i < |c.batch| && s.refused.None? &&
      (!s.cancelled ==>
         m == s.producers[i].sent && m <= |c.batch[i].rows| && |s.accepted| == Pos(c, i, m) &&
         !s.producers[i].at.Awaiting?)
    case Holding(i, m, row) =>
      i < |c.batch| && s.refused.None? &&
      (!s.cancelled ==>
         m < |c.batch[i].rows| && |s.accepted| == Pos(c, i, m) &&
         s.producers[i].at.Awaiting? && s.producers[i].sent == m && row == c.batch[i].rows[m])
    case Calling(i, m, row) =>
      i < |c.batch| && s.refused.None? && m < |c.batch[i].rows| &&
      |s.accepted| == Pos(c, i, m) && row == c.batch[i].rows[m] &&
      (s.producers[i].at.Awaiting? ==> s.producers[i].sent == m) &&
      (!s.cancelled ==> s.producers[i].at.Awaiting?)
    case Acking(i, m, err) =>
      i < |c.batch| && m < |c.batch[i].rows| &&
      (s.producers[i].at.Awaiting? ==> s.producers[i].sent == m) &&
      (!s.cancelled ==> s.producers[i].at.Awaiting?) &&
      (match err
       case None => s.refused.None? && |s.accepted| == Pos(c, i, m + 1)
       case Some(e) =>
         s.refused == Some(c.batch[i].rows[m]) && |s.accepted| == Pos(c, i, m) &&
         c.consumer(s.accepted + [c.batch[i].rows[m]]) == Reject(e))
    case _ => true
  }

  /** Earlier sources are finished; later sources have not been received from. */
  ghost predicate Ordered(c: Config, s: State)
    requires |s.producers| == |c.batch| && |c.starts| == |c.batch| + 1
  {
    InLoop(s.main) ==>
      && (!s.cancelled || s.main.Calling? || s.main.Acking? ==>
            forall j | 0 <= j < s.main.i && j < |c.batch| :: ScriptDone(c.batch[j], s.producers[j]))
      && (!s.cancelled ==>
            forall j | s.main.i < j < |c.batch| :: s.producers[j].sent == 0 && !s.producers[j].at.Awaiting?)
  }

  /** The consumer goroutine stopped inside source `i`, every earlier source having finished. */
  ghost predicate StoppedAt(c: Config, s: State, i: nat)
    requires |s.producers| == |c.batch| && |c.starts| == |c.batch| + 1
  {
    && s.refused.Some? && i < |c.batch|
    && Pos(c, i, 0) <= |s.accepted| < Pos(c, i, |c.batch[i].rows|)
    && forall j | 0 <= j < i :: ScriptDone(c.batch[j], s.producers[j])
  }

  ghost predicate ExitFacts(c: Config, s: State, exit: Exit)
    requires |s.producers| == |c.batch| && |c.starts| == |c.batch| + 1
  {
    match exit
    case Complete =>
      s.refused.None? && s.accepted == c.stream &&
      forall j | 0 <= j < |c.batch| :: ScriptDone(c.batch[j], s.producers[j])
    case Interrupted => s.cancelled && s.refused.None? && (s.parentCancelled || SomePanicked(s.producers))
    case Refused(i, e) => StoppedAt(c, s, i) && c.consumer(s.accepted + [s.refused.value]) == Reject(e)
    case Blew(i) => StoppedAt(c, s, i) && c.consumer(s.accepted + [s.refused.value]) == Blow
  }

  function Handed(s: State): seq<Row> {
    match s.refused
    case None => s.accepted
    case Some(row) => s.accepted + [row]
  }

  /** Producers follow their scripts and report only what the consumer accepted. */
  ghost predicate ProducersInv(c: Config, s: State)
    requires |s.producers| == |c.batch| && |c.starts| == |c.batch| + 1
  {
    && (forall j | 0 <= j < |c.batch| :: ProducerFits(c.batch[j], s.producers[j]))
    && (!s.cancelled && s.refused.None? ==>
          forall j | 0 <= j < |c.batch| :: OnScript(c.batch[j], s.producers[j]))
    // Emit returned nil only for rows the real consumer accepted.
    && (forall j | 0 <= j < |c.batch| && s.producers[j].sent > 0 ::
          Pos(c, j, s.producers[j].sent) <= |s.accepted|)
    && (s.parentCancelled ==> s.cancelled)
  }

  /** What the consumer has been handed is a prefix of the stream, accepted row by row. */
  ghost predicate StreamInv(c: Config, s: State) {
    && Handed(s) <= c.stream
    && AllAccepted(c.consumer, c.base, s.accepted)
  }

  /** The consumer goroutine knows where it is, and why it left when it left. */
  ghost predicate ConsumerInv(c: Config, s: State)
    requires |s.producers| == |c.batch| && |c.starts| == |c.batch| + 1
  {
    && Positioned(c, s)
    && Ordered(c, s)
    && (InLoop(s.main) && s.cancelled ==> s.parentCancelled || SomePanicked(s.producers))
    && (s.main.Leaving? || s.main.Joining? || s.main.Returned? ==> ExitFacts(c, s, s.main.exit))
    && (s.main.Joining? || s.main.Returned? ==> s.cancelled)
    && (s.main.Returned? ==> AllJoined(s.producers) && s.main.result == ResultOf(s.producers, s.main.exit))
  }

  ghost predicate Inv(c: Config, s: State) {
    && |s.producers| == |c.batch| && |c.starts| == |c.batch| + 1
    && ProducersInv(c, s)
    && StreamInv(c, s)
    && ConsumerInv(c, s)
  }

  lemma {:induction false} StartIsLength(srcs: seq<Source>, j: nat)
    requires j <= |srcs|
    ensures Start(srcs, j) == |Concat(srcs[..j])|
  {
    if j > 0 {
      StartIsLength(srcs, j - 1);
      assert srcs[..j][..j - 1] == srcs[..j - 1];
    }
  }

  lemma {:induction false} ConcatAt(srcs: seq<Source>, j: nat, k: nat)
    requires j < |srcs| && k < |srcs[j].rows|
    ensures Start(srcs, j) + k < |Concat(srcs)| && Concat(srcs)[Start(srcs, j) + k] == srcs[j].rows[k]
    decreases |srcs|
  {
    var front := srcs[..|srcs| - 1];
    if j == |srcs| - 1 {
      StartIsLength(srcs, j);
    } else {
      ConcatAt(front, j, k);
      StartIsLength(srcs, j);
      StartIsLength(front, j);
      assert front[..j] == srcs[..j];
    }
  }

  /** Row `k` of source `j` sits at its registry-order position in the stream. */
  lemma StreamAt(c: Config, j: nat, k: nat)
    requires c == ConfigFor(c.batch, c.consumer, c.base) && j < |c.batch| && k < |c.batch[j].rows|
    ensures Pos(c, j, k) < |c.stream| && c.stream[Pos(c, j, k)] == c.batch[j].rows[k]
  {
    ConcatAt(c.batch, j, k);
  }

  lemma NextStart(c: Config, j: nat)
    requires c == ConfigFor(c.batch, c.consumer, c.base) && j < |c.batch|
    ensures Pos(c, j + 1, 0) == Pos(c, j, |c.batch[j].rows|)
    ensures j + 1 == |c.batch| ==> |c.stream| == Pos(c, j + 1, 0)
  {
    assert c.starts[j + 1] == Start(c.batch, j + 1);
    if j + 1 == |c.batch| {
      StartIsLength(c.batch, j + 1);
      assert c.batch[..j + 1] == c.batch;
    }
  }

  lemma InitInv(c: Config, parentCancelled: bool)
    requires c == ConfigFor(c.batch, c.consumer, c.base)
    ensures Inv(c, Init(c, parentCancelled))
  {
    assert c.starts[0] == Start(c.batch, 0) == 0;
    assert c.batch == [] ==> c.base + Concat(c.batch) == c.base;
  }

  /** A move of producer `j` to `p` that is invisible to the consumer goroutine. */
  ghost predicate Local(c: Config, s: State, j: nat, p: Producer, cancels: bool)
    requires |s.producers| == |c.batch|
  {
    && j < |c.batch| && !s.producers[j].at.Joined?
    && p.sent == s.producers[j].sent && ProducerFits(c.batch[j], p) && !p.at.Awaiting?
    && (s.producers[j].at.Awaiting? ==> s.cancelled)
    && (cancels ==> HasOutcome(p) && p.panicked)
    && (!s.cancelled && s.refused.None? && !cancels ==> OnScript(c.batch[j], p))
    && (HasOutcome(s.producers[j]) ==> HasOutcome(p) && p == s.producers[j].(at := p.at))
    && (RowsClosed(s.producers[j]) ==> RowsClosed(p))
  }

  lemma LocalKeepsProducers(c: Config, s: State, j: nat, p: Producer, cancels: bool)
    requires Inv(c, s) && Local(c, s, j, p, cancels)
    ensures ProducersInv(c, SetProducer(s, j, p).(cancelled := s.cancelled || cancels))
  {
  }

  lemma LocalKeepsPosition(c: Config, s: State, j: nat, p: Producer, cancels: bool)
    requires Inv(c, s) && Local(c, s, j, p, cancels)
    ensures Positioned(c, SetProducer(s, j, p).(cancelled := s.cancelled || cancels))
  {
    hide ProducersInv, StreamInv, Ordered, ExitFacts;
  }

  lemma LocalKeepsDone(c: Config, s: State, j: nat, p: Producer, cancels: bool, i: nat)
    requires |s.producers| == |c.batch| && Local(c, s, j, p, cancels)
    requires i < |c.batch| && ScriptDone(c.batch[i], s.producers[i])
    ensures ScriptDone(c.batch[i], s.producers[j := p][i])
  {
  }

  lemma LocalKeepsPanics(c: Config, s: State, j: nat, p: Producer, cancels: bool)
    requires |s.producers| == |c.batch| && Local(c, s, j, p, cancels) && (SomePanicked(s.producers) || cancels)
    ensures SomePanicked(s.producers[j := p])
  {
    var ps := s.producers[j := p];
    if SomePanicked(s.producers) {
      var i :| 0 <= i < |s.producers| && HasOutcome(s.producers[i]) && s.producers[i].panicked;
      assert HasOutcome(ps[i]) && ps[i].panicked;
    } else {
      assert HasOutcome(ps[j]) && ps[j].panicked;
    }
  }

  lemma LocalKeepsConsumer(c: Config, s: State, j: nat, p: Producer, cancels: bool)
    requires Inv(c, s) && Local(c, s, j, p, cancels)
    ensures ConsumerInv(c, SetProducer(s, j, p).(cancelled := s.cancelled || cancels))
  {
    hide ProducersInv, StreamInv, ProducerFits, OnScript, Positioned;
    LocalKeepsPosition(c, s, j, p, cancels);
    if SomePanicked(s.producers) || cancels { LocalKeepsPanics(c, s, j, p, cancels); }
    forall i | 0 <= i < |c.batch| && ScriptDone(c.batch[i], s.producers[i])
      ensures ScriptDone(c.batch[i], s.producers[j := p][i])
    {
      LocalKeepsDone(c, s, j, p, cancels, i);
    }
  }

  lemma ProducerStepIsLocal(c: Config, s: State, e: Event)
    requires Inv(c, s) && Enabled(c, s, e)
    requires e.Check? || e.Offer? || e.Finish? || e.GiveUp? || e.Abandon? || e.Close? || e.Join?
    ensures var s' := Apply(c, s, e);
            Local(c, s, e.j, s'.producers[e.j], s'.cancelled && !s.cancelled) &&
            s' == SetProducer(s, e.j, s'.producers[e.j]).(cancelled := s'.cancelled)
  {
    assert ProducerFits(c.batch[e.j], s.producers[e.j]);
  }

  lemma StepProducer(c: Config, s: State, e: Event)
    requires Inv(c, s) && Enabled(c, s, e)
    requires e.Check? || e.Offer? || e.Finish? || e.GiveUp? || e.Abandon? || e.Close? || e.Join?
    ensures Inv(c, Apply(c, s, e))
  {
    ProducerStepIsLocal(c, s, e);
    var s' := Apply(c, s, e);
    LocalKeepsProducers(c, s, e.j, s'.producers[e.j], s'.cancelled && !s.cancelled);
    LocalKeepsConsumer(c, s, e.j, s'.producers[e.j], s'.cancelled && !s.cancelled);
    assert StreamInv(c, s');
  }

  lemma StepParentCancel(c: Config, s: State, e: Event)
    requires Inv(c, s) && Enabled(c, s, e)
    requires e.ParentCancel?
    ensures Inv(c, Apply(c, s, e))
  {
  }

  lemma StepReceive(c: Config, s: State, e: Event)
    requires Inv(c, s) && Enabled(c, s, e)
    requires e.Receive?
    ensures Inv(c, Apply(c, s, e))
  {
  }

  lemma StepSeeClosed(c: Config, s: State, e: Event)
    requires Inv(c, s) && Enabled(c, s, e)
    requires e.SeeClosed?
    requires Pos(c, s.main.i + 1, 0) == Pos(c, s.main.i, |c.batch[s.main.i].rows|)
    requires s.main.i + 1 == |c.batch| ==> |c.stream| == Pos(c, s.main.i + 1, 0)
    ensures Inv(c, Apply(c, s, e))
  {
  }

  lemma StepCheckHeld(c: Config, s: State, e: Event)
    requires Inv(c, s) && Enabled(c, s, e)
    requires e.CheckHeld?
    ensures Inv(c, Apply(c, s, e))
  {
  }

  lemma StepSeeDone(c: Config, s: State, e: Event)
    requires Inv(c, s) && Enabled(c, s, e)
    requires e.SeeDone?
    ensures Inv(c, Apply(c, s, e))
  {
  }

  lemma StepCancel(c: Config, s: State, e: Event)
    requires Inv(c, s) && Enabled(c, s, e)
    requires e.Cancel?
    ensures Inv(c, Apply(c, s, e))
  {
  }

  lemma StepReturn(c: Config, s: State, e: Event)
    requires Inv(c, s) && Enabled(c, s, e)
    requires e.Return?
    ensures Inv(c, Apply(c, s, e))
  {
  }

  lemma AckKeepsProducers(c: Config, s: State, e: Event)
    requires Inv(c, s) && Enabled(c, s, e) && e.Ack?
    ensures ProducersInv(c, Apply(c, s, e))
  {
  }

  lemma AckKeepsConsumer(c: Config, s: State, e: Event)
    requires Inv(c, s) && Enabled(c, s, e) && e.Ack?
    ensures ConsumerInv(c, Apply(c, s, e))
  {
    var s' := Apply(c, s, e);
    assert s'.producers == s.producers[s.main.i := s'.producers[s.main.i]];
    if SomePanicked(s.producers) {
      var j :| 0 <= j < |s.producers| && HasOutcome(s.producers[j]) && s.producers[j].panicked;
      assert HasOutcome(s'.producers[j]) && s'.producers[j].panicked;
    }
  }

  lemma StepAck(c: Config, s: State, e: Event)
    requires Inv(c, s) && Enabled(c, s, e) && e.Ack?
    ensures Inv(c, Apply(c, s, e))
  {
    AckKeepsProducers(c, s, e);
    AckKeepsConsumer(c, s, e);
    assert StreamInv(c, Apply(c, s, e));
  }

  lemma AcceptOne(consumer: Consumer, base: seq<Row>, accepted: seq<Row>, row: Row)
    requires AllAccepted(consumer, base, accepted) && consumer(accepted + [row]) == Accept
    ensures AllAccepted(consumer, base, accepted + [row])
  {
    var handed := accepted + [row];
    forall n | |base| < n <= |handed| ensures consumer(handed[..n]) == Accept {
      if n == |handed| { assert handed[..n] == handed; } else { assert handed[..n] == accepted[..n]; }
    }
  }

  lemma CallKeepsStream(c: Config, s: State, e: Event)
    requires Inv(c, s) && Enabled(c, s, e) && e.Call?
    requires Pos(c, s.main.i, s.main.m) < |c.stream| && c.stream[Pos(c, s.main.i, s.main.m)] == s.main.row
    ensures StreamInv(c, Apply(c, s, e)) && ProducersInv(c, Apply(c, s, e))
  {
    var s' := Apply(c, s, e);
    var handed := s.accepted + [s.main.row];
    assert Handed(s') == handed == c.stream[..|handed|];
    if c.consumer(handed).Accept? {
      AcceptOne(c.consumer, c.base, s.accepted, s.main.row);
    }
  }

  lemma CallKeepsConsumer(c: Config, s: State, e: Event)
    requires Inv(c, s) && Enabled(c, s, e) && e.Call?
    ensures ConsumerInv(c, Apply(c, s, e))
  {
    hide ProducersInv, StreamInv, ProducerFits, OnScript;
    var handed := s.accepted + [s.main.row];
    match c.consumer(handed) {
      case Accept => CallAccepted(c, s);
      case Reject(err) => CallRejected(c, s, err);
      case Blow => CallBlew(c, s);
    }
  }

  lemma CallAccepted(c: Config, s: State)
    requires Inv(c, s) && Enabled(c, s, Call) && c.consumer(s.accepted + [s.main.row]) == Accept
    ensures ConsumerInv(c, Apply(c, s, Call))
  {
    hide ProducersInv, StreamInv, ProducerFits, OnScript;
  }

  lemma CallRejected(c: Config, s: State, err: Error)
    requires Inv(c, s) && Enabled(c, s, Call) && c.consumer(s.accepted + [s.main.row]) == Reject(err)
    ensures ConsumerInv(c, Apply(c, s, Call))
  {
    hide ProducersInv, StreamInv, ProducerFits, OnScript;
  }

  lemma CallBlew(c: Config, s: State)
    requires Inv(c, s) && Enabled(c, s, Call) && c.consumer(s.accepted + [s.main.row]) == Blow
    ensures ConsumerInv(c, Apply(c, s, Call))
  {
    hide ProducersInv, StreamInv, ProducerFits, OnScript;
  }

  lemma StepCall(c: Config, s: State, e: Event)
    requires Inv(c, s) && Enabled(c, s, e) && e.Call?
    requires Pos(c, s.main.i, s.main.m) < |c.stream| && c.stream[Pos(c, s.main.i, s.main.m)] == s.main.row
    ensures Inv(c, Apply(c, s, e))
  {
    hide ConsumerInv, ProducersInv, StreamInv;
    CallKeepsStream(c, s, e);
    CallKeepsConsumer(c, s, e);
    assert |Apply(c, s, e).producers| == |c.batch|;
  }

  /** The row the consumer is called with is the next one of the stream. */
  lemma NextRow(c: Config, s: State)
    requires c == ConfigFor(c.batch, c.consumer, c.base)
    requires Inv(c, s) && s.main.Calling?
    ensures s.main.i < |c.batch|
    ensures Pos(c, s.main.i, s.main.m) < |c.stream| && c.stream[Pos(c, s.main.i, s.main.m)] == s.main.row
  {
    hide ProducersInv, StreamInv;
    StreamAt(c, s.main.i, s.main.m);
  }

  lemma CallKeeps(c: Config, s: State, e: Event)
    requires c == ConfigFor(c.batch, c.consumer, c.base)
    requires Inv(c, s) && Enabled(c, s, e) && e.Call?
    ensures Inv(c, Apply(c, s, e))
  {
    hide ProducersInv, StreamInv, ConsumerInv, Apply;
    NextRow(c, s);
    StepCall(c, s, e);
  }

  lemma ClosedKeeps(c: Config, s: State, e: Event)
    requires c == ConfigFor(c.batch, c.consumer, c.base)
    requires Inv(c, s) && Enabled(c, s, e) && e.SeeClosed?
    ensures Inv(c, Apply(c, s, e))
  {
    hide ProducersInv, StreamInv, ConsumerInv, Apply;
    NextStart(c, s.main.i);
    StepSeeClosed(c, s, e);
  }

  lemma SizeOf(c: Config, s: State)
    requires Inv(c, s)
    ensures |s.producers| == |c.batch| && |c.starts| == |c.batch| + 1
  {
  }

  /** Every step of every goroutine keeps the invariant. */
  lemma StepInv(c: Config, s: State, e: Event)
    requires c == ConfigFor(c.batch, c.consumer, c.base)
    requires Inv(c, s) && Enabled(c, s, e)
    ensures Inv(c, Apply(c, s, e))
  {
    SizeOf(c, s);
    hide Inv, Apply;
    match e {
      case ParentCancel => StepParentCancel(c, s, e);
      case Receive => StepReceive(c, s, e);
      case SeeClosed => ClosedKeeps(c, s, e);
      case CheckHeld => StepCheckHeld(c, s, e);
      case Call => CallKeeps(c, s, e);
      case Ack => StepAck(c, s, e);
      case SeeDone => StepSeeDone(c, s, e);
      case Cancel => StepCancel(c, s, e);
      case Return => StepReturn(c, s, e);
      case _ => StepProducer(c, s, e);
    }
  }

  // ----- what a returned batch reports

  function WithFailure(failures: seq<Error>, failure: Option<Error>): seq<Error> {
    match failure
    case None => failures
    case Some(e) => failures + [e]
  }

  function ScriptFailures(srcs: seq<Source>): seq<Error> {
    if srcs == [] then []
    else WithFailure(ScriptFailures(srcs[..|srcs| - 1]),
                     match srcs[|srcs| - 1].end case Returns(f) => f case Panics => None)
  }

  predicate AllReturn(srcs: seq<Source>) { forall j | 0 <= j < |srcs| :: srcs[j].end.Returns? }

  predicate SomeCanPanic(srcs: seq<Source>) {
    exists j | 0 <= j < |srcs| :: srcs[j].end.Panics? || srcs[j].panicsWhenStopped
  }

  /** The contract of `searchBatch`, for any interleaving, cancellation, refusal and panic. */
  ghost predicate Reported(c: Config, s: State)
    requires s.main.Returned?
  {
    && AllJoined(s.producers)
    && Handed(s) <= c.stream
    && AllAccepted(c.consumer, c.base, s.accepted)
    && match s.main.result
       case Panicked =>
         SomeCanPanic(c.batch) || (s.refused.Some? && c.consumer(s.accepted + [s.refused.value]) == Blow)
       case Done(failures, None) =>
         s.refused.None? &&
         (!s.parentCancelled ==> s.accepted == c.stream && failures == ScriptFailures(c.batch) && AllReturn(c.batch))
       case Done(_, Some(e)) =>
         && s.refused.Some? && c.consumer(s.accepted + [s.refused.value]) == Reject(e)
         && s.main.exit.Refused? && s.main.exit.i < |c.batch|
         && Start(c.batch, s.main.exit.i) <= |s.accepted| - |c.base| < Start(c.batch, s.main.exit.i + 1)
         && forall j | 0 <= j < s.main.exit.i :: c.batch[j].end.Returns?
  }

  /** A batch whose producers all finished their scripts reports exactly the scripts' failures. */
  lemma {:induction false} DoneFailures(batch: seq<Source>, ps: seq<Producer>)
    requires |batch| == |ps| && forall j | 0 <= j < |ps| :: ScriptDone(batch[j], ps[j])
    ensures Failures(ps) == ScriptFailures(batch)
    decreases |ps|
  {
    if ps != [] {
      var n := |ps| - 1;
      assert ScriptDone(batch[n], ps[n]);
      forall j | 0 <= j < n ensures ScriptDone(batch[..n][j], ps[..n][j]) {
        assert ScriptDone(batch[j], ps[j]);
      }
      DoneFailures(batch[..n], ps[..n]);
    }
  }

  lemma PanickedCanPanic(batch: seq<Source>, ps: seq<Producer>)
    requires |batch| == |ps| && forall j | 0 <= j < |ps| :: ProducerFits(batch[j], ps[j])
    requires SomePanicked(ps)
    ensures SomeCanPanic(batch)
  {
    var j :| 0 <= j < |ps| && HasOutcome(ps[j]) && ps[j].panicked;
    assert ProducerFits(batch[j], ps[j]);
  }

  lemma DoneReturns(batch: seq<Source>, ps: seq<Producer>)
    requires |batch| == |ps| && forall j | 0 <= j < |ps| :: ScriptDone(batch[j], ps[j])
    ensures AllReturn(batch) && !SomePanicked(ps)
  {
    forall j | 0 <= j < |ps| ensures batch[j].end.Returns? && !ps[j].panicked {
      assert ScriptDone(batch[j], ps[j]);
    }
  }

  /** When `searchBatch` returns, every producer is joined and the report is the contract's. */
  lemma BatchReports(c: Config, s: State)
    requires c == ConfigFor(c.batch, c.consumer, c.base)
    requires Inv(c, s) && s.main.Returned?
    ensures Reported(c, s)
  {
    if SomePanicked(s.producers) { PanickedCanPanic(c.batch, s.producers); }
    match s.main.exit {
      case Complete =>
        DoneFailures(c.batch, s.producers);
        DoneReturns(c.batch, s.producers);
      case Interrupted =>
      case Blew(_) =>
      case Refused(i, _) =>
        assert c.starts[i] == Start(c.batch, i) && c.starts[i + 1] == Start(c.batch, i + 1);
        forall j | 0 <= j < i ensures c.batch[j].end.Returns? {
          assert ScriptDone(c.batch[j], s.producers[j]);
        }
    }
  }

  lemma AcceptedRow(c: Config, accepted: seq<Row>, j: nat, k: nat)
    requires c == ConfigFor(c.batch, c.consumer, c.base) && j < |c.batch| && k < |c.batch[j].rows|
    requires accepted <= c.stream && AllAccepted(c.consumer, c.base, accepted)
    requires |c.base| + Start(c.batch, j) + k < |accepted|
    ensures accepted[|c.base| + Start(c.batch, j) + k] == c.batch[j].rows[k]
    ensures c.consumer(accepted[..|c.base| + Start(c.batch, j) + k + 1]) == Accept
  {
    assert c.starts[j] == Start(c.batch, j);
    StreamAt(c, j, k);
  }

  /** A row whose Emit returned nil was accepted, at its own place in the registry-order stream. */
  lemma EmitTold(c: Config, s: State, j: nat, k: nat)
    requires c == ConfigFor(c.batch, c.consumer, c.base) && Inv(c, s)
    requires j < |c.batch| && k < s.producers[j].sent
    ensures k < |c.batch[j].rows|
    ensures var at := |c.base| + Start(c.batch, j) + k;
            && at < |s.accepted|
            && s.accepted[at] == c.batch[j].rows[k]
            && c.consumer(s.accepted[..at + 1]) == Accept
  {
    assert ProducerFits(c.batch[j], s.producers[j]);
    assert c.starts[j] == Start(c.batch, j);
    assert Pos(c, j, s.producers[j].sent) <= |s.accepted|;
    assert s.accepted <= Handed(s) <= c.stream;
    AcceptedRow(c, s.accepted, j, k);
  }

  // ----- no stuck state, and a bound on the number of steps

  /** Some goroutine other than the caller's own context can always step until the call returns. */
  lemma Progress(c: Config, s: State) returns (e: Event)
    requires Inv(c, s) && !s.main.Returned?
    ensures Enabled(c, s, e) && !e.ParentCancel?
  {
    if AllJoined(s.producers) {
      e := match s.main
           case Receiving(_, _) => SeeClosed
           case Holding(_, _, _) => CheckHeld
           case Calling(_, _, _) => Call
           case Acking(_, _, _) => SeeDone
           case Leaving(_) => Cancel
           case _ => Return;
    } else {
      var j :| 0 <= j < |s.producers| && !s.producers[j].at.Joined?;
      var p := s.producers[j];
      assert ProducerFits(c.batch[j], p);
      e := if p.at.Begin? then Check(j)
           else if p.at.Working? then if p.sent < |c.batch[j].rows| then Offer(j) else Finish(j)
           else if p.at.Stopped? then Abandon(j, None, false)
           else if p.at.Ended? then Close(j)
           else if p.at.Closed? then Join(j)
           else if s.cancelled then GiveUp(j)
           else ConsumerProgress(c, s);
    }
  }

  /** While nothing is cancelled the consumer goroutine, or the producer it waits for, can step. */
  ghost function ConsumerProgress(c: Config, s: State): (e: Event)
    requires Inv(c, s) && !s.cancelled
    ensures Enabled(c, s, e) && !e.ParentCancel?
  {
    match s.main
    case Receiving(i, _) =>
      var p := s.producers[i];
      assert ProducerFits(c.batch[i], p);
      (match p.at
       case Begin => Check(i)
       case Working => if p.sent < |c.batch[i].rows| then Offer(i) else Finish(i)
       case Offering => Receive
       case Ended => Close(i)
       case _ => SeeClosed)
    case Holding(_, _, _) => CheckHeld
    case Calling(_, _, _) => Call
    case Acking(_, _, _) => Ack
    case _ => Cancel
  }

  function ProducerRank(src: Source, p: Producer): nat {
    var left := if p.sent <= |src.rows| then |src.rows| - p.sent else 0;
    match p.at
    case Begin => 8 * left + 9
    case Working => 8 * left + 8
    case Offering => 8 * left + 7
    case Awaiting => 8 * left + 3
    case Stopped => 3
    case Ended => 2
    case Closed => 1
    case Joined => 0
  }

  function ProducersRank(batch: seq<Source>, ps: seq<Producer>): nat
    requires |batch| == |ps|
  {
    if ps == [] then 0
    else ProducersRank(batch[..|ps| - 1], ps[..|ps| - 1]) + ProducerRank(batch[|ps| - 1], ps[|ps| - 1])
  }

  function MainRank(n: nat, m: Main): nat {
    match m
    case Receiving(i, _) => if i < n then 4 * (n - i) + 4 else 4
    case Holding(i, _, _) => if i < n then 4 * (n - i) + 7 else 7
    case Calling(i, _, _) => if i < n then 4 * (n - i) + 6 else 6
    case Acking(i, _, _) => if i < n then 4 * (n - i) + 5 else 5
    case Leaving(_) => 2
    case Joining(_) => 1
    case Returned(_, _) => 0
  }

  function Rank(c: Config, s: State): nat
    requires |s.producers| == |c.batch|
  {
    ProducersRank(c.batch, s.producers) + MainRank(|c.batch|, s.main)
  }

  lemma {:induction false} RankUpdate(batch: seq<Source>, ps: seq<Producer>, j: nat, p: Producer)
    requires |batch| == |ps| && j < |ps|
    ensures ProducersRank(batch, ps[j := p]) + ProducerRank(batch[j], ps[j])
            == ProducersRank(batch, ps) + ProducerRank(batch[j], p)
    decreases |ps|
  {
    var n := |ps| - 1;
    if j == n {
      assert ps[j := p][..n] == ps[..n];
    } else {
      RankUpdate(batch[..n], ps[..n], j, p);
      assert ps[j := p][..n] == ps[..n][j := p];
    }
  }

  /** The producer a step moves, if it moves one. */
  function Moved(s: State, e: Event): Option<nat> {
    match e
    case Check(j) => Some(j)
    case Offer(j) => Some(j)
    case Finish(j) => Some(j)
    case GiveUp(j) => Some(j)
    case Abandon(j, _, _) => Some(j)
    case Close(j) => Some(j)
    case Join(j) => Some(j)
    case Receive => if s.main.Receiving? then Some(s.main.i) else None
    case Ack => if s.main.Acking? then Some(s.main.i) else None
    case _ => None
  }

  lemma RendezvousLowers(c: Config, s: State, e: Event)
    requires Enabled(c, s, e) && (e.Receive? || e.Ack?)
    requires ProducerFits(c.batch[s.main.i], s.producers[s.main.i])
    ensures var s' := Apply(c, s, e);
            var j := s.main.i;
            && s'.producers == s.producers[j := s'.producers[j]]
            && ProducerRank(c.batch[j], s'.producers[j]) + MainRank(|c.batch|, s'.main)
               < ProducerRank(c.batch[j], s.producers[j]) + MainRank(|c.batch|, s.main)
  {
  }

  lemma MoveLowers(c: Config, s: State, e: Event)
    requires Enabled(c, s, e) && Moved(s, e).Some? && !e.Receive? && !e.Ack?
    requires ProducerFits(c.batch[Moved(s, e).value], s.producers[Moved(s, e).value])
    ensures var s' := Apply(c, s, e);
            var j := Moved(s, e).value;
            && s'.producers == s.producers[j := s'.producers[j]]
            && ProducerRank(c.batch[j], s'.producers[j]) + MainRank(|c.batch|, s'.main)
               < ProducerRank(c.batch[j], s.producers[j]) + MainRank(|c.batch|, s.main)
  {
  }

  lemma MainLowers(c: Config, s: State, e: Event)
    requires Enabled(c, s, e) && Moved(s, e).None? && !e.ParentCancel?
    ensures Apply(c, s, e).producers == s.producers
    ensures MainRank(|c.batch|, Apply(c, s, e).main) < MainRank(|c.batch|, s.main)
  {
  }

  /** Every step but the caller's own cancellation strictly lowers the rank, which cancellation keeps. */
  lemma StepRank(c: Config, s: State, e: Event)
    requires Inv(c, s) && Enabled(c, s, e)
    ensures |Apply(c, s, e).producers| == |c.batch|
    ensures e.ParentCancel? ==> Rank(c, Apply(c, s, e)) == Rank(c, s)
    ensures !e.ParentCancel? ==> Rank(c, Apply(c, s, e)) < Rank(c, s)
  {
    if Moved(s, e).Some? {
      assert ProducerFits(c.batch[Moved(s, e).value], s.producers[Moved(s, e).value]);
      if e.Receive? || e.Ack? { RendezvousLowers(c, s, e); } else { MoveLowers(c, s, e); }
      var j := Moved(s, e).value;
      RankUpdate(c.batch, s.producers, j, Apply(c, s, e).producers[j]);
    } else if !e.ParentCancel? {
      MainLowers(c, s, e);
    }
  }

  /** The rank a batch starts with. */
  lemma {:induction false} InitRank(c: Config, n: nat)
    requires n <= |c.batch|
    ensures ProducersRank(c.batch[..n], seq(n, _ => Producer(Begin, 0, None, false))) == 8 * Start(c.batch, n) + 9 * n
  {
    if n > 0 {
      InitRank(c, n - 1);
      var ps := seq(n, _ => Producer(Begin, 0, None, false));
      assert ps[..n - 1] == seq(n - 1, _ => Producer(Begin, 0, None, false));
      assert c.batch[..n][..n - 1] == c.batch[..n - 1];
    }
  }

  lemma FirstRank(c: Config, parentCancelled: bool)
    ensures Rank(c, Init(c, parentCancelled)) <= 8 * Start(c.batch, |c.batch|) + 13 * |c.batch| + 4
  {
    InitRank(c, |c.batch|);
    assert c.batch[..|c.batch|] == c.batch;
  }
}
