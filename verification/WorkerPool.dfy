/**
 The website search: a fixed pool of workers over unbuffered job and result channels, a submitter
 goroutine, and a consumer that drains the results and joins everything before it returns.
 */
module WorkerPool {
  import opened Common

  datatype Site = Site(url: string, disabled: bool)

  datatype Verdict = Accept | Reject(code: nat) | Blow

  /** Jobs and results are named by the index of their site. */
  type Consumer = seq<nat> -> Verdict

  datatype Worker = Idle | Processing(site: nat) | Sending(site: nat) | Exited

  datatype Submitter =
    | Checking(next: nat) | Offering(next: nat) | Closing(next: nat) | JobsClosed(next: nat) | Submitted(next: nat)

  datatype SearchResult = Finished | ConsumerFailed(code: nat) | ContextDone | Panicked

  datatype Main =
    | Draining
    | Consuming(site: nat)
    | AwaitingSubmitter
    | Unwinding(result: SearchResult)
    | Discarding(result: SearchResult)
    | Joining(result: SearchResult)
    | Returned(result: SearchResult)

  /** `dropped` is history: results and jobs that cancellation or a refused row threw away. */
  datatype State = State(
    workers: seq<Worker>,
    submitter: Submitter,
    main: Main,
    parentCancelled: bool,
    cancelled: bool,
    resultsClosed: bool,
    consumerErr: Option<nat>,
    delivered: seq<nat>,
    dropped: seq<nat>)

  datatype Config = Config(sites: seq<Site>, consumer: Consumer)

  datatype Event =
    | ParentCancel
    | Submit(w: nat)
    | CheckSite
    | StopSubmitting
    | CloseJobs
    | FinishSubmitting
    | Process(w: nat)
    | Exit(w: nat)
    | CloseResults
    | Receive(w: nat)
    | Emit
    | SeeResultsClosed
    | SeeSubmitted
    | Cancel

  function Init(workers: nat): State {
    State(seq(workers, _ => Idle), Checking(0), Draining, false, false, false, None, [], [])
  }

  predicate Eligible(s: Site) { s.url != "" && !s.disabled }

  predicate JobsAreClosed(s: Submitter) { s.JobsClosed? || s.Submitted? }

  predicate AllExited(ws: seq<Worker>) { forall w | 0 <= w < |ws| :: ws[w].Exited? }

  predicate Enabled(c: Config, s: State, e: Event) {
    match e
    case ParentCancel => !s.parentCancelled && !s.main.Returned?
    case Submit(w) => s.submitter.Offering? && w < |s.workers| && s.workers[w].Idle?
    case CheckSite => s.submitter.Checking?
    case StopSubmitting => s.submitter.Offering? && s.cancelled
    case CloseJobs => s.submitter.Closing?
    case FinishSubmitting => s.submitter.JobsClosed?
    case Process(w) => w < |s.workers| && s.workers[w].Processing?
    case Exit(w) =>
      w < |s.workers| &&
      ((s.workers[w].Idle? && (s.cancelled || JobsAreClosed(s.submitter))) || (s.workers[w].Sending? && s.cancelled))
    case CloseResults => !s.resultsClosed && AllExited(s.workers)
    case Receive(w) => w < |s.workers| && s.workers[w].Sending? && (s.main.Draining? || s.main.Discarding?)
    case Emit => s.main.Consuming?
    case SeeResultsClosed => s.resultsClosed && (s.main.Draining? || s.main.Discarding?)
    case SeeSubmitted => s.submitter.Submitted? && (s.main.AwaitingSubmitter? || s.main.Joining?)
    case Cancel => s.main.Unwinding?
  }

  function ReturnValue(s: State): SearchResult {
    match s.consumerErr
    case Some(code) => ConsumerFailed(code)
    case None => if s.cancelled then ContextDone else Finished
  }

  function Apply(c: Config, s: State, e: Event): State
    requires Enabled(c, s, e)
  {
    match e
    case ParentCancel => s.(parentCancelled := true, cancelled := true)
    case Submit(w) =>
      var next := s.submitter.next;
      s.(workers := s.workers[w := Processing(next)], submitter := Checking(next + 1))
    case CheckSite =>
      var next := s.submitter.next;
      if next >= |c.sites| then s.(submitter := Closing(next))
      else if !Eligible(c.sites[next]) then s.(submitter := Checking(next + 1))
      else s.(submitter := if s.cancelled then Closing(next) else Offering(next))
    case StopSubmitting => s.(submitter := Closing(s.submitter.next))
    case CloseJobs => s.(submitter := JobsClosed(s.submitter.next))
    case FinishSubmitting => s.(submitter := Submitted(s.submitter.next))
    case Process(w) => s.(workers := s.workers[w := Sending(s.workers[w].site)])
    case Exit(w) =>
      s.(workers := s.workers[w := Exited],
         dropped := if s.workers[w].Sending? then s.dropped + [s.workers[w].site] else s.dropped)
    case CloseResults => s.(resultsClosed := true)
    case Receive(w) =>
      var site := s.workers[w].site;
      if s.main.Draining? && s.consumerErr.None? then
        s.(workers := s.workers[w := Idle], main := Consuming(site))
      else
        s.(workers := s.workers[w := Idle], dropped := s.dropped + [site])
    case Emit =>
      (match c.consumer(s.delivered + [s.main.site])
       case Accept => s.(delivered := s.delivered + [s.main.site], main := Draining)
       case Reject(code) =>
         s.(consumerErr := Some(code), cancelled := true, main := Draining, dropped := s.dropped + [s.main.site])
       case Blow => s.(main := Unwinding(Panicked), dropped := s.dropped + [s.main.site]))
    case SeeResultsClosed => s.(main := if s.main.Draining? then AwaitingSubmitter else Joining(s.main.result))
    case SeeSubmitted =>
      s.(main := if s.main.AwaitingSubmitter? then Unwinding(ReturnValue(s)) else Returned(s.main.result))
    case Cancel => s.(cancelled := true, main := Discarding(s.main.result))
  }

  // ----- conservation of jobs

  function Count(xs: seq<nat>, i: nat): nat {
    if xs == [] then 0 else Count(xs[..|xs| - 1], i) + (if xs[|xs| - 1] == i then 1 else 0)
  }

  function Load(w: Worker, i: nat): nat {
    if (w.Processing? || w.Sending?) && w.site == i then 1 else 0
  }

  function InFlight(ws: seq<Worker>, i: nat): nat {
    if ws == [] then 0 else InFlight(ws[..|ws| - 1], i) + Load(ws[|ws| - 1], i)
  }

  /** In how many places the job of site `i` is. */
  function Places(s: State, i: nat): nat {
    Count(s.delivered, i) + Count(s.dropped, i) + (if s.main.Consuming? && s.main.site == i then 1 else 0)
    + InFlight(s.workers, i)
  }

  function Due(c: Config, next: nat, i: nat): nat {
    if i < next && i < |c.sites| && Eligible(c.sites[i]) then 1 else 0
  }

  lemma {:induction false} InFlightUpdate(ws: seq<Worker>, w: nat, x: Worker, i: nat)
    requires w < |ws|
    ensures InFlight(ws[w := x], i) + Load(ws[w], i) == InFlight(ws, i) + Load(x, i)
    decreases |ws|
  {
    var n := |ws| - 1;
    if w == n {
      assert ws[w := x][..n] == ws[..n];
    } else {
      InFlightUpdate(ws[..n], w, x, i);
      assert ws[w := x][..n] == ws[..n][w := x];
    }
  }

  lemma {:induction false} NothingInFlight(ws: seq<Worker>, i: nat)
    requires AllExited(ws)
    ensures InFlight(ws, i) == 0
    decreases |ws|
  {
    if ws != [] {
      NothingInFlight(ws[..|ws| - 1], i);
    }
  }

  /** Every submitted job is in exactly one place. */
  ghost predicate Conserved(c: Config, s: State) {
    && s.submitter.next <= |c.sites|
    && forall i: nat :: Places(s, i) == Due(c, s.submitter.next, i)
  }

  ghost predicate Inv(c: Config, s: State) {
    && Conserved(c, s)
    && (s.submitter.Offering? ==> s.submitter.next < |c.sites| && Eligible(c.sites[s.submitter.next]))
    && (s.parentCancelled ==> s.cancelled)
    && (s.submitter.Closing? || JobsAreClosed(s.submitter) ==> s.cancelled || s.submitter.next == |c.sites|)
    && (forall w | 0 <= w < |s.workers| && s.workers[w].Exited? :: s.cancelled || JobsAreClosed(s.submitter))
    && (s.resultsClosed ==> AllExited(s.workers))
    && (s.consumerErr.Some? ==> s.cancelled)
    && (!s.cancelled && !s.main.Unwinding? ==> s.dropped == [])
    && (s.main.AwaitingSubmitter? || s.main.Joining? || s.main.Returned? ==> s.resultsClosed)
    && (s.main.Discarding? || s.main.Joining? || s.main.Returned? ==> s.cancelled)
    && ((s.main.Unwinding? || s.main.Discarding? || s.main.Joining?) && !s.main.result.Panicked? ==>
          s.resultsClosed && s.submitter.Submitted?)
    && (s.main.Returned? ==> s.submitter.Submitted?)
    && AllAccepted(c.consumer, s.delivered)
    && (s.main.Unwinding? || s.main.Discarding? || s.main.Joining? || s.main.Returned? ==> Told(c, s, s.main.result))
    && (s.consumerErr.None? && s.cancelled && (s.main.Draining? || s.main.Consuming? || s.main.AwaitingSubmitter?) ==>
        s.parentCancelled)
  }

  ghost predicate AllAccepted(consumer: Consumer, delivered: seq<nat>) {
    forall n | 0 < n <= |delivered| :: consumer(delivered[..n]) == Accept
  }

  /** What a return value says about the deliveries. */
  ghost predicate Told(c: Config, s: State, r: SearchResult) {
    match r
    case Finished =>
      s.dropped == [] && forall i: nat :: Count(s.delivered, i) == Due(c, |c.sites|, i)
    case ContextDone => s.parentCancelled
    case ConsumerFailed(code) => s.consumerErr == Some(code)
    case Panicked => true
  }

  lemma InitInv(c: Config, workers: nat)
    ensures Inv(c, Init(workers))
  {
    forall i: nat ensures Places(Init(workers), i) == 0 { IdleInFlight(workers, i); }
  }

  lemma {:induction false} IdleInFlight(n: nat, i: nat)
    ensures InFlight(seq(n, _ => Idle), i) == 0
  {
    if n > 0 {
      IdleInFlight(n - 1, i);
      assert seq(n, _ => Idle)[..n - 1] == seq(n - 1, _ => Idle);
    }
  }

  lemma AcceptOne(consumer: Consumer, delivered: seq<nat>, site: nat)
    requires AllAccepted(consumer, delivered) && consumer(delivered + [site]) == Accept
    ensures AllAccepted(consumer, delivered + [site])
  {
    var more := delivered + [site];
    forall n | 0 < n <= |more| ensures consumer(more[..n]) == Accept {
      if n == |more| { assert more[..n] == more; } else { assert more[..n] == delivered[..n]; }
    }
  }

  lemma CountOne(xs: seq<nat>, x: nat, i: nat)
    ensures Count(xs + [x], i) == Count(xs, i) + (if x == i then 1 else 0)
  {
    assert (xs + [x])[..|xs|] == xs;
  }

  lemma ProcessPlaces(c: Config, s: State, w: nat, i: nat)
    requires Enabled(c, s, Process(w))
    ensures Places(Apply(c, s, Process(w)), i) == Places(s, i)
  {
    InFlightUpdate(s.workers, w, Sending(s.workers[w].site), i);
  }

  lemma ExitPlaces(c: Config, s: State, w: nat, i: nat)
    requires Enabled(c, s, Exit(w))
    ensures Places(Apply(c, s, Exit(w)), i) == Places(s, i)
  {
    InFlightUpdate(s.workers, w, Exited, i);
    if s.workers[w].Sending? { CountOne(s.dropped, s.workers[w].site, i); }
  }

  lemma ReceivePlaces(c: Config, s: State, w: nat, i: nat)
    requires Enabled(c, s, Receive(w))
    ensures Places(Apply(c, s, Receive(w)), i) == Places(s, i)
  {
    InFlightUpdate(s.workers, w, Idle, i);
    CountOne(s.dropped, s.workers[w].site, i);
  }

  lemma EmitPlaces(c: Config, s: State, i: nat)
    requires Enabled(c, s, Emit)
    ensures Places(Apply(c, s, Emit), i) == Places(s, i)
  {
    if c.consumer(s.delivered + [s.main.site]).Accept? {
      CountOne(s.delivered, s.main.site, i);
    } else {
      CountOne(s.dropped, s.main.site, i);
    }
  }

  /** A step moves a job, or submits one, but never copies or loses one. */
  lemma StepPlaces(c: Config, s: State, e: Event, i: nat)
    requires Enabled(c, s, e) && s.submitter.next <= |c.sites|
    requires s.submitter.Offering? ==> s.submitter.next < |c.sites| && Eligible(c.sites[s.submitter.next])
    ensures Places(Apply(c, s, e), i) + Due(c, s.submitter.next, i)
            == Places(s, i) + Due(c, Apply(c, s, e).submitter.next, i)
  {
    match e {
      case Submit(w) => InFlightUpdate(s.workers, w, Processing(s.submitter.next), i);
      case Process(w) => ProcessPlaces(c, s, w, i);
      case Exit(w) => ExitPlaces(c, s, w, i);
      case Receive(w) => ReceivePlaces(c, s, w, i);
      case Emit => EmitPlaces(c, s, i);
      case _ =>
    }
  }

  lemma StepConserves(c: Config, s: State, e: Event)
    requires Inv(c, s) && Enabled(c, s, e)
    ensures Conserved(c, Apply(c, s, e))
  {
    forall i: nat ensures Places(Apply(c, s, e), i) == Due(c, Apply(c, s, e).submitter.next, i) {
      StepPlaces(c, s, e, i);
      assert Places(s, i) == Due(c, s.submitter.next, i);
    }
  }

  /** When the consumer loop has ended undisturbed, each eligible site was delivered exactly once. */
  lemma LoopEnded(c: Config, s: State)
    requires Inv(c, s) && s.main.AwaitingSubmitter? && s.submitter.Submitted?
    ensures Told(c, s, ReturnValue(s))
  {
    if !s.cancelled {
      forall i: nat ensures Count(s.delivered, i) == Due(c, |c.sites|, i) {
        NothingInFlight(s.workers, i);
        assert Places(s, i) == Due(c, |c.sites|, i);
      }
    }
  }

  lemma StepInv(c: Config, s: State, e: Event)
    requires Inv(c, s) && Enabled(c, s, e)
    ensures Inv(c, Apply(c, s, e))
  {
    StepConserves(c, s, e);
    if e.Emit? && c.consumer(s.delivered + [s.main.site]).Accept? {
      AcceptOne(c.consumer, s.delivered, s.main.site);
    }
    if e.SeeSubmitted? && s.main.AwaitingSubmitter? {
      LoopEnded(c, s);
    }
  }

  // ----- no stuck state, and a bound on the number of steps

  /** With at least one worker, some goroutine can always step until the search has returned. */
  lemma Progress(c: Config, s: State) returns (e: Event)
    requires Inv(c, s) && |s.workers| > 0 && !s.main.Returned?
    ensures Enabled(c, s, e) && !e.ParentCancel?
  {
    if AllExited(s.workers) {
      assert s.workers[0].Exited?;
      e := if !s.resultsClosed then CloseResults
           else match s.main
                case Draining => SeeResultsClosed
                case Discarding(_) => SeeResultsClosed
                case Consuming(_) => Emit
                case Unwinding(_) => Cancel
                case _ =>
                  match s.submitter
                  case Checking(_) => CheckSite
                  case Offering(_) => StopSubmitting
                  case Closing(_) => CloseJobs
                  case JobsClosed(_) => FinishSubmitting
                  case Submitted(_) => SeeSubmitted;
    } else {
      var w :| 0 <= w < |s.workers| && !s.workers[w].Exited?;
      e := if s.workers[w].Processing? then Process(w)
           else if s.workers[w].Sending? then
             if s.main.Consuming? then Emit else if s.main.Unwinding? then Cancel else Receive(w)
           else if s.cancelled || JobsAreClosed(s.submitter) then Exit(w)
           else if s.submitter.Checking? then CheckSite
           else if s.submitter.Offering? then Submit(w)
           else CloseJobs;
    }
  }

  function WorkerRank(w: Worker): nat {
    match w
    case Idle => 1
    case Processing(_) => 5
    case Sending(_) => 4
    case Exited => 0
  }

  function WorkersRank(ws: seq<Worker>): nat {
    if ws == [] then 0 else WorkersRank(ws[..|ws| - 1]) + WorkerRank(ws[|ws| - 1])
  }

  function SubmitterRank(c: Config, s: Submitter): nat {
    var left := if s.next <= |c.sites| then |c.sites| - s.next else 0;
    match s
    case Checking(_) => 8 * left + 4
    case Offering(_) => 8 * left + 3
    case Closing(_) => 2
    case JobsClosed(_) => 1
    case Submitted(_) => 0
  }

  function MainRank(m: Main): nat {
    match m
    case Draining => 8
    case Consuming(_) => 10
    case AwaitingSubmitter => 5
    case Unwinding(_) => 4
    case Discarding(_) => 3
    case Joining(_) => 2
    case Returned(_) => 0
  }

  function Rank(c: Config, s: State): nat {
    WorkersRank(s.workers) + SubmitterRank(c, s.submitter) + MainRank(s.main)
    + (if s.resultsClosed then 0 else 1) + (if s.parentCancelled then 0 else 1)
  }

  lemma {:induction false} WorkersRankUpdate(ws: seq<Worker>, w: nat, x: Worker)
    requires w < |ws|
    ensures WorkersRank(ws[w := x]) + WorkerRank(ws[w]) == WorkersRank(ws) + WorkerRank(x)
    decreases |ws|
  {
    var n := |ws| - 1;
    if w == n {
      assert ws[w := x][..n] == ws[..n];
    } else {
      WorkersRankUpdate(ws[..n], w, x);
      assert ws[w := x][..n] == ws[..n][w := x];
    }
  }

  lemma WorkerLowers(c: Config, s: State, e: Event)
    requires Enabled(c, s, e) && (e.Submit? || e.Process? || e.Exit? || e.Receive?)
    requires s.submitter.Offering? ==> s.submitter.next < |c.sites|
    ensures Rank(c, Apply(c, s, e)) < Rank(c, s)
  {
    WorkersRankUpdate(s.workers, e.w, Apply(c, s, e).workers[e.w]);
  }

  lemma OtherLowers(c: Config, s: State, e: Event)
    requires Enabled(c, s, e) && !(e.Submit? || e.Process? || e.Exit? || e.Receive?)
    ensures Rank(c, Apply(c, s, e)) < Rank(c, s)
  {
  }

  /** Every step strictly lowers the rank, the caller's cancellation included. */
  lemma StepRank(c: Config, s: State, e: Event)
    requires Inv(c, s) && Enabled(c, s, e)
    ensures Rank(c, Apply(c, s, e)) < Rank(c, s)
  {
    if e.Submit? || e.Process? || e.Exit? || e.Receive? {
      WorkerLowers(c, s, e);
    } else {
      OtherLowers(c, s, e);
    }
  }

  lemma {:induction false} InitRank(c: Config, workers: nat)
    ensures WorkersRank(seq(workers, _ => Idle)) == workers
    ensures Rank(c, Init(workers)) == workers + 8 * |c.sites| + 14
  {
    if workers > 0 {
      InitRank(c, workers - 1);
      assert seq(workers, _ => Idle)[..workers - 1] == seq(workers - 1, _ => Idle);
    }
  }

  // ----- every run

  ghost predicate Run(c: Config, workers: nat, trace: seq<State>, events: seq<Event>) {
    && |trace| == |events| + 1 && trace[0] == Init(workers)
    && forall n | 0 <= n < |events| :: Enabled(c, trace[n], events[n]) && trace[n + 1] == Apply(c, trace[n], events[n])
  }

  lemma {:induction false} RunInv(c: Config, workers: nat, trace: seq<State>, events: seq<Event>, n: nat)
    requires Run(c, workers, trace, events) && n < |trace|
    ensures Inv(c, trace[n]) && |trace[n].workers| == workers
  {
    if n == 0 {
      InitInv(c, workers);
    } else {
      RunInv(c, workers, trace, events, n - 1);
      StepInv(c, trace[n - 1], events[n - 1]);
    }
  }

  lemma {:induction false} RunRank(c: Config, workers: nat, trace: seq<State>, events: seq<Event>, n: nat)
    requires Run(c, workers, trace, events) && n < |trace|
    ensures Rank(c, trace[n]) + n <= workers + 8 * |c.sites| + 14
  {
    if n == 0 {
      InitRank(c, workers);
    } else {
      RunRank(c, workers, trace, events, n - 1);
      RunInv(c, workers, trace, events, n - 1);
      StepRank(c, trace[n - 1], events[n - 1]);
    }
  }

  /** Every run ends within a bound, and one that cannot be extended has returned. */
  lemma RunsReturn(c: Config, workers: nat, trace: seq<State>, events: seq<Event>)
    requires workers > 0 && Run(c, workers, trace, events)
    ensures |events| <= workers + 8 * |c.sites| + 14
    ensures (forall e :: !Enabled(c, trace[|events|], e)) ==> trace[|events|].main.Returned?
  {
    RunInv(c, workers, trace, events, |events|);
    RunRank(c, workers, trace, events, |events|);
    if !trace[|events|].main.Returned? {
      var e := Progress(c, trace[|events|]);
    }
  }

  /** An undisturbed search delivers exactly one result for each enabled site with a URL, and no other. */
  lemma OneResultPerSite(c: Config, workers: nat, trace: seq<State>, events: seq<Event>, i: nat)
    requires Run(c, workers, trace, events) && trace[|events|].main == Returned(Finished)
    ensures Count(trace[|events|].delivered, i) == (if i < |c.sites| && Eligible(c.sites[i]) then 1 else 0)
  {
    RunInv(c, workers, trace, events, |events|);
  }

  /** A search that nobody cancels and whose consumer accepts everything finishes undisturbed. */
  lemma UndisturbedFinishes(c: Config, workers: nat, trace: seq<State>, events: seq<Event>)
    requires Run(c, workers, trace, events) && trace[|events|].main.Returned?
    requires !trace[|events|].parentCancelled
    requires forall xs :: c.consumer(xs) == Accept
    ensures trace[|events|].main.result == Finished
  {
    NeverRefused(c, workers, trace, events, |events|);
    RunInv(c, workers, trace, events, |events|);
  }

  predicate Unrefused(s: State) {
    && s.consumerErr.None?
    && (s.main.Unwinding? || s.main.Discarding? || s.main.Joining? || s.main.Returned? ==>
          s.main.result.Finished? || s.main.result.ContextDone?)
  }

  lemma StaysUnrefused(c: Config, s: State, e: Event)
    requires Enabled(c, s, e) && Unrefused(s) && forall xs :: c.consumer(xs) == Accept
    ensures Unrefused(Apply(c, s, e))
  {
  }

  lemma {:induction false} NeverRefused(c: Config, workers: nat, trace: seq<State>, events: seq<Event>, n: nat)
    requires Run(c, workers, trace, events) && n < |trace|
    requires forall xs :: c.consumer(xs) == Accept
    ensures Unrefused(trace[n])
  {
    if n > 0 {
      NeverRefused(c, workers, trace, events, n - 1);
      hide Enabled, Apply;
      StaysUnrefused(c, trace[n - 1], events[n - 1]);
    }
  }

  /** Whatever disturbs a search, nothing is live when it returns: workers, submitter and result channel are done. */
  lemma JoinedOnReturn(c: Config, workers: nat, trace: seq<State>, events: seq<Event>)
    requires Run(c, workers, trace, events) && trace[|events|].main.Returned?
    ensures AllExited(trace[|events|].workers) && trace[|events|].resultsClosed && trace[|events|].submitter.Submitted?
    ensures forall code: nat :: trace[|events|].main.result == ConsumerFailed(code) ==>
              trace[|events|].consumerErr == Some(code)
    ensures trace[|events|].main.result == ContextDone ==> trace[|events|].parentCancelled
  {
    RunInv(c, workers, trace, events, |events|);
  }

  /** Once closed, the result channel is never sent on and never closed again. */
  lemma ClosedForGood(c: Config, workers: nat, trace: seq<State>, events: seq<Event>, n: nat)
    requires Run(c, workers, trace, events) && n < |events| && trace[n].resultsClosed
    ensures !events[n].Receive? && !events[n].CloseResults? && trace[n + 1].resultsClosed
  {
    RunInv(c, workers, trace, events, n);
  }
}
