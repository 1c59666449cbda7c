/**
 The three-level lock protocol of the offline corpus: one update lock for everybody who creates,
 verifies, publishes or deletes a generation, one control gate around the activation slots, and one
 lease per generation.  Agents interleave freely and may die anywhere; a dead agent's locks are free.
 What an agent holds is a function of where it is.
 */
module Leases {
  import opened Common

  type Id = nat

  datatype Slot = Absent | Garbage | Named(sequence: nat, id: Id)

  datatype Agent =
    | Idle
    | OpenWaiting
    | OpenGated
    | OpenSelected(id: Id)
    | OpenLeased(id: Id)
    | Loading(id: Id)
    | Reading(id: Id)
    | VerifyWaiting(id: Id)
    | VerifyGated(id: Id)
    | VerifyLeased(id: Id)
    | Verifying(id: Id)
    | ActivateChecking(id: Id)
    | ActivateWaiting(id: Id)
    | ActivateGated(id: Id)
    | ActivateWriting(id: Id, sequence: nat, slot: nat)
    | PruneWaiting
    | PruneGated
    | Pruning
    | PruneTrying(id: Id)
    | PruneDeleting(id: Id)
    | ImportStarting
    | Importing(id: Id)
    | ImportCleaning(id: Id)
    | Releasing

  /** `dirs` have a directory, `leasable` also a lease file, and `intact` are complete and sealed. */
  datatype State = State(agents: seq<Agent>, slots: seq<Slot>, dirs: set<Id>, leasable: set<Id>, intact: set<Id>)

  datatype Lock = Update | Gate | Lease(id: Id)

  // ----- who holds what

  predicate HoldsUpdate(p: Agent) {
    match p
    case Idle => false
    case OpenWaiting => false
    case OpenGated => false
    case OpenSelected(_) => false
    case OpenLeased(_) => false
    case Loading(_) => false
    case Reading(_) => false
    case _ => true
  }

  predicate SharesGate(p: Agent) {
    p.OpenGated? || p.OpenSelected? || p.OpenLeased? || p.VerifyGated? || p.VerifyLeased?
  }

  predicate OwnsGate(p: Agent) {
    p.ActivateGated? || p.ActivateWriting? || p.PruneGated? || p.Pruning? || p.PruneTrying? || p.PruneDeleting?
  }

  predicate SharesLease(p: Agent, id: Id) {
    (p.OpenLeased? || p.Loading? || p.Reading? || p.VerifyLeased? || p.Verifying?) && p.id == id
  }

  predicate OwnsLease(p: Agent, id: Id) { p.PruneTrying? && p.id == id }

  predicate Holds(p: Agent, l: Lock) {
    match l
    case Update => HoldsUpdate(p)
    case Gate => SharesGate(p) || OwnsGate(p)
    case Lease(id) => SharesLease(p, id) || OwnsLease(p, id)
  }

  /** A generation an agent relies on: selected by an Open, or leased. */
  predicate Pins(p: Agent, id: Id) { (p.OpenSelected? && p.id == id) || SharesLease(p, id) }

  predicate UpdateFree(s: State) { forall b | 0 <= b < |s.agents| :: !HoldsUpdate(s.agents[b]) }

  predicate GateUnowned(s: State) { forall b | 0 <= b < |s.agents| :: !OwnsGate(s.agents[b]) }

  predicate GateFree(s: State) { forall b | 0 <= b < |s.agents| :: !OwnsGate(s.agents[b]) && !SharesGate(s.agents[b]) }

  predicate LeaseUnowned(s: State, id: Id) { forall b | 0 <= b < |s.agents| :: !OwnsLease(s.agents[b], id) }

  predicate LeaseFree(s: State, id: Id) {
    forall b | 0 <= b < |s.agents| :: !OwnsLease(s.agents[b], id) && !SharesLease(s.agents[b], id)
  }

  // ----- the activation slots

  predicate Names(slots: seq<Slot>, id: Id) { exists i | 0 <= i < |slots| :: slots[i].Named? && slots[i].id == id }

  function SequenceOf(slot: Slot): Option<nat> { if slot.Named? then Some(slot.sequence) else None }

  function Best(slots: seq<Slot>): int
    requires |slots| == 2
  {
    Higher(SequenceOf(slots[0]), SequenceOf(slots[1]))
  }

  predicate Recovered(slots: seq<Slot>) { exists i | 0 <= i < |slots| :: slots[i].Garbage? }

  // ----- steps

  datatype Step =
    | Die
    | BeginOpen | OpenGate | OpenSelect | OpenLease | OpenRelease | OpenLoad | Close
    | BeginVerify(id: Id) | VerifyGate | VerifyLease | VerifyRelease | EndVerify
    | BeginActivate(id: Id) | ActivateCheck | ActivateGate | ActivateTear | ActivateSeal
    | BeginPrune | PruneGate | PruneRead | PruneTry(id: Id) | PruneNoLease(id: Id)
    | PruneDrop | PruneDamage | PruneUnlease | PruneRemove | EndPrune
    | BeginImport | ImportMkdir(id: Id) | ImportLease | ImportSeal | ImportFail | ImportUnlease | ImportClean
    | Release

  predicate Enabled(s: State, a: nat, e: Step) {
    |s.slots| == 2 && a < |s.agents| &&
    var p := s.agents[a];
    match e
    case Die => !p.Idle?
    case BeginOpen => p.Idle?
    case OpenGate => p.OpenWaiting? && GateUnowned(s)
    case OpenSelect => p.OpenGated? && Best(s.slots) >= 0 && s.slots[Best(s.slots)].id in s.dirs
    case OpenLease => p.OpenSelected? && p.id in s.leasable && LeaseUnowned(s, p.id)
    case OpenRelease => p.OpenLeased?
    case OpenLoad => p.Loading? && p.id in s.intact
    case Close => p.Reading?
    case BeginVerify(_) => p.Idle? && UpdateFree(s)
    case VerifyGate => p.VerifyWaiting? && GateUnowned(s)
    case VerifyLease => p.VerifyGated? && p.id in s.leasable && LeaseUnowned(s, p.id)
    case VerifyRelease => p.VerifyLeased?
    case EndVerify => p.Verifying?
    case BeginActivate(_) => p.Idle? && UpdateFree(s)
    case ActivateCheck => p.ActivateChecking? && p.id in s.intact
    case ActivateGate => p.ActivateWaiting? && GateFree(s)
    case ActivateTear => p.ActivateGated?
    case ActivateSeal => p.ActivateWriting? && p.slot < 2
    case BeginPrune => p.Idle? && UpdateFree(s)
    case PruneGate => p.PruneWaiting? && GateFree(s)
    case PruneRead => p.PruneGated? && Best(s.slots) >= 0 && !Recovered(s.slots)
    case PruneTry(id) => p.Pruning? && id in s.leasable && !Names(s.slots, id) && LeaseFree(s, id)
    case PruneNoLease(id) => p.Pruning? && id in s.dirs && id !in s.leasable && !Names(s.slots, id)
    case PruneDrop => p.PruneTrying?
    case PruneDamage => p.PruneDeleting?
    case PruneUnlease => p.PruneDeleting?
    case PruneRemove => p.PruneDeleting?
    case EndPrune => p.Pruning?
    case BeginImport => p.Idle? && UpdateFree(s)
    case ImportMkdir(id) => p.ImportStarting? && id !in s.dirs
    case ImportLease => p.Importing?
    case ImportSeal => p.Importing? && p.id in s.leasable
    case ImportFail => p.Importing?
    case ImportUnlease => p.ImportCleaning?
    case ImportClean => p.ImportCleaning?
    case Release => p.Releasing?
  }

  function Apply(s: State, a: nat, e: Step): State
    requires Enabled(s, a, e)
  {
    var p := s.agents[a];
    match e
    case Die => At(s, a, Idle)
    case BeginOpen => At(s, a, OpenWaiting)
    case OpenGate => At(s, a, OpenGated)
    case OpenSelect => At(s, a, OpenSelected(s.slots[Best(s.slots)].id))
    case OpenLease => At(s, a, OpenLeased(p.id))
    case OpenRelease => At(s, a, Loading(p.id))
    case OpenLoad => At(s, a, Reading(p.id))
    case Close => At(s, a, Idle)
    case BeginVerify(id) => At(s, a, VerifyWaiting(id))
    case VerifyGate => At(s, a, VerifyGated(p.id))
    case VerifyLease => At(s, a, VerifyLeased(p.id))
    case VerifyRelease => At(s, a, Verifying(p.id))
    case EndVerify => At(s, a, Idle)
    case BeginActivate(id) => At(s, a, ActivateChecking(id))
    case ActivateCheck => At(s, a, ActivateWaiting(p.id))
    case ActivateGate => At(s, a, ActivateGated(p.id))
    case ActivateTear =>
      var best := Best(s.slots);
      var slot := if best < 0 then 0 else 1 - best;
      var sequence := if best < 0 then 1 else s.slots[best].sequence + 1;
      At(s, a, ActivateWriting(p.id, sequence, slot)).(slots := s.slots[slot := Garbage])
    case ActivateSeal => At(s, a, Releasing).(slots := s.slots[p.slot := Named(p.sequence, p.id)])
    case BeginPrune => At(s, a, PruneWaiting)
    case PruneGate => At(s, a, PruneGated)
    case PruneRead => At(s, a, Pruning)
    case PruneTry(id) => At(s, a, PruneTrying(id))
    case PruneNoLease(id) => At(s, a, PruneDeleting(id))
    case PruneDrop => At(s, a, PruneDeleting(p.id))
    case PruneDamage => s.(intact := s.intact - {p.id})
    case PruneUnlease => s.(leasable := s.leasable - {p.id}, intact := s.intact - {p.id})
    case PruneRemove =>
      At(s, a, Pruning).(dirs := s.dirs - {p.id}, leasable := s.leasable - {p.id}, intact := s.intact - {p.id})
    case EndPrune => At(s, a, Releasing)
    case BeginImport => At(s, a, ImportStarting)
    case ImportMkdir(id) => At(s, a, Importing(id)).(dirs := s.dirs + {id})
    case ImportLease => s.(leasable := s.leasable + {p.id})
    case ImportSeal => At(s, a, Releasing).(intact := s.intact + {p.id})
    case ImportFail => At(s, a, ImportCleaning(p.id))
    case ImportUnlease => s.(leasable := s.leasable - {p.id})
    case ImportClean => At(s, a, Releasing).(dirs := s.dirs - {p.id}, leasable := s.leasable - {p.id})
    case Release => At(s, a, Idle)
  }

  function At(s: State, a: nat, p: Agent): State
    requires a < |s.agents|
  {
    s.(agents := s.agents[a := p])
  }

  // ----- the invariant

  /** What one agent's position says about the files. */
  predicate AgentOk(s: State, p: Agent) {
    match p
    case OpenSelected(id) => id in s.intact
    case OpenLeased(id) => id in s.intact
    case Loading(id) => id in s.intact
    case Reading(id) => id in s.intact
    case VerifyLeased(id) => id in s.leasable
    case Verifying(id) => id in s.leasable
    case ActivateWaiting(id) => id in s.intact
    case ActivateGated(id) => id in s.intact
    case ActivateWriting(id, _, slot) => id in s.intact && slot < 2
    case PruneTrying(id) => !Names(s.slots, id)
    case PruneDeleting(id) => !Names(s.slots, id)
    case Importing(id) => id in s.dirs && id !in s.intact
    case ImportCleaning(id) => id in s.dirs && id !in s.intact
    case _ => true
  }

  predicate Exclusive(p: Agent, q: Agent) {
    && !(HoldsUpdate(p) && HoldsUpdate(q))
    && (OwnsGate(p) ==> !OwnsGate(q) && !SharesGate(q))
    && ((p.PruneTrying? || p.PruneDeleting?) ==> !Pins(q, p.id))
  }

  ghost predicate Inv(s: State) {
    && |s.slots| == 2
    && s.intact <= s.leasable <= s.dirs
    && (forall id :: Names(s.slots, id) ==> id in s.intact)
    && (forall a | 0 <= a < |s.agents| :: AgentOk(s, s.agents[a]))
    && (forall a, b | 0 <= a < |s.agents| && 0 <= b < |s.agents| && a != b :: Exclusive(s.agents[a], s.agents[b]))
  }

  lemma BestIsNamed(slots: seq<Slot>)
    requires |slots| == 2 && Best(slots) >= 0
    ensures Best(slots) < 2 && slots[Best(slots)].Named? && Names(slots, slots[Best(slots)].id)
  {
  }

  /** A step keeps the files in order: only an intact generation is ever named. */
  lemma FilesKept(s: State, a: nat, e: Step)
    requires Inv(s) && Enabled(s, a, e)
    ensures var s' := Apply(s, a, e);
            && |s'.slots| == 2
            && s'.intact <= s'.leasable <= s'.dirs
            && (forall id :: Names(s'.slots, id) ==> id in s'.intact)
  {
    var s' := Apply(s, a, e);
    assert AgentOk(s, s.agents[a]);
    forall id | Names(s'.slots, id) ensures id in s'.intact {
      if s'.slots == s.slots { assert Names(s.slots, id); }
      else if e.ActivateSeal? && id != s.agents[a].id { assert Names(s.slots, id); }
      else if e.ActivateTear? { assert Names(s.slots, id); }
    }
  }

  /** A step leaves the agent that takes it somewhere its files allow. */
  lemma MoverKept(s: State, a: nat, e: Step)
    requires Inv(s) && Enabled(s, a, e)
    ensures AgentOk(Apply(s, a, e), Apply(s, a, e).agents[a])
  {
    assert AgentOk(s, s.agents[a]);
    if e.OpenSelect? { BestIsNamed(s.slots); }
  }

  lemma OtherKept(s: State, a: nat, e: Step, b: nat)
    requires Inv(s) && Enabled(s, a, e) && b < |s.agents| && b != a
    ensures AgentOk(Apply(s, a, e), s.agents[b])
  {
    assert AgentOk(s, s.agents[b]) && AgentOk(s, s.agents[a]);
    assert Exclusive(s.agents[a], s.agents[b]) && Exclusive(s.agents[b], s.agents[a]);
  }

  lemma ExclusiveKept(s: State, a: nat, e: Step, b: nat)
    requires Inv(s) && Enabled(s, a, e) && b < |s.agents| && b != a
    ensures Exclusive(Apply(s, a, e).agents[a], s.agents[b]) && Exclusive(s.agents[b], Apply(s, a, e).agents[a])
  {
    assert AgentOk(s, s.agents[b]) && AgentOk(s, s.agents[a]);
    assert Exclusive(s.agents[a], s.agents[b]) && Exclusive(s.agents[b], s.agents[a]);
  }

  lemma StepInv(s: State, a: nat, e: Step)
    requires Inv(s) && Enabled(s, a, e)
    ensures Inv(Apply(s, a, e))
  {
    var s' := Apply(s, a, e);
    FilesKept(s, a, e);
    forall b | 0 <= b < |s'.agents| ensures AgentOk(s', s'.agents[b]) {
      if b == a { MoverKept(s, a, e); } else { OtherKept(s, a, e, b); }
    }
    forall b, c | 0 <= b < |s'.agents| && 0 <= c < |s'.agents| && b != c
      ensures Exclusive(s'.agents[b], s'.agents[c])
    {
      if b == a {
        ExclusiveKept(s, a, e, c);
      } else if c == a {
        ExclusiveKept(s, a, e, b);
      } else {
        assert Exclusive(s.agents[b], s.agents[c]);
      }
    }
  }

  // ----- every run

  ghost predicate Run(trace: seq<State>, movers: seq<nat>, steps: seq<Step>) {
    && |trace| == |steps| + 1 && |movers| == |steps|
    && trace[0].slots == [Absent, Absent] && trace[0].dirs == {} && trace[0].leasable == {} && trace[0].intact == {}
    && (forall a | 0 <= a < |trace[0].agents| :: trace[0].agents[a].Idle?)
    && (forall n | 0 <= n < |steps| ::
          Enabled(trace[n], movers[n], steps[n]) && trace[n + 1] == Apply(trace[n], movers[n], steps[n]))
  }

  lemma {:induction false} RunInv(trace: seq<State>, movers: seq<nat>, steps: seq<Step>, n: nat)
    requires Run(trace, movers, steps) && n < |trace|
    ensures Inv(trace[n])
  {
    if n > 0 {
      RunInv(trace, movers, steps, n - 1);
      StepInv(trace[n - 1], movers[n - 1], steps[n - 1]);
    }
  }

  /**
   In every interleaving, deaths included, a step that damages or removes generation `id` finds it named
   by no slot and relied upon by no agent: not leased, and not selected by an Open about to lease it.
   */
  lemma DeletionIsSafe(trace: seq<State>, movers: seq<nat>, steps: seq<Step>, n: nat, id: Id)
    requires Run(trace, movers, steps) && n < |steps|
    requires || (id in trace[n].intact && id !in trace[n + 1].intact)
             || (id in trace[n].leasable && id !in trace[n + 1].leasable)
             || (id in trace[n].dirs && id !in trace[n + 1].dirs)
    ensures !Names(trace[n].slots, id) && !Names(trace[n + 1].slots, id)
    ensures forall b | 0 <= b < |trace[n].agents| :: !Pins(trace[n].agents[b], id)
  {
    RunInv(trace, movers, steps, n);
    var s, a, e := trace[n], movers[n], steps[n];
    assert AgentOk(s, s.agents[a]);
    forall b | 0 <= b < |s.agents| ensures !Pins(s.agents[b], id) {
      assert AgentOk(s, s.agents[b]);
      if b != a { assert Exclusive(s.agents[a], s.agents[b]) && Exclusive(s.agents[b], s.agents[a]); }
    }
  }

  /** From selection to Close an Open works on a complete generation. */
  lemma ReadersSeeIntact(trace: seq<State>, movers: seq<nat>, steps: seq<Step>, n: nat, a: nat)
    requires Run(trace, movers, steps) && n < |trace| && a < |trace[n].agents|
    ensures var p := trace[n].agents[a];
            (p.OpenSelected? || p.OpenLeased? || p.Loading? || p.Reading?) ==> p.id in trace[n].intact
    ensures forall id :: Names(trace[n].slots, id) ==> id in trace[n].intact
  {
    RunInv(trace, movers, steps, n);
    assert AgentOk(trace[n], trace[n].agents[a]);
  }

  /** An Open that has selected a generation is never kept waiting for its lease. */
  lemma LeaseIsReady(trace: seq<State>, movers: seq<nat>, steps: seq<Step>, n: nat, a: nat)
    requires Run(trace, movers, steps) && n < |trace| && a < |trace[n].agents| && trace[n].agents[a].OpenSelected?
    ensures Enabled(trace[n], a, OpenLease)
  {
    RunInv(trace, movers, steps, n);
    var s := trace[n];
    assert AgentOk(s, s.agents[a]);
    forall b | 0 <= b < |s.agents| ensures !OwnsLease(s.agents[b], s.agents[a].id) {
      if b != a { assert Exclusive(s.agents[b], s.agents[a]); }
    }
  }

  // ----- no waiting cycle

  /** The lock an agent is blocked on; the update lock and Prune's lease are only ever tried. */
  function Awaits(p: Agent): Option<Lock> {
    match p
    case OpenWaiting => Some(Gate)
    case OpenSelected(id) => Some(Lease(id))
    case VerifyWaiting(_) => Some(Gate)
    case VerifyGated(id) => Some(Lease(id))
    case ActivateWaiting(_) => Some(Gate)
    case PruneWaiting => Some(Gate)
    case _ => None
  }

  function Level(l: Lock): nat {
    match l
    case Update => 0
    case Gate => 1
    case Lease(_) => 2
  }

  /** Agents wait only for locks above everything they hold. */
  lemma WaitsUpwards(p: Agent, held: Lock)
    requires Awaits(p).Some? && Holds(p, held)
    ensures Level(held) < Level(Awaits(p).value)
  {
  }

  /** Each agent of the ring waits for a lock the next one holds. */
  predicate WaitingRing(s: State, ring: seq<nat>) {
    && ring != []
    && (forall i | 0 <= i < |ring| :: ring[i] < |s.agents| && Awaits(s.agents[ring[i]]).Some?)
    && (forall i, j | 0 <= i < |ring| && j == (if i + 1 < |ring| then i + 1 else 0) ::
          Holds(s.agents[ring[j]], Awaits(s.agents[ring[i]]).value))
  }

  lemma {:induction false} RingClimbs(s: State, ring: seq<nat>, i: nat)
    requires WaitingRing(s, ring) && i < |ring|
    ensures Level(Awaits(s.agents[ring[0]]).value) + i <= Level(Awaits(s.agents[ring[i]]).value)
  {
    if i > 0 {
      RingClimbs(s, ring, i - 1);
      assert Holds(s.agents[ring[i]], Awaits(s.agents[ring[i - 1]]).value);
      WaitsUpwards(s.agents[ring[i]], Awaits(s.agents[ring[i - 1]]).value);
    }
  }

  /** No set of agents can block one another in a circle, in any state. */
  lemma NoWaitingRing(s: State, ring: seq<nat>)
    ensures !WaitingRing(s, ring)
  {
    if WaitingRing(s, ring) {
      var last := |ring| - 1;
      RingClimbs(s, ring, last);
      assert Holds(s.agents[ring[0]], Awaits(s.agents[ring[last]]).value);
      WaitsUpwards(s.agents[ring[0]], Awaits(s.agents[ring[last]]).value);
    }
  }
}
