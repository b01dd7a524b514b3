/**
 * client/src/chain/sequence.ts: the resumable submission of one root proof, as a state machine.
 *
 * One client plays `runSequence` over and over against one router slot (caller, proof id); it
 * may crash at any `await`, and the echo store may be wiped at any moment. The router is only
 * its log: it accepts whatever is sent, so that order and echoes are the client's doing, not a
 * check's. Sending and accepting is one step.
 */
module Submission {
  import opened Calldata
  import opened LimbPacking
  import opened ProofStream
  import opened Sequences
  import opened Wrappers

  const PLAN_VERSION := "hellproof.fri-plan.v1"

  /** What stays fixed over the attempts: the proof, its slot, whether a store exists. */
  datatype Setting = Setting(sec: ProofSections, proofId: nat, router: nat, caller: nat, hasStore: bool)

  /** A `SubmissionSequence`: its phases, whether the cut was explicit, and `friPlan.maxCalldata`. */
  datatype Sequence = Sequence(phases: seq<PhasePlan>, explicitFriSplit: bool, friPlan: Option<nat>)

  /** One router transaction that went through, with the checkpoint state it returned. */
  datatype Accepted = Accepted(phase: PhasePlan, echo: Option<seq<nat>>, calldata: seq<nat>, returned: seq<nat>)

  datatype Tag = FREE | MERKLE | FRI | DONE

  /** The record in the reserved slot: version, router, caller, then the cuts. */
  datatype PlanRecord = PlanRecord(version: string, router: nat, caller: nat, cuts: seq<int>)

  datatype Store = Store(plan: Option<PlanRecord>, echoes: map<nat, seq<nat>>)

  /** Where the client stands: each value but `Idle` and `Sending` is an `await`. */
  datatype Pc =
    | Idle
    | ReadingCheckpoint(seqn: Sequence)
    | ReadingEvents(seqn: Sequence)
    | ReadingTrace(seqn: Sequence, nextPhase: nat)
    | Sending(seqn: Sequence, i: nat, echo: Option<seq<nat>>)
    | AwaitingReceipt(seqn: Sequence, i: nat)
    | ReadingEcho(seqn: Sequence, i: nat)
    | Finished(seqn: Sequence)

  /** `plan` is auxiliary: the phases of the attempt whose `begin` was accepted. */
  datatype World = World(accepted: seq<Accepted>, store: Store, pc: Pc, plan: seq<PhasePlan>)

  datatype Action =
    | Start(seqn: Sequence)
    | ReadCheckpoint
    | ReadEvents
    | ReadTrace(available: bool)
    | Send(returned: seq<nat>)
    | ReceiveReceipt
    | ReadEcho(available: bool)
    | Crash
    | WipeStore

  function Init(): World {
    World([], Store(None, map[]), Idle, [])
  }

  // ----- the router ----------------------------------------------------------------------------

  function LayersDone(accepted: seq<Accepted>): nat {
    if accepted == [] then 0
    else LayersDone(accepted[..|accepted| - 1]) + |accepted[|accepted| - 1].phase.layers|
  }

  /** The tag the router keeps: MERKLE after `begin` and `merkle`, FRI until every layer is folded. */
  function TagOf(cfg: Setting, accepted: seq<Accepted>): Tag {
    if accepted == [] then FREE
    else
      match accepted[|accepted| - 1].phase.entrypoint
      case Begin => MERKLE
      case Merkle => MERKLE
      case Answers => FRI
      case Fri => if LayersDone(accepted) == |cfg.sec.layers| then DONE else FRI
  }

  // ----- the stored plan -----------------------------------------------------------------------

  /** `storedFriSplit`: a record of another version, router or caller, or not a cut list, is no record. */
  function StoredFriSplit(cfg: Setting, store: Store): Option<seq<nat>> {
    if !cfg.hasStore || store.plan.None? then None
    else
      var r := store.plan.value;
      if r.version != PLAN_VERSION || r.router != cfg.router || r.caller != cfg.caller then None
      else if exists i :: 0 <= i < |r.cuts| && (r.cuts[i] <= 0 || (i > 0 && r.cuts[i] <= r.cuts[i - 1])) then None
      else Some(Naturals(r.cuts))
  }

  function Naturals(cuts: seq<int>): seq<nat> {
    seq(|cuts|, i requires 0 <= i < |cuts| => if cuts[i] >= 0 then cuts[i] else 0)
  }

  function RecordOf(cfg: Setting, cuts: seq<nat>): PlanRecord {
    PlanRecord(PLAN_VERSION, cfg.router, cfg.caller, cuts)
  }

  /** A plan's own cuts, once stored, are read back unchanged. */
  lemma StoredRoundTrip(cfg: Setting, store: Store, cuts: seq<nat>, n: nat)
    requires cfg.hasStore && CutsBetween(cuts, 0, n)
    ensures StoredFriSplit(cfg, store.(plan := Some(RecordOf(cfg, cuts)))) == Some(cuts)
  {
    assert Naturals(cuts) == cuts;
  }

  /** `checkResumePlan`: the sequence the resume continues with, or the error it throws. */
  function CheckResumePlan(cfg: Setting, s: Sequence, store: Store): Result<Sequence>
    requires Plannable(cfg.sec)
  {
    match StoredFriSplit(cfg, store)
    case Some(saved) =>
      if FriSplitOf(s.phases) == Some(saved) then Ok(s)
      else if !s.explicitFriSplit && s.friPlan.Some? then
        var phases :- PlanPhases(cfg.sec, cfg.proofId, saved, s.friPlan.value);
        Ok(s.(phases := phases))
      else Err("stored FRI plan differs")
    case None =>
      if !s.explicitFriSplit then Err("original FRI split is unknown") else Ok(s)
  }

  /** A caller's sequence: some plan of this proof. */
  ghost predicate IsPlan(cfg: Setting, phases: seq<PhasePlan>)
    requires Plannable(cfg.sec)
  {
    exists split: seq<int>, maxCalldata: nat :: PlanPhases(cfg.sec, cfg.proofId, split, maxCalldata) == Ok(phases)
  }

  /** Two plans of one proof with the same cuts are the same plan. */
  lemma PlanIsItsCuts(cfg: Setting, a: seq<PhasePlan>, b: seq<PhasePlan>)
    requires Plannable(cfg.sec) && IsPlan(cfg, a) && IsPlan(cfg, b) && FriSplitOf(a) == FriSplitOf(b)
    ensures a == b
  {
    hide UncheckedPlan, FriSplitOf;
    var sa: seq<int>, ma: nat :| PlanPhases(cfg.sec, cfg.proofId, sa, ma) == Ok(a);
    var sb: seq<int>, mb: nat :| PlanPhases(cfg.sec, cfg.proofId, sb, mb) == Ok(b);
    SplitOfPlan(cfg.sec, cfg.proofId, sa, ma);
    SplitOfPlan(cfg.sec, cfg.proofId, sb, mb);
    assert UncheckedPlan(cfg.sec, cfg.proofId, sa) == UncheckedPlan(cfg.sec, cfg.proofId, sb) by {
      SameCutsSamePlan(cfg, sa, sb);
    }
  }

  lemma SameCutsSamePlan(cfg: Setting, sa: seq<int>, sb: seq<int>)
    requires Plannable(cfg.sec)
    requires CanonicalCuts(sa, 0, |cfg.sec.layers|) == CanonicalCuts(sb, 0, |cfg.sec.layers|)
    ensures UncheckedPlan(cfg.sec, cfg.proofId, sa) == UncheckedPlan(cfg.sec, cfg.proofId, sb)
  {
  }

  // ----- the steps -----------------------------------------------------------------------------

  /**
   * What the model asks of the user: when no plan record exists and the sequence has started,
   * an explicit cut is the one it was started with. (An automatic resume then refuses to run.)
   */
  predicate CutKnown(cfg: Setting, w: World, s: Sequence) {
    StoredFriSplit(cfg, w.store).None? && s.explicitFriSplit && w.accepted != [] ==> s.phases == w.plan
  }

  ghost predicate Enabled(cfg: Setting, w: World, act: Action)
    requires Plannable(cfg.sec)
  {
    Possible(cfg, w, act) && (act.ReadCheckpoint? ==> CutKnown(cfg, w, w.pc.seqn))
  }

  /** What can happen, whatever the user does. */
  ghost predicate Possible(cfg: Setting, w: World, act: Action)
    requires Plannable(cfg.sec)
  {
    match act
    case Start(s) => w.pc.Idle? && IsPlan(cfg, s.phases)
    case ReadCheckpoint => w.pc.ReadingCheckpoint?
    case ReadEvents => w.pc.ReadingEvents?
    case ReadTrace(_) => w.pc.ReadingTrace? && w.accepted != []
    case Send(_) => w.pc.Sending? && w.pc.i < |w.pc.seqn.phases|
    case ReceiveReceipt => w.pc.AwaitingReceipt?
    case ReadEcho(_) => w.pc.ReadingEcho? && w.accepted != []
    case Crash => true
    case WipeStore => true
  }

  /** The record `runSequence` writes before it sends anything. */
  function RecordPlan(cfg: Setting, store: Store, s: Sequence): Store {
    match FriSplitOf(s.phases)
    case Some(cuts) => if cfg.hasStore then store.(plan := Some(RecordOf(cfg, cuts))) else store
    case None => store
  }

  /** The head of the loop over the phases. */
  function Loop(s: Sequence, i: nat, echo: Option<seq<nat>>): Pc {
    if i >= |s.phases| then Finished(s) else Sending(s, i, echo)
  }

  function Returned(w: World): seq<nat>
    requires w.accepted != []
  {
    w.accepted[|w.accepted| - 1].returned
  }

  function Step(cfg: Setting, w: World, act: Action): World
    requires Plannable(cfg.sec) && Possible(cfg, w, act)
  {
    match act
    case Start(s) => w.(pc := ReadingCheckpoint(s))
    case ReadCheckpoint =>
      var s := w.pc.seqn;
      (match TagOf(cfg, w.accepted)
       case FREE => w.(store := RecordPlan(cfg, w.store, s), pc := Loop(s, 0, None))
       case DONE => w.(pc := Finished(s))
       case _ =>
         match CheckResumePlan(cfg, s, w.store)
         case Ok(s') => w.(pc := ReadingEvents(s'))
         case Err(_) => w.(pc := Idle))
    case ReadEvents =>
      var s, n := w.pc.seqn, |w.accepted|;
      if n >= |s.phases| then w.(pc := Idle)
      else if TagOf(cfg, w.accepted) != ExpectedTag(s.phases[n]) then w.(pc := Idle)
      else if n - 1 in w.store.echoes then
        w.(store := RecordPlan(cfg, w.store, s), pc := Loop(s, n, Some(w.store.echoes[n - 1])))
      else w.(pc := ReadingTrace(s, n))
    case ReadTrace(available) =>
      if available then
        w.(store := RecordPlan(cfg, w.store, w.pc.seqn), pc := Loop(w.pc.seqn, w.pc.nextPhase, Some(Returned(w))))
      else w.(pc := Idle)
    case Send(returned) =>
      var Sending(s, i, echo) := w.pc;
      (match PhaseCalldata(s.phases[i], echo)
       case Err(_) => w.(pc := Idle)
       case Ok(calldata) =>
         w.(accepted := w.accepted + [Accepted(s.phases[i], if i == 0 then None else echo, calldata, returned)],
            plan := if w.accepted == [] then s.phases else w.plan,
            pc := AwaitingReceipt(s, i)))
    case ReceiveReceipt => w.(pc := ReadingEcho(w.pc.seqn, w.pc.i))
    case ReadEcho(available) =>
      var ReadingEcho(s, i) := w.pc;
      if available then
        w.(store := if cfg.hasStore then w.store.(echoes := w.store.echoes[i := Returned(w)]) else w.store,
           pc := Loop(s, i + 1, Some(Returned(w))))
      else w.(pc := Loop(s, i + 1, None))
    case Crash => w.(pc := Idle)
    case WipeStore => w.(store := Store(None, map[]))
  }

  /** The tag the router must be at for this phase to be next. */
  function ExpectedTag(phase: PhasePlan): Tag {
    if phase.echo == FriState then FRI else MERKLE
  }

  ghost predicate CanRun(cfg: Setting, w: World, acts: seq<Action>)
    requires Plannable(cfg.sec)
    decreases |acts|
  {
    acts == [] || (Enabled(cfg, w, acts[0]) && CanRun(cfg, Step(cfg, w, acts[0]), acts[1..]))
  }

  ghost function Run(cfg: Setting, w: World, acts: seq<Action>): World
    requires Plannable(cfg.sec) && CanRun(cfg, w, acts)
    decreases |acts|
  {
    if acts == [] then w else Run(cfg, Step(cfg, w, acts[0]), acts[1..])
  }

  // ----- the invariant -------------------------------------------------------------------------

  /** Transaction `i` carries phase `i` of the plan and the state transaction `i - 1` returned. */
  predicate Chained(accepted: seq<Accepted>, plan: seq<PhasePlan>, i: nat)
    requires i < |accepted|
  {
    && i < |plan|
    && accepted[i].phase == plan[i]
    && accepted[i].echo == (if i == 0 then None else Some(accepted[i - 1].returned))
    && PhaseCalldata(plan[i], accepted[i].echo) == Ok(accepted[i].calldata)
  }

  ghost predicate InOrder(cfg: Setting, w: World)
    requires Plannable(cfg.sec)
  {
    && |w.accepted| <= |w.plan|
    && (w.accepted != [] ==> IsPlan(cfg, w.plan))
    && forall i :: 0 <= i < |w.accepted| ==> Chained(w.accepted, w.plan, i)
  }

  predicate EchoesOk(w: World) {
    forall i :: i in w.store.echoes ==> i < |w.accepted| && w.store.echoes[i] == w.accepted[i].returned
  }

  /** A readable record names the cuts of the plan that was started. */
  predicate RecordOk(cfg: Setting, w: World, plan: seq<PhasePlan>) {
    StoredFriSplit(cfg, w.store).Some? ==> StoredFriSplit(cfg, w.store) == FriSplitOf(plan)
  }

  ghost predicate PcOk(cfg: Setting, w: World)
    requires Plannable(cfg.sec)
  {
    match w.pc
    case Idle => true
    case ReadingCheckpoint(s) => IsPlan(cfg, s.phases)
    case ReadingEvents(s) => w.accepted != [] && s.phases == w.plan
    case ReadingTrace(s, n) => w.accepted != [] && s.phases == w.plan && n == |w.accepted|
    case Sending(s, i, echo) =>
      && i == |w.accepted| && IsPlan(cfg, s.phases)
      && (if w.accepted == [] then echo == None && RecordOk(cfg, w, s.phases)
          else s.phases == w.plan && (echo.Some? ==> echo == Some(Returned(w))))
    case AwaitingReceipt(s, i) => s.phases == w.plan && i + 1 == |w.accepted|
    case ReadingEcho(s, i) => s.phases == w.plan && i + 1 == |w.accepted|
    case Finished(_) => |w.accepted| == |w.plan| && w.accepted != []
  }

  ghost predicate Inv(cfg: Setting, w: World) {
    && Plannable(cfg.sec)
    && InOrder(cfg, w)
    && EchoesOk(w)
    && (w.accepted != [] ==> RecordOk(cfg, w, w.plan))
    && PcOk(cfg, w)
  }

  // ----- the tag of a prefix of a plan ---------------------------------------------------------

  /** What the machine needs to know of a plan. */
  ghost predicate PlanShape(cfg: Setting, plan: seq<PhasePlan>) {
    && |plan| >= 4
    && plan[0].entrypoint == Begin && plan[1].entrypoint == Merkle && plan[2].entrypoint == Answers
    && plan[1].echo == MerkleState && plan[2].echo == MerkleState
    && (forall i :: 0 <= i < 3 ==> plan[i].layers == [])
    && (forall i :: 3 <= i < |plan| ==> plan[i].entrypoint == Fri && plan[i].echo == FriState)
    && (forall i :: 3 <= i < |plan| ==> LayersBefore(plan, i) < |cfg.sec.layers|)
    && LayersBefore(plan, |plan|) == |cfg.sec.layers|
    && FriSplitOf(plan).Some?
  }

  /** How many FRI layers the first `i` phases cover. */
  function LayersBefore(plan: seq<PhasePlan>, i: nat): nat
    requires i <= |plan|
  {
    if i == 0 then 0 else LayersBefore(plan, i - 1) + |plan[i - 1].layers|
  }

  lemma {:induction false} LayersBeforeConcat(a: seq<PhasePlan>, b: seq<PhasePlan>, i: nat)
    requires i <= |b|
    ensures LayersBefore(a + b, |a| + i) == LayersBefore(a + b, |a|) + LayersBefore(b, i)
  {
    if i > 0 {
      LayersBeforeConcat(a, b, i - 1);
    }
  }

  /** Where chunk i of the layers begins, the last bound being their number. */
  function Bound(cuts: seq<nat>, first: nat, n: nat, i: nat): nat
    requires i <= |cuts| + 1
  {
    if i == 0 then first else if i <= |cuts| then cuts[i - 1] else n
  }

  lemma ChunkLayers(sec: ProofSections, first: nat, last: nat, proofId: nat)
    requires first < last <= |sec.layers| && TxFri(sec, first, last, proofId).Ok?
    ensures |TxFri(sec, first, last, proofId).value.layers| == last - first
  {
  }

  /** The first chunk and the others. */
  lemma FriStep(sec: ProofSections, proofId: nat, first: nat, cuts: seq<nat>)
    requires first < |sec.layers| && CutsBetween(cuts, first, |sec.layers|) && cuts != []
    requires FriPhases(sec, proofId, first, cuts).Ok?
    ensures first < cuts[0] < |sec.layers| && CutsBetween(cuts[1..], cuts[0], |sec.layers|)
    ensures TxFri(sec, first, cuts[0], proofId).Ok? && FriPhases(sec, proofId, cuts[0], cuts[1..]).Ok?
    ensures FriPhases(sec, proofId, first, cuts).value
         == [TxFri(sec, first, cuts[0], proofId).value] + FriPhases(sec, proofId, cuts[0], cuts[1..]).value
  {
    hide TxFri;
  }

  /** Without a cut there is one chunk. */
  lemma OnlyChunk(sec: ProofSections, proofId: nat, first: nat)
    requires first < |sec.layers| && CutsBetween([], first, |sec.layers|) && FriPhases(sec, proofId, first, []).Ok?
    ensures TxFri(sec, first, |sec.layers|, proofId).Ok?
    ensures FriPhases(sec, proofId, first, []).value == [TxFri(sec, first, |sec.layers|, proofId).value]
  {
    hide TxFri;
  }

  lemma {:induction false} FriChunk(sec: ProofSections, proofId: nat, first: nat, cuts: seq<nat>, i: nat)
    requires first < |sec.layers| && CutsBetween(cuts, first, |sec.layers|)
    requires FriPhases(sec, proofId, first, cuts).Ok? && i <= |cuts|
    ensures var fri := FriPhases(sec, proofId, first, cuts).value;
            && |fri| == |cuts| + 1
            && Bound(cuts, first, |sec.layers|, i) + |fri[i].layers| == Bound(cuts, first, |sec.layers|, i + 1)
    decreases |cuts|
  {
    hide TxFri, FriPhases, CutsBetween;
    FriCount(sec, proofId, first, cuts);
    if cuts == [] {
      OnlyChunk(sec, proofId, first);
      ChunkLayers(sec, first, |sec.layers|, proofId);
    } else {
      FriStep(sec, proofId, first, cuts);
      if i == 0 {
        ChunkLayers(sec, first, cuts[0], proofId);
      } else {
        FriChunk(sec, proofId, cuts[0], cuts[1..], i - 1);
      }
    }
  }

  lemma FriCount(sec: ProofSections, proofId: nat, first: nat, cuts: seq<nat>)
    requires first < |sec.layers| && CutsBetween(cuts, first, |sec.layers|) && FriPhases(sec, proofId, first, cuts).Ok?
    ensures |FriPhases(sec, proofId, first, cuts).value| == |cuts| + 1
  {
    FriPhasesShape(sec, proofId, first, cuts);
  }

  lemma {:induction false} FriLayersBefore(sec: ProofSections, proofId: nat, first: nat, cuts: seq<nat>, i: nat)
    requires first < |sec.layers| && CutsBetween(cuts, first, |sec.layers|)
    requires FriPhases(sec, proofId, first, cuts).Ok? && i <= |FriPhases(sec, proofId, first, cuts).value|
    ensures |FriPhases(sec, proofId, first, cuts).value| == |cuts| + 1
    ensures first + LayersBefore(FriPhases(sec, proofId, first, cuts).value, i) == Bound(cuts, first, |sec.layers|, i)
  {
    hide FriPhases, CutsBetween, FriOnly, FirstLayers;
    FriCount(sec, proofId, first, cuts);
    if i > 0 {
      FriLayersBefore(sec, proofId, first, cuts, i - 1);
      FriChunk(sec, proofId, first, cuts, i - 1);
    }
  }

  lemma FriLayersCovered(cfg: Setting, cuts: seq<nat>, i: nat)
    requires |cfg.sec.layers| >= 1 && CutsBetween(cuts, 0, |cfg.sec.layers|)
    requires FriPhases(cfg.sec, cfg.proofId, 0, cuts).Ok? && i <= |cuts| + 1
    ensures var fri := FriPhases(cfg.sec, cfg.proofId, 0, cuts).value;
            && |fri| == |cuts| + 1
            && LayersBefore(fri, i) == Bound(cuts, 0, |cfg.sec.layers|, i)
  {
    hide FriPhases, CutsBetween, Bound;
    FriPhasesShape(cfg.sec, cfg.proofId, 0, cuts);
    FriLayersBefore(cfg.sec, cfg.proofId, 0, cuts, i);
  }

  /** The canonical cuts of a plan, and its phases spelt out. */
  lemma PlanParts(cfg: Setting, plan: seq<PhasePlan>) returns (cuts: seq<nat>, fri: seq<PhasePlan>)
    requires Plannable(cfg.sec) && IsPlan(cfg, plan)
    ensures CutsBetween(cuts, 0, |cfg.sec.layers|) && FriPhases(cfg.sec, cfg.proofId, 0, cuts) == Ok(fri)
    ensures |plan| >= 3 && plan == plan[..3] + fri && FriSplitOf(plan) == Some(cuts)
    ensures plan[0].entrypoint == Begin && plan[1].entrypoint == Merkle && plan[2].entrypoint == Answers
    ensures plan[1].echo == MerkleState && plan[2].echo == MerkleState
    ensures plan[0].layers == [] && plan[1].layers == [] && plan[2].layers == []
  {
    hide FriPhases, FriSplitOf;
    var split: seq<int>, max: nat :| PlanPhases(cfg.sec, cfg.proofId, split, max) == Ok(plan);
    SplitOfPlan(cfg.sec, cfg.proofId, split, max);
    cuts := CanonicalCuts(split, 0, |cfg.sec.layers|);
    fri := FriPhases(cfg.sec, cfg.proofId, 0, cuts).value;
  }

  lemma PlanLayers(cfg: Setting, plan: seq<PhasePlan>, cuts: seq<nat>, fri: seq<PhasePlan>, i: nat)
    requires |cfg.sec.layers| >= 1
    requires CutsBetween(cuts, 0, |cfg.sec.layers|) && FriPhases(cfg.sec, cfg.proofId, 0, cuts) == Ok(fri)
    requires |plan| >= 3 && plan == plan[..3] + fri
    requires plan[0].layers == [] && plan[1].layers == [] && plan[2].layers == []
    requires 3 <= i <= |plan|
    ensures |plan| == |cuts| + 4
    ensures LayersBefore(plan, i) == Bound(cuts, 0, |cfg.sec.layers|, i - 3)
  {
    hide FriPhases, Bound, CutsBetween;
    FriLayersCovered(cfg, cuts, 0);
    assert LayersBefore(plan, 1) == LayersBefore(plan, 0) + 0;
    assert LayersBefore(plan, 2) == LayersBefore(plan, 1) + 0;
    assert LayersBefore(plan, 3) == 0;
    LayersBeforeConcat(plan[..3], fri, i - 3);
    FriLayersCovered(cfg, cuts, i - 3);
  }

  lemma PlanHasShape(cfg: Setting, plan: seq<PhasePlan>)
    requires Plannable(cfg.sec) && IsPlan(cfg, plan)
    ensures PlanShape(cfg, plan)
  {
    hide IsPlan, FriPhases, FriSplitOf, CutsBetween, LayersBefore;
    var cuts, fri := PlanParts(cfg, plan);
    forall i | 3 <= i < |plan|
      ensures plan[i].entrypoint == Fri && plan[i].echo == FriState && LayersBefore(plan, i) < |cfg.sec.layers|
    {
      PlanLayers(cfg, plan, cuts, fri, i);
      PlanFri(cfg, plan, cuts, fri, i);
      BoundInside(cuts, |cfg.sec.layers|, i - 3);
    }
    PlanLayers(cfg, plan, cuts, fri, |plan|);
    assert Bound(cuts, 0, |cfg.sec.layers|, |plan| - 3) == |cfg.sec.layers|;
  }

  lemma PlanFri(cfg: Setting, plan: seq<PhasePlan>, cuts: seq<nat>, fri: seq<PhasePlan>, i: nat)
    requires |cfg.sec.layers| >= 1 && CutsBetween(cuts, 0, |cfg.sec.layers|)
    requires FriPhases(cfg.sec, cfg.proofId, 0, cuts) == Ok(fri)
    requires 3 <= i < |plan| && plan == plan[..3] + fri
    ensures plan[i].entrypoint == Fri && plan[i].echo == FriState
  {
    hide FriPhases, CutsBetween;
    FriPhasesShape(cfg.sec, cfg.proofId, 0, cuts);
    assert plan[i] == fri[i - 3] && fri[i - 3] in fri;
  }

  lemma BoundInside(cuts: seq<nat>, n: nat, i: nat)
    requires n >= 1 && CutsBetween(cuts, 0, n) && i <= |cuts|
    ensures Bound(cuts, 0, n, i) < n
  {
  }

  lemma {:induction false} LayersDoneIs(accepted: seq<Accepted>, plan: seq<PhasePlan>)
    requires |accepted| <= |plan|
    requires forall i :: 0 <= i < |accepted| ==> accepted[i].phase == plan[i]
    ensures LayersDone(accepted) == LayersBefore(plan, |accepted|)
    decreases |accepted|
  {
    if accepted != [] {
      LayersDoneIs(accepted[..|accepted| - 1], plan);
    }
  }

  /** After part of a plan the router's tag is the one the next phase expects; after all of it, DONE. */
  lemma TagOfPrefix(cfg: Setting, accepted: seq<Accepted>, plan: seq<PhasePlan>)
    requires PlanShape(cfg, plan) && 0 < |accepted| <= |plan|
    requires forall i :: 0 <= i < |accepted| ==> Chained(accepted, plan, i)
    ensures TagOf(cfg, accepted) ==
            if |accepted| == |plan| then DONE else ExpectedTag(plan[|accepted|])
  {
    hide FriSplitOf, PhaseCalldata;
    forall i | 0 <= i < |accepted| ensures accepted[i].phase == plan[i] {
      assert Chained(accepted, plan, i);
    }
    LayersDoneIs(accepted, plan);
  }

  // ----- every step keeps the invariant --------------------------------------------------------

  lemma RecordPlanOk(cfg: Setting, w: World, plan: seq<PhasePlan>)
    requires Plannable(cfg.sec) && IsPlan(cfg, plan)
    ensures forall s: Sequence :: s.phases == plan ==> RecordOk(cfg, w.(store := RecordPlan(cfg, w.store, s)), plan)
  {
    hide PlanPhases, FriSplitOf;
    var split: seq<int>, max: nat :| PlanPhases(cfg.sec, cfg.proofId, split, max) == Ok(plan);
    SplitOfPlan(cfg.sec, cfg.proofId, split, max);
    var cuts := CanonicalCuts(split, 0, |cfg.sec.layers|);
    if cfg.hasStore {
      StoredRoundTrip(cfg, w.store, cuts, |cfg.sec.layers|);
    }
  }

  /** A resume that gets past `checkResumePlan` continues with the very plan that was started. */
  lemma ResumePlanIsOriginal(cfg: Setting, w: World, s: Sequence)
    requires Inv(cfg, w) && w.accepted != [] && IsPlan(cfg, s.phases) && CutKnown(cfg, w, s)
    requires CheckResumePlan(cfg, s, w.store).Ok?
    ensures CheckResumePlan(cfg, s, w.store).value.phases == w.plan
  {
    hide PlanPhases, FriSplitOf, StoredFriSplit, TagOf;
    if StoredFriSplit(cfg, w.store).Some? {
      var saved := StoredFriSplit(cfg, w.store).value;
      var phases := CheckResumePlan(cfg, s, w.store).value.phases;
      if FriSplitOf(s.phases) == Some(saved) {
        PlanIsItsCuts(cfg, s.phases, w.plan);
      } else {
        assert PlanPhases(cfg.sec, cfg.proofId, saved, s.friPlan.value) == Ok(phases);
        var split: seq<int>, max: nat :| PlanPhases(cfg.sec, cfg.proofId, split, max) == Ok(w.plan);
        PlanOfSplit(cfg.sec, cfg.proofId, split, max, saved);
        SplitOfPlan(cfg.sec, cfg.proofId, saved, s.friPlan.value);
        SplitOfPlan(cfg.sec, cfg.proofId, split, max);
        CutsUnique(CanonicalCuts(saved, 0, |cfg.sec.layers|), saved, 0, |cfg.sec.layers|);
        assert IsPlan(cfg, phases);
        PlanIsItsCuts(cfg, phases, w.plan);
      }
    }
  }

  lemma CheckpointOk(cfg: Setting, w: World)
    requires Inv(cfg, w) && Enabled(cfg, w, ReadCheckpoint)
    ensures Inv(cfg, Step(cfg, w, ReadCheckpoint))
  {
    hide IsPlan, PlanPhases, FriSplitOf, StoredFriSplit, CheckResumePlan, RecordPlan, LayersDone;
    var s := w.pc.seqn;
    var t := Step(cfg, w, ReadCheckpoint);
    if w.accepted == [] {
      PlanHasShape(cfg, s.phases);
      RecordPlanOk(cfg, w, s.phases);
      assert t.store.echoes == w.store.echoes by { RecordKeepsEchoes(cfg, w.store, s); }
    } else {
      PlanHasShape(cfg, w.plan);
      TagOfPrefix(cfg, w.accepted, w.plan);
      if TagOf(cfg, w.accepted) != DONE && CheckResumePlan(cfg, s, w.store).Ok? {
        ResumePlanIsOriginal(cfg, w, s);
      }
    }
  }

  lemma RecordKeepsEchoes(cfg: Setting, store: Store, s: Sequence)
    ensures RecordPlan(cfg, store, s).echoes == store.echoes
  {
  }

  lemma ResumeOk(cfg: Setting, w: World, act: Action)
    requires Inv(cfg, w) && Enabled(cfg, w, act) && (act.ReadEvents? || act.ReadTrace?)
    ensures Inv(cfg, Step(cfg, w, act))
  {
    hide IsPlan, PlanPhases, FriSplitOf, StoredFriSplit, RecordPlan, TagOf;
    var s := w.pc.seqn;
    RecordPlanOk(cfg, w, w.plan);
    RecordKeepsEchoes(cfg, w.store, s);
    PlanHasShape(cfg, w.plan);
    TagOfPrefix(cfg, w.accepted, w.plan);
  }

  lemma SendOk(cfg: Setting, w: World, returned: seq<nat>)
    requires Inv(cfg, w) && Enabled(cfg, w, Send(returned))
    ensures Inv(cfg, Step(cfg, w, Send(returned)))
  {
    hide IsPlan, FriSplitOf, StoredFriSplit, PhaseCalldata, TagOf, CheckResumePlan, RecordPlan, LayersBefore, CutKnown;
    var Sending(s, i, echo) := w.pc;
    PlanHasShape(cfg, s.phases);
    BeginNeedsNoEcho(s.phases[i], echo);
    var t := Step(cfg, w, Send(returned));
    if t.accepted != w.accepted {
      SentIsChained(w, s, i, echo, t);
    }
  }

  /** `begin` ignores the echo; every other phase refuses to go without one. */
  lemma BeginNeedsNoEcho(p: PhasePlan, echo: Option<seq<nat>>)
    ensures p.entrypoint == Begin ==> PhaseCalldata(p, echo) == PhaseCalldata(p, None)
    ensures p.entrypoint != Begin && PhaseCalldata(p, echo).Ok? ==> echo.Some?
  {
  }

  lemma SentIsChained(w: World, s: Sequence, i: nat, echo: Option<seq<nat>>, t: World)
    requires i == |w.accepted| < |s.phases| && |t.accepted| == i + 1 && t.accepted[..i] == w.accepted
    requires t.plan == s.phases && (i > 0 ==> w.plan == s.phases)
    requires t.accepted[i].phase == s.phases[i]
    requires t.accepted[i].echo == if i == 0 then None else Some(w.accepted[i - 1].returned)
    requires PhaseCalldata(s.phases[i], t.accepted[i].echo) == Ok(t.accepted[i].calldata)
    requires forall k :: 0 <= k < i ==> Chained(w.accepted, w.plan, k)
    ensures forall k :: 0 <= k < |t.accepted| ==> Chained(t.accepted, t.plan, k)
  {
    hide PhaseCalldata;
    forall k | 0 <= k < i ensures Chained(t.accepted, t.plan, k) {
      assert Chained(w.accepted, w.plan, k);
      assert t.accepted[..i][k] == w.accepted[k];
      assert k > 0 ==> t.accepted[..i][k - 1] == w.accepted[k - 1];
    }
    assert i > 0 ==> t.accepted[..i][i - 1] == w.accepted[i - 1];
  }

  lemma OtherOk(cfg: Setting, w: World, act: Action)
    requires Inv(cfg, w) && Enabled(cfg, w, act)
    requires act.Start? || act.ReceiveReceipt? || act.ReadEcho? || act.Crash? || act.WipeStore?
    ensures Inv(cfg, Step(cfg, w, act))
  {
    hide IsPlan, FriSplitOf, PhaseCalldata, TagOf, CheckResumePlan, RecordPlan;
  }

  /** Every step of the client, every crash and every wipe of the store keeps the invariant. */
  lemma StepInv(cfg: Setting, w: World, act: Action)
    requires Inv(cfg, w) && Enabled(cfg, w, act)
    ensures Inv(cfg, Step(cfg, w, act))
  {
    hide Inv, Step;
    match act
    case ReadCheckpoint => CheckpointOk(cfg, w);
    case ReadEvents => ResumeOk(cfg, w, act);
    case ReadTrace(_) => ResumeOk(cfg, w, act);
    case Send(returned) => SendOk(cfg, w, returned);
    case _ => OtherOk(cfg, w, act);
  }

  lemma {:induction false} RunInv(cfg: Setting, w: World, acts: seq<Action>)
    requires Inv(cfg, w) && CanRun(cfg, w, acts)
    ensures Inv(cfg, Run(cfg, w, acts))
    decreases |acts|
  {
    hide Step, Possible, CutKnown, InOrder, PcOk;
    if acts != [] {
      StepInv(cfg, w, acts[0]);
      RunInv(cfg, Step(cfg, w, acts[0]), acts[1..]);
    }
  }

  // ----- what holds over every run -------------------------------------------------------------

  /** What transaction `i` tells the router: the fields of phase `i`, and the state transaction `i - 1` returned. */
  predicate TellsRouter(accepted: seq<Accepted>, plan: seq<PhasePlan>, i: nat)
    requires i < |accepted| && i < |plan|
  {
    ReadArguments(plan[i].entrypoint, accepted[i].calldata) == Ok(Told(plan[i], if i == 0 then [] else accepted[i - 1].returned))
  }

  lemma ChainedTells(accepted: seq<Accepted>, plan: seq<PhasePlan>, i: nat)
    requires i < |accepted| && Chained(accepted, plan, i)
    ensures TellsRouter(accepted, plan, i)
  {
    hide PhaseCalldata, ReadArguments, Told;
    CalldataReadsBack(plan[i], accepted[i].echo);
  }

  /**
   * Over any series of attempts, whatever crashes and whatever the stores lose, the router has
   * accepted the phases of one plan, each once, in order; the calldata of each, read argument by
   * argument, holds that phase and the state its predecessor returned; and a run that finishes has
   * had all of them accepted.
   */
  lemma AcceptedOnceInOrder(cfg: Setting, acts: seq<Action>)
    requires Plannable(cfg.sec) && CanRun(cfg, Init(), acts)
    ensures var w := Run(cfg, Init(), acts);
            && |w.accepted| <= |w.plan|
            && (w.accepted != [] ==> IsPlan(cfg, w.plan))
            && (forall i :: 0 <= i < |w.accepted| ==> Chained(w.accepted, w.plan, i) && TellsRouter(w.accepted, w.plan, i))
            && (w.pc.Finished? ==> |w.accepted| == |w.plan|)
  {
    RunInv(cfg, Init(), acts);
    var w := Run(cfg, Init(), acts);
    hide PhaseCalldata, TellsRouter, IsPlan;
    forall i: nat | i < |w.accepted| ensures TellsRouter(w.accepted, w.plan, i) {
      ChainedTells(w.accepted, w.plan, i);
    }
  }

  /** The transactions as the router saw them. */
  function SentTo(accepted: seq<Accepted>): seq<(Entrypoint, seq<nat>)> {
    seq(|accepted|, i requires 0 <= i < |accepted| => (accepted[i].phase.entrypoint, accepted[i].calldata))
  }

  /** When an attempt finishes, the calldata the router accepted holds the whole proof. */
  lemma FinishedCarriesProof(cfg: Setting, acts: seq<Action>, v: seq<nat>)
    requires Plannable(cfg.sec) && CanRun(cfg, Init(), acts) && Run(cfg, Init(), acts).pc.Finished?
    requires ParseProof(v) == Ok(cfg.sec)
    ensures RecoverSent(SentTo(Run(cfg, Init(), acts).accepted)) == Some(v)
  {
    hide Inv, TellsRouter, PhaseCalldata, RecoverSent, ParseProof, Chained, Possible, Step, IsPlan;
    AcceptedOnceInOrder(cfg, acts);
    var w := Run(cfg, Init(), acts);
    InitOk(cfg);
    RunInv(cfg, Init(), acts);
    FinishedIsWhole(cfg, w);
    SentIsPlan(w.accepted, w.plan);
    PlanIsCarried(cfg, w.plan, EchoesOf(w.accepted), SentTo(w.accepted), v);
  }

  lemma InitOk(cfg: Setting)
    requires Plannable(cfg.sec)
    ensures Inv(cfg, Init())
  {
  }

  lemma FinishedIsWhole(cfg: Setting, w: World)
    requires Inv(cfg, w) && w.pc.Finished?
    ensures |w.accepted| == |w.plan| && IsPlan(cfg, w.plan)
  {
    hide IsPlan, Chained;
  }

  function EchoesOf(accepted: seq<Accepted>): seq<Option<seq<nat>>> {
    seq(|accepted|, i requires 0 <= i < |accepted| => accepted[i].echo)
  }

  lemma SentIsPlan(accepted: seq<Accepted>, plan: seq<PhasePlan>)
    requires |accepted| == |plan| && forall i :: 0 <= i < |accepted| ==> Chained(accepted, plan, i)
    ensures SentAs(plan, EchoesOf(accepted), SentTo(accepted))
  {
    hide PhaseCalldata;
    forall i: nat | i < |plan|
      ensures SentTo(accepted)[i].0 == plan[i].entrypoint
      ensures PhaseCalldata(plan[i], EchoesOf(accepted)[i]) == Ok(SentTo(accepted)[i].1)
    {
      assert Chained(accepted, plan, i);
    }
  }

  lemma PlanIsCarried(cfg: Setting, plan: seq<PhasePlan>, echoes: seq<Option<seq<nat>>>, sent: seq<(Entrypoint, seq<nat>)>, v: seq<nat>)
    requires Plannable(cfg.sec) && IsPlan(cfg, plan) && SentAs(plan, echoes, sent) && ParseProof(v) == Ok(cfg.sec)
    ensures RecoverSent(sent) == Some(v)
  {
    hide SentAs, RecoverSent, ParseProof, Recover, UncheckedPlan;
    var split: seq<int>, max: nat :| PlanPhases(cfg.sec, cfg.proofId, split, max) == Ok(plan);
    PhasesCarryProof(v, cfg.proofId, split, max, echoes, sent);
  }

  /** Once a sequence has started, every attempt that gets to send anything works on the plan that was started. */
  lemma ResumedPlanIsOriginal(cfg: Setting, acts: seq<Action>)
    requires Plannable(cfg.sec) && CanRun(cfg, Init(), acts)
    ensures var w := Run(cfg, Init(), acts);
            w.accepted != [] && w.pc.Sending? ==> w.pc.seqn.phases == w.plan
  {
    RunInv(cfg, Init(), acts);
  }

  /** An automatic resume without a record is refused: the default cut never replaces an unknown one. */
  lemma UnknownPlanIsRefused(cfg: Setting, w: World)
    requires Inv(cfg, w) && Enabled(cfg, w, ReadCheckpoint)
    requires 0 < |w.accepted| < |w.plan|
    requires StoredFriSplit(cfg, w.store).None? && !w.pc.seqn.explicitFriSplit
    ensures Step(cfg, w, ReadCheckpoint) == w.(pc := Idle)
  {
    PlanHasShape(cfg, w.plan);
    TagOfPrefix(cfg, w.accepted, w.plan);
  }

  // ----- an interrupted sequence can always be finished ----------------------------------------

  /** One transaction, its receipt and its echo, undisturbed. */
  lemma SendOne(cfg: Setting, w: World) returns (t: World)
    requires Inv(cfg, w) && w.pc.Sending? && (w.accepted == [] || w.pc.echo.Some?) && w.pc.i < |w.pc.seqn.phases|
    ensures Plannable(cfg.sec) && Enabled(cfg, w, Send([])) && Enabled(cfg, Step(cfg, w, Send([])), ReceiveReceipt)
    ensures Enabled(cfg, Step(cfg, Step(cfg, w, Send([])), ReceiveReceipt), ReadEcho(true))
    ensures t == Step(cfg, Step(cfg, Step(cfg, w, Send([])), ReceiveReceipt), ReadEcho(true)) && Inv(cfg, t)
    ensures |t.accepted| == |w.accepted| + 1 && t.plan == w.pc.seqn.phases
    ensures t.pc == Loop(w.pc.seqn, w.pc.i + 1, Some(Returned(t)))
  {
    hide IsPlan, FriSplitOf, StoredFriSplit, TagOf, CheckResumePlan;
    PlanHasShape(cfg, w.pc.seqn.phases);
    var w1 := Step(cfg, w, Send([]));
    StepInv(cfg, w, Send([]));
    var w2 := Step(cfg, w1, ReceiveReceipt);
    StepInv(cfg, w1, ReceiveReceipt);
    t := Step(cfg, w2, ReadEcho(true));
    StepInv(cfg, w2, ReadEcho(true));
  }

  lemma {:induction false} FinishSending(cfg: Setting, w: World) returns (acts: seq<Action>)
    requires Inv(cfg, w) && w.pc.Sending? && (w.accepted == [] || w.pc.echo.Some?)
    requires w.pc.i < |w.pc.seqn.phases|
    ensures CanRun(cfg, w, acts) && Run(cfg, w, acts).pc.Finished?
    decreases |w.pc.seqn.phases| - w.pc.i
  {
    hide Inv, Step, Possible, CutKnown;
    var t := SendOne(cfg, w);
    var rest := [];
    if t.pc.Sending? {
      rest := FinishSending(cfg, t);
    }
    RunThree(cfg, w, Send([]), ReceiveReceipt, ReadEcho(true), rest);
    acts := [Send([]), ReceiveReceipt, ReadEcho(true)] + rest;
  }

  lemma RunThree(cfg: Setting, w: World, a: Action, b: Action, c: Action, rest: seq<Action>)
    requires Plannable(cfg.sec) && Enabled(cfg, w, a)
    requires Enabled(cfg, Step(cfg, w, a), b)
    requires Enabled(cfg, Step(cfg, Step(cfg, w, a), b), c)
    requires CanRun(cfg, Step(cfg, Step(cfg, Step(cfg, w, a), b), c), rest)
    ensures CanRun(cfg, w, [a, b, c] + rest)
    ensures Run(cfg, w, [a, b, c] + rest) == Run(cfg, Step(cfg, Step(cfg, Step(cfg, w, a), b), c), rest)
  {
    hide Step, Possible, CutKnown;
    var w1 := Step(cfg, w, a);
    var w2 := Step(cfg, w1, b);
    RunOne(cfg, w2, c, rest);
    RunOne(cfg, w1, b, [c] + rest);
    RunOne(cfg, w, a, [b] + ([c] + rest));
    assert [a] + ([b] + ([c] + rest)) == [a, b, c] + rest;
  }

  /**
   * An interrupted sequence can always be finished: with its plan record in place (or given its
   * original cut again) and the router's traces readable, a fresh attempt runs to the end and
   * never meets one of the errors of `resumePoint`.
   */
  lemma InterruptedCanFinish(cfg: Setting, w: World, s: Sequence) returns (acts: seq<Action>)
    requires Inv(cfg, w) && w.pc.Idle? && IsPlan(cfg, s.phases)
    requires w.accepted != [] ==>
               CutKnown(cfg, w, s) && CheckResumePlan(cfg, s, w.store).Ok?
    ensures CanRun(cfg, w, acts) && Run(cfg, w, acts).pc.Finished?
  {
    hide IsPlan, FriSplitOf, StoredFriSplit, PhaseCalldata, TagOf, CheckResumePlan, PlanPhases;
    var w1 := Step(cfg, w, Start(s));
    StepInv(cfg, w, Start(s));
    assert Enabled(cfg, w1, ReadCheckpoint);
    var w2 := Step(cfg, w1, ReadCheckpoint);
    StepInv(cfg, w1, ReadCheckpoint);
    PlanHasShape(cfg, s.phases);
    FreeTag(cfg);
    if w.accepted == [] {
      var rest := FinishSending(cfg, w2);
      acts := [Start(s), ReadCheckpoint] + rest;
      RunTwo(cfg, w, Start(s), ReadCheckpoint, rest);
      return;
    }
    PlanHasShape(cfg, w.plan);
    TagOfPrefix(cfg, w.accepted, w.plan);
    if |w.accepted| == |w.plan| {
      acts := [Start(s), ReadCheckpoint];
      RunTwo(cfg, w, Start(s), ReadCheckpoint, []);
      assert acts + [] == acts;
      return;
    }
    var w3 := Step(cfg, w2, ReadEvents);
    StepInv(cfg, w2, ReadEvents);
    if w3.pc.Sending? {
      var rest := FinishSending(cfg, w3);
      acts := [Start(s), ReadCheckpoint, ReadEvents] + rest;
      RunThree(cfg, w, Start(s), ReadCheckpoint, ReadEvents, rest);
    } else {
      var w4 := Step(cfg, w3, ReadTrace(true));
      StepInv(cfg, w3, ReadTrace(true));
      var rest := FinishSending(cfg, w4);
      RunOne(cfg, w3, ReadTrace(true), rest);
      RunThree(cfg, w, Start(s), ReadCheckpoint, ReadEvents, [ReadTrace(true)] + rest);
      acts := [Start(s), ReadCheckpoint, ReadEvents] + ([ReadTrace(true)] + rest);
    }
  }

  lemma FreeTag(cfg: Setting)
    ensures TagOf(cfg, []) == FREE
  {
  }

  lemma RunOne(cfg: Setting, w: World, a: Action, rest: seq<Action>)
    requires Plannable(cfg.sec) && Enabled(cfg, w, a) && CanRun(cfg, Step(cfg, w, a), rest)
    ensures CanRun(cfg, w, [a] + rest) && Run(cfg, w, [a] + rest) == Run(cfg, Step(cfg, w, a), rest)
  {
    hide Step, Possible, CutKnown;
    assert ([a] + rest)[1..] == rest;
  }

  lemma RunTwo(cfg: Setting, w: World, a: Action, b: Action, rest: seq<Action>)
    requires Plannable(cfg.sec) && Enabled(cfg, w, a) && Enabled(cfg, Step(cfg, w, a), b)
    requires CanRun(cfg, Step(cfg, Step(cfg, w, a), b), rest)
    ensures CanRun(cfg, w, [a, b] + rest)
    ensures Run(cfg, w, [a, b] + rest) == Run(cfg, Step(cfg, Step(cfg, w, a), b), rest)
  {
    hide Step, Possible, CutKnown;
    RunOne(cfg, Step(cfg, w, a), b, rest);
    RunOne(cfg, w, a, [b] + rest);
    assert [a] + ([b] + rest) == [a, b] + rest;
  }

  // ----- the stored record brings back the plan ------------------------------------------------

  ghost predicate NoWipe(acts: seq<Action>) {
    forall i :: 0 <= i < |acts| ==> !acts[i].WipeStore?
  }

  /** The store names the cuts of the plan under way, from before its first transaction on. */
  predicate Recorded(cfg: Setting, w: World) {
    && (w.accepted != [] ==> StoredFriSplit(cfg, w.store).Some? && StoredFriSplit(cfg, w.store) == FriSplitOf(w.plan))
    && (w.accepted == [] && w.pc.Sending? ==>
          StoredFriSplit(cfg, w.store).Some? && StoredFriSplit(cfg, w.store) == FriSplitOf(w.pc.seqn.phases))
  }

  lemma RecordReadsBack(cfg: Setting, store: Store, s: Sequence)
    requires Plannable(cfg.sec) && IsPlan(cfg, s.phases) && cfg.hasStore
    ensures var after := RecordPlan(cfg, store, s);
            StoredFriSplit(cfg, after).Some? && StoredFriSplit(cfg, after) == FriSplitOf(s.phases)
  {
    hide PlanPhases, FriSplitOf, StoredFriSplit, CanonicalCuts;
    var split: seq<int>, max: nat :| PlanPhases(cfg.sec, cfg.proofId, split, max) == Ok(s.phases);
    SplitOfPlan(cfg.sec, cfg.proofId, split, max);
    StoredRoundTrip(cfg, store, CanonicalCuts(split, 0, |cfg.sec.layers|), |cfg.sec.layers|);
  }

  lemma StoredIgnoresEchoes(cfg: Setting, store: Store, echoes: map<nat, seq<nat>>)
    ensures StoredFriSplit(cfg, store.(echoes := echoes)) == StoredFriSplit(cfg, store)
  {
  }

  lemma RecordStays(cfg: Setting, w: World, act: Action)
    requires Inv(cfg, w) && Enabled(cfg, w, act) && !act.WipeStore? && cfg.hasStore && Recorded(cfg, w)
    ensures Recorded(cfg, Step(cfg, w, act))
  {
    hide IsPlan, FriSplitOf, StoredFriSplit, PhaseCalldata, CheckResumePlan, InOrder, EchoesOk, RecordPlan, LayersDone;
    match act
    case ReadCheckpoint => RecordReadsBack(cfg, w.store, w.pc.seqn);
    case ReadEvents => PlanKnown(cfg, w); RecordReadsBack(cfg, w.store, w.pc.seqn);
    case ReadTrace(_) => PlanKnown(cfg, w); RecordReadsBack(cfg, w.store, w.pc.seqn);
    case ReadEcho(_) => StoredIgnoresEchoes(cfg, w.store, w.store.echoes[w.pc.i := Returned(w)]);
    case _ =>
  }

  lemma PlanKnown(cfg: Setting, w: World)
    requires Inv(cfg, w) && (w.pc.ReadingEvents? || w.pc.ReadingTrace?)
    ensures w.accepted != [] && w.pc.seqn.phases == w.plan && IsPlan(cfg, w.plan)
  {
    hide IsPlan, Chained;
  }

  lemma {:induction false} RecordedRun(cfg: Setting, w: World, acts: seq<Action>)
    requires Inv(cfg, w) && CanRun(cfg, w, acts) && NoWipe(acts) && cfg.hasStore && Recorded(cfg, w)
    ensures Recorded(cfg, Run(cfg, w, acts)) && Inv(cfg, Run(cfg, w, acts))
    decreases |acts|
  {
    hide Inv, Step, Possible, CutKnown, Recorded;
    if acts != [] {
      PlannableOf(cfg, w);
      StepInv(cfg, w, acts[0]);
      RecordStays(cfg, w, acts[0]);
      RecordedRun(cfg, Step(cfg, w, acts[0]), acts[1..]);
    }
  }

  lemma PlannableOf(cfg: Setting, w: World)
    requires Inv(cfg, w)
    ensures Plannable(cfg.sec)
  {
  }

  /**
   * With a store that has kept its record, an automatic plan is restored to the very plan that was
   * started, whatever its own cut, as long as the started phases are within its cap; and the
   * sequence can then be finished.
   */
  lemma AutomaticResumeIsOriginal(cfg: Setting, acts: seq<Action>, s: Sequence, max: nat) returns (rest: seq<Action>)
    requires Plannable(cfg.sec) && cfg.hasStore && CanRun(cfg, Init(), acts) && NoWipe(acts)
    requires var w := Run(cfg, Init(), acts);
             && w.pc.Idle? && w.accepted != [] && IsPlan(cfg, s.phases) && !s.explicitFriSplit && s.friPlan == Some(max)
             && forall i :: 0 <= i < |w.plan| ==> w.plan[i].calldataFelts <= max
    ensures var w := Run(cfg, Init(), acts);
            && CheckResumePlan(cfg, s, w.store).Ok? && CheckResumePlan(cfg, s, w.store).value.phases == w.plan
            && CanRun(cfg, w, rest) && Run(cfg, w, rest).pc.Finished?
  {
    hide Inv, IsPlan, CheckResumePlan, FriSplitOf, StoredFriSplit, Possible, Step;
    InitOk(cfg);
    RecordedRun(cfg, Init(), acts);
    var w := Run(cfg, Init(), acts);
    RecordRestores(cfg, w, s, max);
    rest := InterruptedCanFinish(cfg, w, s);
  }

  lemma RecordRestores(cfg: Setting, w: World, s: Sequence, max: nat)
    requires Inv(cfg, w) && Recorded(cfg, w) && w.accepted != [] && IsPlan(cfg, s.phases)
    requires !s.explicitFriSplit && s.friPlan == Some(max)
    requires forall i :: 0 <= i < |w.plan| ==> w.plan[i].calldataFelts <= max
    ensures Plannable(cfg.sec)
    ensures CheckResumePlan(cfg, s, w.store).Ok? && CheckResumePlan(cfg, s, w.store).value.phases == w.plan
  {
    hide FriSplitOf, StoredFriSplit, UncheckedPlan, Chained, CanonicalCuts;
    var saved := StoredFriSplit(cfg, w.store).value;
    if FriSplitOf(s.phases) == Some(saved) {
      PlanIsItsCuts(cfg, s.phases, w.plan);
    } else {
      var split: seq<int>, cap: nat :| PlanPhases(cfg.sec, cfg.proofId, split, cap) == Ok(w.plan);
      PlanOfSplit(cfg.sec, cfg.proofId, split, cap, saved);
      assert PlanPhases(cfg.sec, cfg.proofId, saved, max) == Ok(w.plan);
    }
  }

  ghost predicate NoSend(acts: seq<Action>) {
    forall i :: 0 <= i < |acts| ==> !acts[i].Send?
  }

  predicate LastEchoStored(w: World) {
    w.accepted != [] && |w.accepted| - 1 in w.store.echoes
  }

  lemma EchoStays(cfg: Setting, w: World, act: Action)
    requires Inv(cfg, w) && Enabled(cfg, w, act) && !act.WipeStore? && !act.Send? && LastEchoStored(w)
    ensures LastEchoStored(Step(cfg, w, act))
  {
    hide IsPlan, FriSplitOf, StoredFriSplit, PhaseCalldata, CheckResumePlan, InOrder, TagOf, RecordPlan, EchoesOk;
    if act.ReadCheckpoint? || act.ReadEvents? || act.ReadTrace? {
      RecordKeepsEchoes(cfg, w.store, w.pc.seqn);
    }
  }

  lemma {:induction false} EchoStaysRun(cfg: Setting, w: World, acts: seq<Action>)
    requires Inv(cfg, w) && CanRun(cfg, w, acts) && NoWipe(acts) && NoSend(acts) && LastEchoStored(w)
    ensures LastEchoStored(Run(cfg, w, acts)) && Inv(cfg, Run(cfg, w, acts))
    decreases |acts|
  {
    hide Inv, Step, Possible, CutKnown, LastEchoStored;
    if acts != [] {
      PlannableOf(cfg, w);
      StepInv(cfg, w, acts[0]);
      EchoStays(cfg, w, acts[0]);
      EchoStaysRun(cfg, Step(cfg, w, acts[0]), acts[1..]);
    }
  }

  /**
   * Once a transaction's returned state has been read and stored, no later resume before the next
   * transaction needs its trace: the stored state is what the next transaction carries.
   */
  lemma StoredEchoSparesTrace(cfg: Setting, w: World, acts: seq<Action>)
    requires Inv(cfg, w) && cfg.hasStore && w.pc.ReadingEcho? && NoWipe(acts) && NoSend(acts)
    requires Enabled(cfg, w, ReadEcho(true)) && CanRun(cfg, Step(cfg, w, ReadEcho(true)), acts)
    requires Run(cfg, Step(cfg, w, ReadEcho(true)), acts).pc.ReadingEvents?
    ensures var t := Run(cfg, Step(cfg, w, ReadEcho(true)), acts);
            && Possible(cfg, t, ReadEvents) && t.accepted != []
            && var u := Step(cfg, t, ReadEvents);
               !u.pc.ReadingTrace? && (u.pc.Sending? ==> u.pc.echo == Some(Returned(t)) && u.pc.i == |t.accepted|)
  {
    hide Inv, Step, LastEchoStored, Possible, CutKnown;
    PlannableOf(cfg, w);
    StepInv(cfg, w, ReadEcho(true));
    EchoIsStored(cfg, w);
    EchoStaysRun(cfg, Step(cfg, w, ReadEcho(true)), acts);
    EchoIsUsed(cfg, Run(cfg, Step(cfg, w, ReadEcho(true)), acts));
  }

  lemma EchoIsStored(cfg: Setting, w: World)
    requires Inv(cfg, w) && cfg.hasStore && w.pc.ReadingEcho? && Enabled(cfg, w, ReadEcho(true))
    ensures LastEchoStored(Step(cfg, w, ReadEcho(true)))
  {
    hide IsPlan, InOrder, EchoesOk, RecordOk;
  }

  lemma EchoIsUsed(cfg: Setting, w: World)
    requires Inv(cfg, w) && LastEchoStored(w) && w.pc.ReadingEvents?
    ensures Possible(cfg, w, ReadEvents) && w.accepted != []
    ensures var u := Step(cfg, w, ReadEvents);
            !u.pc.ReadingTrace? && (u.pc.Sending? ==> u.pc.echo == Some(Returned(w)) && u.pc.i == |w.accepted|)
  {
    hide IsPlan, InOrder, RecordOk, TagOf, RecordPlan;
  }

  // ----- why the cut must be known -------------------------------------------------------------

  /** The layers a list of phases carries, one phase after the other. */
  function AllLayers(phases: seq<PhasePlan>): seq<nat> {
    if phases == [] then [] else phases[0].layers + AllLayers(phases[1..])
  }

  /** Where phase `n` of a plan with these cuts begins in the walk. */
  function CutOf(cuts: seq<nat>, n: nat): nat
    requires 3 <= n < |cuts| + 4
  {
    if n == 3 then 0 else cuts[n - 4]
  }

  /**
   * With no record, an explicit cut is taken at its word: neither `checkResumePlan` nor the tag
   * tells one plan from another once the router is inside the FRI walk. What the resumed sequence
   * then sends are the layers from its own cut to the end, so that with what was accepted before
   * every layer is carried exactly once exactly when the two plans cut at the same layer.
   */
  lemma ExplicitCutExactly(cfg: Setting, w: World, s: Sequence)
    requires Inv(cfg, w) && IsPlan(cfg, s.phases) && s.explicitFriSplit && StoredFriSplit(cfg, w.store).None?
    requires 3 <= |w.accepted| < |w.plan| && |w.accepted| < |s.phases|
    ensures CheckResumePlan(cfg, s, w.store) == Ok(s)
    ensures TagOf(cfg, w.accepted) == ExpectedTag(s.phases[|w.accepted|])
    ensures FriSplitOf(s.phases).Some? && FriSplitOf(w.plan).Some?
    ensures var n, mine, theirs, layers := |w.accepted|, FriSplitOf(s.phases).value, FriSplitOf(w.plan).value, |cfg.sec.layers|;
            && n < |mine| + 4 && n < |theirs| + 4 && CutOf(mine, n) < layers && CutOf(theirs, n) < layers
            && LayersDone(w.accepted) == CutOf(theirs, n)
            && AllLayers(w.plan[..n]) == Range(0, CutOf(theirs, n))
            && AllLayers(s.phases[n..]) == Range(CutOf(mine, n), layers)
            && (AllLayers(w.plan[..n]) + AllLayers(s.phases[n..]) == Range(0, layers) <==> CutOf(mine, n) == CutOf(theirs, n))
  {
    hide IsPlan, FriSplitOf, PhaseCalldata, LayersBefore, TagOf, LayersDone, FriPhases, AllLayers;
    var n := |w.accepted|;
    PlanHasShape(cfg, w.plan);
    PlanHasShape(cfg, s.phases);
    TagOfPrefix(cfg, w.accepted, w.plan);
    AcceptedArePlan(cfg, w, n);
    LayersDoneIs(w.accepted, w.plan);
    PlanCovers(cfg, w.plan, n);
    PlanCovers(cfg, s.phases, n);
    RangesMeet(CutOf(FriSplitOf(w.plan).value, n), CutOf(FriSplitOf(s.phases).value, n), |cfg.sec.layers|);
  }

  lemma AcceptedArePlan(cfg: Setting, w: World, n: nat)
    requires Inv(cfg, w) && n <= |w.accepted|
    ensures forall i :: 0 <= i < n ==> w.accepted[i].phase == w.plan[i]
  {
    hide IsPlan, EchoesOk, RecordOk, PcOk;
    forall i | 0 <= i < n ensures w.accepted[i].phase == w.plan[i] {
      assert Chained(w.accepted, w.plan, i);
    }
  }

  /** Two stretches of a walk make up the whole of it exactly when the second starts where the first ends. */
  lemma RangesMeet(a: nat, b: nat, n: nat)
    requires a < n && b < n
    ensures Range(0, a) + Range(b, n) == Range(0, n) <==> a == b
  {
    if a == b {
      assert Range(0, a) + Range(b, n) == Range(0, n);
    } else {
      assert |Range(0, a) + Range(b, n)| == a + (n - b);
      assert |Range(0, n)| == n;
    }
  }

  lemma {:induction false} AllLayersConcat(a: seq<PhasePlan>, b: seq<PhasePlan>)
    ensures AllLayers(a + b) == AllLayers(a) + AllLayers(b)
  {
    if a == [] {
      assert a + b == b;
    } else {
      assert (a + b)[1..] == a[1..] + b;
      AllLayersConcat(a[1..], b);
    }
  }

  lemma ChunkIsRange(sec: ProofSections, first: nat, last: nat, proofId: nat)
    requires first < last <= |sec.layers| && TxFri(sec, first, last, proofId).Ok?
    ensures TxFri(sec, first, last, proofId).value.layers == Range(first, last)
  {
  }

  lemma RangeJoin(a: nat, b: nat, c: nat)
    requires a <= b <= c
    ensures Range(a, b) + Range(b, c) == Range(a, c)
  {
  }

  /** From any chunk on, the FRI phases carry the layers from that chunk's cut to the end. */
  lemma {:induction false} FriSuffix(sec: ProofSections, proofId: nat, first: nat, cuts: seq<nat>, i: nat)
    requires first < |sec.layers| && CutsBetween(cuts, first, |sec.layers|)
    requires FriPhases(sec, proofId, first, cuts).Ok? && i <= |cuts|
    ensures |FriPhases(sec, proofId, first, cuts).value| == |cuts| + 1
    ensures Bound(cuts, first, |sec.layers|, i) < |sec.layers|
    ensures AllLayers(FriPhases(sec, proofId, first, cuts).value[i..]) == Range(Bound(cuts, first, |sec.layers|, i), |sec.layers|)
    decreases |cuts|, |cuts| - i
  {
    hide TxFri, FriPhases, CutsBetween;
    FriCount(sec, proofId, first, cuts);
    var fri := FriPhases(sec, proofId, first, cuts).value;
    if cuts == [] {
      OnlyChunk(sec, proofId, first);
      ChunkIsRange(sec, first, |sec.layers|, proofId);
      assert fri[0..] == fri && fri[1..] == [];
    } else {
      FriStep(sec, proofId, first, cuts);
      var rest := FriPhases(sec, proofId, cuts[0], cuts[1..]).value;
      if i == 0 {
        FriSuffix(sec, proofId, cuts[0], cuts[1..], 0);
        ChunkIsRange(sec, first, cuts[0], proofId);
        assert fri[0..] == fri && fri[1..] == rest && rest[0..] == rest;
        RangeJoin(first, cuts[0], |sec.layers|);
      } else {
        FriSuffix(sec, proofId, cuts[0], cuts[1..], i - 1);
        assert fri[i..] == rest[i - 1..];
      }
    }
  }

  /** A plan up to a FRI phase, and from it on. */
  lemma PlanCovers(cfg: Setting, plan: seq<PhasePlan>, n: nat)
    requires Plannable(cfg.sec) && IsPlan(cfg, plan) && 3 <= n < |plan|
    ensures FriSplitOf(plan).Some? && |plan| == |FriSplitOf(plan).value| + 4
    ensures var cut := CutOf(FriSplitOf(plan).value, n);
            && cut < |cfg.sec.layers| && LayersBefore(plan, n) == cut
            && AllLayers(plan[..n]) == Range(0, cut) && AllLayers(plan[n..]) == Range(cut, |cfg.sec.layers|)
  {
    hide IsPlan, FriSplitOf, FriPhases, CutsBetween, LayersBefore, AllLayers;
    var cuts, fri := PlanParts(cfg, plan);
    PlanLayers(cfg, plan, cuts, fri, n);
    FriSuffix(cfg.sec, cfg.proofId, 0, cuts, 0);
    FriSuffix(cfg.sec, cfg.proofId, 0, cuts, n - 3);
    assert plan[n..] == fri[n - 3..] && fri[0..] == fri;
    FirstCarryNone(plan);
    AllLayersConcat(plan[..3], fri);
    AllLayersConcat(plan[..n], plan[n..]);
    assert plan == plan[..n] + plan[n..];
    PrefixIsRange(AllLayers(plan[..n]), CutOf(cuts, n), |cfg.sec.layers|);
  }

  lemma PrefixIsRange(front: seq<nat>, cut: nat, n: nat)
    requires cut < n && front + Range(cut, n) == Range(0, n)
    ensures front == Range(0, cut)
  {
    assert |front + Range(cut, n)| == |front| + (n - cut);
    forall i | 0 <= i < |front| ensures front[i] == i {
      assert (front + Range(cut, n))[i] == front[i];
    }
  }

  lemma FirstCarryNone(plan: seq<PhasePlan>)
    requires |plan| >= 3 && plan[0].layers == [] && plan[1].layers == [] && plan[2].layers == []
    ensures AllLayers(plan[..3]) == []
  {
    var ps := plan[..3];
    assert ps[1..] == [plan[1], plan[2]] && ps[1..][1..] == [plan[2]] && ps[1..][1..][1..] == [];
    assert AllLayers(ps[1..][1..]) == plan[2].layers + AllLayers(ps[1..][1..][1..]);
    assert AllLayers(ps[1..]) == plan[1].layers + AllLayers(ps[1..][1..]);
  }

  // ----- a run that believes the wrong cut -----------------------------------------------------

  /** `acts` can happen one after the other, whatever the user does. */
  ghost predicate CanGo(cfg: Setting, w: World, acts: seq<Action>)
    requires Plannable(cfg.sec)
    decreases |acts|
  {
    acts == [] || (Possible(cfg, w, acts[0]) && CanGo(cfg, Step(cfg, w, acts[0]), acts[1..]))
  }

  ghost function Gone(cfg: Setting, w: World, acts: seq<Action>): World
    requires Plannable(cfg.sec) && CanGo(cfg, w, acts)
    decreases |acts|
  {
    if acts == [] then w else Gone(cfg, Step(cfg, w, acts[0]), acts[1..])
  }

  lemma {:induction false} RunGoes(cfg: Setting, w: World, acts: seq<Action>)
    requires Plannable(cfg.sec) && CanRun(cfg, w, acts)
    ensures CanGo(cfg, w, acts) && Gone(cfg, w, acts) == Run(cfg, w, acts)
    decreases |acts|
  {
    hide Step, Possible, CutKnown;
    if acts != [] {
      RunGoes(cfg, Step(cfg, w, acts[0]), acts[1..]);
    }
  }

  lemma {:induction false} GoJoin(cfg: Setting, w: World, a: seq<Action>, b: seq<Action>)
    requires Plannable(cfg.sec) && CanGo(cfg, w, a) && CanGo(cfg, Gone(cfg, w, a), b)
    ensures CanGo(cfg, w, a + b) && Gone(cfg, w, a + b) == Gone(cfg, Gone(cfg, w, a), b)
    decreases |a|
  {
    hide Step, Possible;
    if a == [] {
      assert a + b == b;
    } else {
      assert (a + b)[1..] == a[1..] + b;
      GoJoin(cfg, Step(cfg, w, a[0]), a[1..], b);
    }
  }

  lemma GoOne(cfg: Setting, w: World, a: Action)
    requires Plannable(cfg.sec) && Possible(cfg, w, a)
    ensures CanGo(cfg, w, [a]) && Gone(cfg, w, [a]) == Step(cfg, w, a)
  {
    hide Step, Possible;
    assert [a][1..] == [];
  }

  /** The next `k` transactions of a sequence, undisturbed. */
  lemma {:induction false} SendSome(cfg: Setting, w: World, k: nat) returns (acts: seq<Action>)
    requires Inv(cfg, w) && w.pc.Sending? && (w.accepted == [] || w.pc.echo.Some?)
    requires w.pc.i + k < |w.pc.seqn.phases|
    ensures CanRun(cfg, w, acts)
    ensures var t := Run(cfg, w, acts);
            && Inv(cfg, t) && |t.accepted| == |w.accepted| + k && t.pc.Sending? && t.pc.seqn == w.pc.seqn
            && (t.accepted != [] ==> t.plan == w.pc.seqn.phases)
    decreases k
  {
    hide Inv, Step, Possible, CutKnown;
    if k == 0 {
      acts := [];
      NextIsCount(cfg, w);
    } else {
      var t := SendOne(cfg, w);
      var rest := SendSome(cfg, t, k - 1);
      RunThree(cfg, w, Send([]), ReceiveReceipt, ReadEcho(true), rest);
      acts := [Send([]), ReceiveReceipt, ReadEcho(true)] + rest;
    }
  }

  lemma NextIsCount(cfg: Setting, w: World)
    requires Inv(cfg, w) && w.pc.Sending?
    ensures w.pc.i == |w.accepted| && (w.accepted != [] ==> w.plan == w.pc.seqn.phases)
  {
    hide InOrder, EchoesOk, RecordOk, IsPlan;
  }

  /** A sequence interrupted after `n` transactions, with the browser's storage gone. */
  lemma StartedThenWiped(cfg: Setting, s: Sequence, n: nat) returns (acts: seq<Action>)
    requires Plannable(cfg.sec) && IsPlan(cfg, s.phases) && 0 < n < |s.phases|
    ensures CanGo(cfg, Init(), acts)
    ensures var w := Gone(cfg, Init(), acts);
            && Inv(cfg, w) && w.pc.Idle? && w.store == Store(None, map[]) && |w.accepted| == n && w.plan == s.phases
  {
    hide IsPlan, FriSplitOf, StoredFriSplit, PhaseCalldata, CheckResumePlan, PlanPhases;
    var w0 := Init();
    FreeTag(cfg);
    StepInv(cfg, w0, Start(s));
    var w1 := Step(cfg, w0, Start(s));
    StepInv(cfg, w1, ReadCheckpoint);
    var w2 := Step(cfg, w1, ReadCheckpoint);
    var sends := SendSome(cfg, w2, n);
    var w3 := Run(cfg, w2, sends);
    StepInv(cfg, w3, Crash);
    var w4 := Step(cfg, w3, Crash);
    StepInv(cfg, w4, WipeStore);
    RunGoes(cfg, w2, sends);
    hide Step, Inv, Possible;
    GoOne(cfg, w0, Start(s));
    GoOne(cfg, w1, ReadCheckpoint);
    GoOne(cfg, w3, Crash);
    GoOne(cfg, w4, WipeStore);
    GoJoin(cfg, w3, [Crash], [WipeStore]);
    GoJoin(cfg, w2, sends, [Crash] + [WipeStore]);
    GoJoin(cfg, w1, [ReadCheckpoint], sends + ([Crash] + [WipeStore]));
    acts := [Start(s)] + ([ReadCheckpoint] + (sends + ([Crash] + [WipeStore])));
    GoJoin(cfg, w0, [Start(s)], [ReadCheckpoint] + (sends + ([Crash] + [WipeStore])));
  }

  /** Resuming it with another explicit cut: nothing objects, and the next transaction goes out. */
  lemma WrongCutGoesOut(cfg: Setting, w: World, s: Sequence) returns (acts: seq<Action>)
    requires Inv(cfg, w) && w.pc.Idle? && w.store == Store(None, map[])
    requires IsPlan(cfg, s.phases) && s.explicitFriSplit && 3 <= |w.accepted| < |w.plan| && |w.accepted| < |s.phases|
    ensures CanGo(cfg, w, acts)
    ensures var n, t := |w.accepted|, Gone(cfg, w, acts);
            |t.accepted| == n + 1 && t.accepted[..n] == w.accepted && t.accepted[n].phase == s.phases[n]
  {
    hide IsPlan, FriSplitOf, TagOf, CheckResumePlan, PhaseCalldata;
    var n := |w.accepted|;
    ExplicitCutExactly(cfg, w, s);
    PlanHasShape(cfg, w.plan);
    PlanHasShape(cfg, s.phases);
    TagOfPrefix(cfg, w.accepted, w.plan);
    var w1 := Step(cfg, w, Start(s));
    var w2 := Step(cfg, w1, ReadCheckpoint);
    var w3 := Step(cfg, w2, ReadEvents);
    var w4 := Step(cfg, w3, ReadTrace(true));
    EchoSuffices(s.phases[n], w4.pc.echo.value);
    hide Inv, PlanShape, RecordPlan, AllLayers, LayersDone, Chained;
    GoOne(cfg, w, Start(s));
    GoOne(cfg, w1, ReadCheckpoint);
    GoOne(cfg, w2, ReadEvents);
    GoOne(cfg, w3, ReadTrace(true));
    GoOne(cfg, w4, Send([]));
    hide Step, Possible;
    GoJoin(cfg, w3, [ReadTrace(true)], [Send([])]);
    GoJoin(cfg, w2, [ReadEvents], [ReadTrace(true)] + [Send([])]);
    GoJoin(cfg, w1, [ReadCheckpoint], [ReadEvents] + ([ReadTrace(true)] + [Send([])]));
    GoJoin(cfg, w, [Start(s)], [ReadCheckpoint] + ([ReadEvents] + ([ReadTrace(true)] + [Send([])])));
    acts := [Start(s)] + ([ReadCheckpoint] + ([ReadEvents] + ([ReadTrace(true)] + [Send([])])));
  }

  lemma EchoSuffices(p: PhasePlan, echo: seq<nat>)
    ensures PhaseCalldata(p, Some(echo)).Ok?
  {
  }

  /** A proof of empty sections and three empty layers. */
  function EmptyProof(): ProofSections {
    ProofSections([], [], [[], [], [], []], [[], [], [], []], [[], [], []], [])
  }

  /**
   * A whole run that goes wrong: started with the cut [1], interrupted after four transactions,
   * its storage wiped, resumed with the explicit cut [2]. The router has folded layer 0 only, and
   * is sent layer 2 next.
   */
  lemma WrongCutRun(cfg: Setting) returns (acts: seq<Action>)
    requires cfg.sec == EmptyProof()
    ensures Plannable(cfg.sec) && CanGo(cfg, Init(), acts)
    ensures var w := Gone(cfg, Init(), acts);
            && |w.accepted| == 5 && LayersDone(w.accepted[..4]) == 1
            && w.accepted[4].phase.layers == [2]
  {
    var a := EmptyPlan(cfg, 1);
    var b := EmptyPlan(cfg, 2);
    hide IsPlan, FriSplitOf, Inv, EmptyProof, LayersDone, AllLayers, CanGo, Gone;
    var sb := Sequence(b, true, None);
    var first := StartedThenWiped(cfg, Sequence(a, true, None), 4);
    var w := Gone(cfg, Init(), first);
    WrongLayer(cfg, w, sb);
    var second := WrongCutGoesOut(cfg, w, sb);
    GoJoin(cfg, Init(), first, second);
    acts := first + second;
  }

  lemma WrongLayer(cfg: Setting, w: World, s: Sequence)
    requires Inv(cfg, w) && w.store == Store(None, map[]) && IsPlan(cfg, s.phases) && s.explicitFriSplit
    requires cfg.sec == EmptyProof() && |w.accepted| == 4 && |w.plan| == |s.phases| == 5
    requires FriSplitOf(w.plan) == Some([1]) && FriSplitOf(s.phases) == Some([2])
    ensures LayersDone(w.accepted) == 1 && s.phases[4].layers == [2]
  {
    hide Inv, IsPlan, FriSplitOf, LayersDone, CheckResumePlan, TagOf, ExpectedTag;
    ExplicitCutExactly(cfg, w, s);
    LastPhaseIs(s.phases);
  }

  lemma LastPhaseIs(plan: seq<PhasePlan>)
    requires |plan| == 5
    ensures AllLayers(plan[4..]) == plan[4].layers
  {
    assert plan[4..][1..] == [];
  }

  /** The five-phase plan of the empty proof cut at `c`. */
  lemma EmptyPlan(cfg: Setting, c: nat) returns (plan: seq<PhasePlan>)
    requires cfg.sec == EmptyProof() && 1 <= c <= 2
    ensures Plannable(cfg.sec) && IsPlan(cfg, plan) && FriSplitOf(plan) == Some([c]) && |plan| == 5
  {
    hide UncheckedPlan, FriSplitOf, CanonicalCuts;
    plan := EmptyPhases(cfg.sec, cfg.proofId, c);
    CanonicalIs([c], 3, [c]);
    UncappedPlan(cfg, [c], plan);
  }

  lemma EmptyPhases(sec: ProofSections, proofId: nat, c: nat) returns (plan: seq<PhasePlan>)
    requires sec == EmptyProof() && 1 <= c <= 2
    ensures Plannable(sec) && UncheckedPlan(sec, proofId, [c]) == Ok(plan) && |plan| == 5
  {
    CanonicalIs([c], 3, [c]);
    EmptyFirst(sec, proofId);
    EmptyChunks(sec, proofId, c);
    hide TxBegin, TxMerkle, TxAnswers, FriPhases, CanonicalCuts;
    FriCount(sec, proofId, 0, [c]);
    plan := UncheckedPlan(sec, proofId, [c]).value;
  }

  /** Under a high enough cap every plan is one. */
  lemma UncappedPlan(cfg: Setting, split: seq<int>, plan: seq<PhasePlan>)
    requires Plannable(cfg.sec) && UncheckedPlan(cfg.sec, cfg.proofId, split) == Ok(plan)
    ensures IsPlan(cfg, plan) && FriSplitOf(plan) == Some(CanonicalCuts(split, 0, |cfg.sec.layers|))
  {
    hide UncheckedPlan, FriSplitOf, CanonicalCuts;
    var max := Cap(plan);
    assert PlanPhases(cfg.sec, cfg.proofId, split, max) == Ok(plan);
    SplitOfPlan(cfg.sec, cfg.proofId, split, max);
  }

  lemma EmptyChunks(sec: ProofSections, proofId: nat, c: nat)
    requires sec == EmptyProof() && 1 <= c <= 2
    ensures FriPhases(sec, proofId, 0, [c]).Ok?
  {
    EmptyFri(sec, proofId, 0, c);
    EmptyFri(sec, proofId, c, 3);
    hide TxFri;
    assert [c][1..] == [];
    assert FriPhases(sec, proofId, c, []).Ok?;
  }

  /** A cap no phase exceeds. */
  lemma {:induction false} Cap(phases: seq<PhasePlan>) returns (max: nat)
    ensures forall i :: 0 <= i < |phases| ==> phases[i].calldataFelts <= max
  {
    max := 0;
    for i := 0 to |phases|
      invariant forall j :: 0 <= j < i ==> phases[j].calldataFelts <= max
    {
      if phases[i].calldataFelts > max { max := phases[i].calldataFelts; }
    }
  }

  lemma {:induction false} EmptySectionsPack(sections: seq<seq<nat>>)
    requires forall i :: 0 <= i < |sections| ==> sections[i] == []
    ensures PackedSections(sections).Ok?
  {
    hide PackedLimbs;
    if sections != [] {
      EmptySectionsPack(sections[1..]);
    }
  }

  lemma EmptyFirst(sec: ProofSections, proofId: nat)
    requires sec == EmptyProof()
    ensures Plannable(sec) && TxBegin(sec, 0, 1, proofId).Ok? && TxMerkle(sec, 2, 3, proofId).Ok? && TxAnswers(sec, proofId).Ok?
  {
    hide PackedSections, PackedLimbs;
    EmptySectionsPack(TreeSections(sec, 0, 1));
    EmptySectionsPack(TreeSections(sec, 2, 3));
    EmptySectionsPack([sec.sampled] + sec.queriedValues);
  }

  lemma {:induction false} FlattenEmpty(layers: seq<seq<nat>>)
    requires forall i :: 0 <= i < |layers| ==> layers[i] == []
    ensures Flatten(layers) == []
  {
    if layers != [] {
      FlattenEmpty(layers[1..]);
    }
  }

  lemma EmptyFri(sec: ProofSections, proofId: nat, first: nat, last: nat)
    requires sec == EmptyProof() && first <= last <= 3
    ensures TxFri(sec, first, last, proofId).Ok?
  {
    hide PackedLimbs;
    FlattenEmpty(sec.layers[first..last]);
  }
}
