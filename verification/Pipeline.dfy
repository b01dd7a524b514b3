/**
 * The crash-resumable proving pipeline of client/src/prove/pipeline.ts as a state machine: one page
 * at a time works on a run, its memory is lost at any moment, and the database of `RunStore` only
 * changes by whole transactions, each of which may also fail.
 */
module Pipeline {
  import opened RunStore
  import opened SegmentChain
  import opened Wrappers

  /** The run under consideration and the pinned program, deterministic in its arguments. */
  datatype Env = Env(id: string, genesis: Felt, execute: seq<Felt> -> Option<Output>)

  /** Where the page is, between two awaits. `i` is the segment being worked on. */
  datatype Pc =
    | Off
    | Requeue(i: nat)
    | Ready
    | CommitCut
    | CommitPlan
    | Prove(i: nat, attempt: nat, single: bool)
    | CommitProof(i: nat, attempt: nat, single: bool, proof: Proof)
    | AfterProof(i: nat, attempt: nat, single: bool)
    | CommitWithoutProof(i: nat, attempt: nat, single: bool)
    | Caught(i: nat, attempt: nat, single: bool)
    | CommitRetry(i: nat)
    | CommitFailed(i: nat)
    | Stopped

  datatype State = State(db: Db, segments: seq<Segment>, pc: Pc)

  // ----- what one segment continues ------------------------------------------------------------

  function HIn(env: Env, before: seq<Segment>): Felt {
    if before == [] then env.genesis else before[|before| - 1].output.hOut
  }

  function TicStart(before: seq<Segment>): nat {
    if before == [] then 0 else before[|before| - 1].output.ticEnd
  }

  /** `assertSegmentMatches`. */
  predicate Matches(env: Env, before: seq<Segment>, out: Output, requested: nat) {
    && out.hIn == HIn(env, before) && out.ticStart == TicStart(before)
    && out.ticEnd <= TicStart(before) + requested
  }

  function NewSegment(env: Env, before: seq<Segment>, args: seq<Felt>, out: Output): Segment {
    Segment(env.id, |before|, TicStart(before), out.ticEnd, args, out, Planned, false, false)
  }

  /** `segments.find((s) => s.stage !== "proved")`. */
  function FirstPending(segments: seq<Segment>): (i: nat)
    ensures i <= |segments|
    ensures i < |segments| ==> segments[i].stage != Proved
    ensures forall j :: 0 <= j < i ==> segments[j].stage == Proved
  {
    if segments == [] || segments[0].stage != Proved then 0 else 1 + FirstPending(segments[1..])
  }

  /** The record after a verified proof, outputs taken from this very execution. */
  function WithOutput(s: Segment, out: Output, retried: bool): Segment {
    s.(output := out, ticEnd := out.ticEnd, stage := Proved, verified := true, retriedSingleThread := retried)
  }

  // ----- steps ---------------------------------------------------------------------------------

  datatype Event =
    | Crash
    | CreateTheRun
    | Attach(listing: seq<Segment>)
    | RequeueOne(committed: bool)
    | Start
    | Pick
    | Cut(args: seq<Felt>, requested: nat)
    | Commit(committed: bool)
    | NoProver
    | ProofMade(bytes: seq<nat>)
    | ProofThrows
    | MarkFinished
    | Settle
    | Handle(threads: nat, admission: bool)
    | FlushInputs(r: Inputs)
    | PatchRun(p: Patch)
    | Halt

  /** `updateRun` on the attached run, which exists. */
  function Patching(env: Env, db: Db, p: Patch): Db
    requires env.id in db.runs
  {
    db.(runs := db.runs[env.id := Patched(db.runs[env.id], p)])
  }

  /** The patches other code makes while the loop runs. */
  predicate OwnPatch(p: Patch) {
    p.ticsPlanned.None? && p.segments.None?
  }

  ghost predicate Step(env: Env, s: State, e: Event, t: State) {
    match e
    case Crash => t == State(s.db, [], Off)
    // attach()
    case CreateTheRun =>
      s.pc == Off && env.id !in s.db.runs && t == State(Created(s.db, env.id, env.genesis), [], Off)
    case Attach(listing) =>
      s.pc == Off && env.id in s.db.runs && IsListing(s.db, env.id, listing) && t == State(s.db, listing, Requeue(0))
    case RequeueOne(committed) =>
      && s.pc.Requeue?
      && if s.pc.i >= |s.segments| then t == s.(pc := Ready)
         else if s.segments[s.pc.i].stage == Proved then t == s.(pc := Requeue(s.pc.i + 1))
         else
           var segment := s.segments[s.pc.i].(stage := Planned);
           t == State(if committed then WithSegment(s.db, segment, None) else s.db, s.segments[s.pc.i := segment],
                      if committed then Requeue(s.pc.i + 1) else Stopped)
    // start(): only after an attach, so a stopped pipeline may be started again
    case Start => s.pc == Stopped && t == s.(pc := Ready)
    // loop()
    case Pick =>
      && s.pc == Ready && FirstPending(s.segments) < |s.segments|
      && var i := FirstPending(s.segments);
         t == s.(segments := s.segments[i := s.segments[i].(stage := Executing)],
                 pc := Prove(i, 0, s.segments[i].retriedSingleThread))
    // planNext(): execute, resources and the verdict have no effect on the database
    case Cut(args, requested) =>
      && s.pc == Ready && FirstPending(s.segments) == |s.segments|
      && env.execute(args).Some? && Matches(env, s.segments, env.execute(args).value, requested)
      && t == s.(segments := s.segments + [NewSegment(env, s.segments, args, env.execute(args).value)], pc := CommitCut)
    case Commit(committed) => CommitStep(env, s, committed, t)
    // proveSegment()
    case NoProver => s.pc.Prove? && t == s.(pc := Stopped)
    case ProofMade(bytes) =>
      && s.pc.Prove? && s.pc.i < |s.segments| && env.execute(s.segments[s.pc.i].args).Some?
      && var segment := s.segments[s.pc.i];
         t == s.(segments := s.segments[s.pc.i := WithOutput(segment, env.execute(segment.args).value, s.pc.single && s.pc.attempt > 0)],
                 pc := CommitProof(s.pc.i, s.pc.attempt, s.pc.single, Proof(segment.args, bytes)))
    case ProofThrows =>
      (s.pc.Prove? || s.pc.AfterProof?) && t == s.(pc := Caught(s.pc.i, s.pc.attempt, s.pc.single))
    // the update of `finished` after a terminal status, then the end of proveSegment()
    case MarkFinished =>
      && s.pc.AfterProof? && s.pc.i < |s.segments| && s.segments[s.pc.i].output.status != RUNNING && env.id in s.db.runs
      && t == s.(db := Patching(env, s.db, Patch(None, None, None, None, Some(true))))
    case Settle => s.pc.AfterProof? && t == s.(pc := Ready)
    case Handle(threads, admission) =>
      && s.pc.Caught? && s.pc.i < |s.segments|
      && var i := s.pc.i;
         if !admission && s.pc.attempt == 0 && !s.pc.single && threads > 1
         then t == s.(segments := s.segments[i := s.segments[i].(stage := Planned, retriedSingleThread := true)], pc := CommitRetry(i))
         else t == s.(segments := s.segments[i := s.segments[i].(stage := Failed)], pc := CommitFailed(i))
    // interleaved with the loop: flushJournal() and finish()
    case FlushInputs(r) => s.pc != Off && r.runId == env.id && t == s.(db := WithInputs(s.db, r))
    case PatchRun(p) =>
      && s.pc != Off && env.id in s.db.runs && OwnPatch(p)
      && t == s.(db := Patching(env, s.db, p))
    // planNext() throwing before it writes, or a stop between two segments
    case Halt => s.pc == Ready && t == s.(pc := Stopped)
  }

  /** The awaited transactions; `committed` is false when the transaction is aborted. */
  ghost predicate CommitStep(env: Env, s: State, committed: bool, t: State) {
    match s.pc
    case CommitCut =>
      && s.segments != []
      && t == State(if committed then WithSegment(s.db, s.segments[|s.segments| - 1], None) else s.db, s.segments,
                    if committed then CommitPlan else Stopped)
    case CommitPlan =>
      && s.segments != [] && env.id in s.db.runs
      && var last := s.segments[|s.segments| - 1];
         t == State(if committed
                    then Patching(env, s.db, Patch(Some(Proving), None, Some(last.output.ticEnd), Some(|s.segments|), None))
                    else s.db,
                    s.segments, if committed then Ready else Stopped)
    case CommitProof(i, attempt, single, proof) =>
      && i < |s.segments|
      && t == if committed then State(WithSegment(s.db, s.segments[i], Some(proof)), s.segments, AfterProof(i, attempt, single))
              else State(s.db, s.segments[i := s.segments[i].(stage := Failed)], CommitWithoutProof(i, attempt, single))
    case CommitWithoutProof(i, attempt, single) =>
      && i < |s.segments|
      && t == State(if committed then WithSegment(s.db, s.segments[i], None) else s.db, s.segments, Caught(i, attempt, single))
    case CommitRetry(i) =>
      && i < |s.segments|
      && t == State(if committed then WithSegment(s.db, s.segments[i], None) else s.db, s.segments,
                    if committed then Prove(i, 1, true) else Stopped)
    case CommitFailed(i) =>
      && i < |s.segments|
      && t == State(if committed then WithSegment(s.db, s.segments[i], None) else s.db, s.segments, Stopped)
    case _ => false
  }

  // ----- the invariant -------------------------------------------------------------------------

  /** Records that continue one another and agree with the program. */
  predicate Chained(env: Env, segments: seq<Segment>) {
    forall i :: 0 <= i < |segments| ==> ChainedAt(env, segments, i)
  }

  predicate ChainedAt(env: Env, segments: seq<Segment>, i: nat)
    requires i < |segments|
  {
    var s := segments[i];
    && s.runId == env.id && s.index == i && env.execute(s.args) == Some(s.output)
    && s.ticStart == s.output.ticStart == TicStart(segments[..i]) && s.ticEnd == s.output.ticEnd
    && s.output.hIn == HIn(env, segments[..i])
  }

  /** Same boundary, whatever happened to the proof. */
  predicate SameCut(a: Segment, b: Segment) {
    a.runId == b.runId && a.index == b.index && a.ticStart == b.ticStart && a.ticEnd == b.ticEnd
    && a.args == b.args && a.output == b.output
  }

  /** `stored` is what the database holds for the run: numbered from zero, chained, proofs in place. */
  ghost predicate Stored(env: Env, db: Db, stored: seq<Segment>) {
    && (forall n: nat :: (env.id, n) in db.segments <==> n < |stored|)
    && (forall n: nat :: n < |stored| ==> db.segments[(env.id, n)] == stored[n])
    && ProofsAgree(env, db, stored)
    && Chained(env, stored)
    && if env.id in db.runs then RunAgrees(env, db.runs[env.id], stored) else stored == []
  }

  /** A stored proof proves its record's execution, and a proved record has one. */
  ghost predicate ProofsAgree(env: Env, db: Db, stored: seq<Segment>) {
    && (forall n: nat :: (env.id, n) in db.proofs ==> n < |stored| && db.proofs[(env.id, n)].args == stored[n].args)
    && (forall n: nat :: n < |stored| && stored[n].stage == Proved ==> (env.id, n) in db.proofs)
  }

  /** The run record: segment count exact, planned tics at the end of some stored segment. */
  predicate RunAgrees(env: Env, run: Run, stored: seq<Segment>) {
    && run.genesis == env.genesis && run.segments == |stored|
    && (run.ticsPlanned == 0 || EndsAt(stored, run.ticsPlanned))
  }

  predicate EndsAt(stored: seq<Segment>, tic: nat) {
    exists n: nat :: n < |stored| && stored[n].ticEnd == tic
  }

  /** The page's segments: those stored, and at most one that could not be written yet. */
  predicate Mirrors(env: Env, segments: seq<Segment>, stored: seq<Segment>) {
    && |stored| <= |segments| <= |stored| + 1
    && Chained(env, segments)
    && forall j: nat :: j < |stored| ==> SameCut(segments[j], stored[j])
  }

  /** Only the segment whose proof is being written may be ahead of the database. */
  predicate ProvedIsStored(s: State, stored: seq<Segment>) {
    forall j: nat :: j < |s.segments| && s.segments[j].stage == Proved ==>
      (j < |stored| && stored[j].stage == Proved) || (s.pc.CommitProof? && s.pc.i == j)
  }

  predicate PcAgrees(s: State, stored: seq<Segment>) {
    match s.pc
    case Off => true
    case Requeue(i) =>
      && |s.segments| == |stored|
      && forall j: nat :: i <= j < |stored| && stored[j].stage == Proved ==> s.segments[j].stage == Proved
    case Ready => true
    case CommitCut => |s.segments| == |stored| + 1 && s.segments[|stored|].stage != Proved
    case CommitPlan => |s.segments| == |stored| > 0
    case Prove(i, _, _) => i < |s.segments|
    case CommitProof(i, _, _, proof) => i < |s.segments| && proof.args == s.segments[i].args && s.segments[i].stage == Proved
    case AfterProof(i, _, _) => i < |stored|
    case CommitWithoutProof(i, _, _) => i < |s.segments| && s.segments[i].stage != Proved
    case Caught(i, _, _) => i < |s.segments|
    case CommitRetry(i) => i < |s.segments| && s.segments[i].stage != Proved
    case CommitFailed(i) => i < |s.segments| && s.segments[i].stage != Proved
    case Stopped => true
  }

  ghost predicate Inv(env: Env, s: State, stored: seq<Segment>) {
    && Stored(env, s.db, stored)
    && if s.pc == Off then s.segments == []
       else env.id in s.db.runs && Mirrors(env, s.segments, stored) && ProvedIsStored(s, stored) && PcAgrees(s, stored)
  }

  // ----- the transactions keep the database chained --------------------------------------------

  lemma ChainedSame(env: Env, a: seq<Segment>, b: seq<Segment>)
    requires Chained(env, a) && |b| <= |a| && forall j: nat :: j < |b| ==> SameCut(a[j], b[j])
    ensures Chained(env, b)
  {
    forall i: nat | i < |b| ensures ChainedAt(env, b, i) {
      assert ChainedAt(env, a, i);
      if i > 0 {
        assert SameCut(a[i - 1], b[i - 1]);
        assert a[..i][i - 1] == a[i - 1] && b[..i][i - 1] == b[i - 1];
      }
    }
  }

  /** The stored list after segment `i` of the page is written. */
  function Written(segments: seq<Segment>, stored: seq<Segment>, i: nat): seq<Segment>
    requires i < |segments|
  {
    if i < |stored| then stored[i := segments[i]] else stored + [segments[i]]
  }

  lemma WriteKeeps(env: Env, db: Db, segments: seq<Segment>, stored: seq<Segment>, i: nat, proof: Option<Proof>)
    requires Stored(env, db, stored) && Mirrors(env, segments, stored) && i < |segments| && env.id in db.runs
    requires segments[i].stage == Proved ==> proof.Some?
    requires proof.Some? ==> proof.value.args == segments[i].args
    ensures var after := Written(segments, stored, i);
            && Stored(env, WithSegment(db, segments[i], proof), after) && Mirrors(env, segments, after)
            && |after| == Max(|stored|, i + 1) && after[i] == segments[i]
            && forall j: nat :: j < |stored| && j != i ==> after[j] == stored[j]
  {
    var after, next := Written(segments, stored, i), WithSegment(db, segments[i], proof);
    assert ChainedAt(env, segments, i);
    assert SameCuts(segments, after);
    ChainedSame(env, segments, after);
    assert RunAgrees(env, next.runs[env.id], after) by {
      var tic := db.runs[env.id].ticsPlanned;
      if EndsAt(stored, tic) {
        var n: nat :| n < |stored| && stored[n].ticEnd == tic;
        assert after[n].ticEnd == tic;
      }
    }
    WriteKeepsProofs(env, db, segments, stored, i, proof);
  }

  predicate SameCuts(segments: seq<Segment>, stored: seq<Segment>) {
    |stored| <= |segments| && forall j: nat :: j < |stored| ==> SameCut(segments[j], stored[j])
  }

  function Max(a: nat, b: nat): nat {
    if a > b then a else b
  }

  lemma WriteKeepsProofs(env: Env, db: Db, segments: seq<Segment>, stored: seq<Segment>, i: nat, proof: Option<Proof>)
    requires ProofsAgree(env, db, stored) && |stored| <= |segments| <= |stored| + 1 && i < |segments|
    requires segments[i].runId == env.id && segments[i].index == i
    requires i < |stored| ==> segments[i].args == stored[i].args
    requires segments[i].stage == Proved ==> proof.Some?
    requires proof.Some? ==> proof.value.args == segments[i].args
    ensures ProofsAgree(env, WithSegment(db, segments[i], proof), Written(segments, stored, i))
  {
  }

  lemma PatchKeeps(env: Env, db: Db, stored: seq<Segment>, p: Patch)
    requires Stored(env, db, stored) && env.id in db.runs
    requires p.segments.None? || p.segments == Some(|stored|)
    requires p.ticsPlanned.None? || EndsAt(stored, p.ticsPlanned.value)
    ensures Stored(env, Patching(env, db, p), stored)
  {
  }

  // ----- every step keeps the invariant --------------------------------------------------------

  /** The segment an awaited transaction writes. */
  function Target(s: State): nat
    requires s.pc.CommitCut? || s.pc.CommitProof? || s.pc.CommitWithoutProof? || s.pc.CommitRetry? || s.pc.CommitFailed?
  {
    if s.pc.CommitCut? then (if s.segments == [] then 0 else |s.segments| - 1) else s.pc.i
  }

  lemma CommitKeepsInv(env: Env, s: State, stored: seq<Segment>, committed: bool, t: State) returns (after: seq<Segment>)
    requires Inv(env, s, stored) && CommitStep(env, s, committed, t)
    ensures Inv(env, t, after)
  {
    if s.pc.CommitPlan? {
      PlanKeepsInv(env, s, stored, committed, t);
      after := stored;
    } else if committed {
      after := WrittenKeepsInv(env, s, stored, t);
    } else {
      AbortKeepsInv(env, s, stored, t);
      after := stored;
    }
  }

  lemma PlanKeepsInv(env: Env, s: State, stored: seq<Segment>, committed: bool, t: State)
    requires Inv(env, s, stored) && s.pc.CommitPlan? && CommitStep(env, s, committed, t)
    ensures Inv(env, t, stored)
  {
    hide Stored, Mirrors;
    if committed {
      LastEnd(env, s.segments, stored);
      PatchKeeps(env, s.db, stored, Patch(Some(Proving), None, Some(s.segments[|s.segments| - 1].output.ticEnd), Some(|s.segments|), None));
    }
  }

  lemma WrittenKeepsInv(env: Env, s: State, stored: seq<Segment>, t: State) returns (after: seq<Segment>)
    requires Inv(env, s, stored) && !s.pc.CommitPlan? && CommitStep(env, s, true, t)
    ensures Inv(env, t, after) && Target(s) < |s.segments| && after == Written(s.segments, stored, Target(s))
  {
    hide Stored, Mirrors, WithSegment, Written;
    var i := Target(s);
    WriteKeeps(env, s.db, s.segments, stored, i, if s.pc.CommitProof? then Some(s.pc.proof) else None);
    after := Written(s.segments, stored, i);
    RunKept(s.db, s.segments[i], if s.pc.CommitProof? then Some(s.pc.proof) else None, env.id);
  }

  lemma RunKept(db: Db, s: Segment, proof: Option<Proof>, id: string)
    ensures id in WithSegment(db, s, proof).runs <==> id in db.runs
  {
  }

  lemma AbortKeepsInv(env: Env, s: State, stored: seq<Segment>, t: State)
    requires Inv(env, s, stored) && !s.pc.CommitPlan? && CommitStep(env, s, false, t)
    ensures Inv(env, t, stored)
  {
    hide Stored, Mirrors;
    if s.pc.CommitProof? {
      RestageKeeps(env, s.segments, stored, s.pc.i, s.segments[s.pc.i].(stage := Failed));
    }
  }

  lemma LastEnd(env: Env, segments: seq<Segment>, stored: seq<Segment>)
    requires Mirrors(env, segments, stored) && |segments| == |stored| > 0
    ensures EndsAt(stored, segments[|segments| - 1].output.ticEnd)
  {
    var n: nat := |stored| - 1;
    assert ChainedAt(env, segments, n) && SameCut(segments[n], stored[n]);
    assert stored[n].ticEnd == segments[n].output.ticEnd;
  }

  /** Changing the page's own note of a stage moves no boundary. */
  lemma RestageKeeps(env: Env, segments: seq<Segment>, stored: seq<Segment>, i: nat, s: Segment)
    requires Mirrors(env, segments, stored) && i < |segments| && SameCut(segments[i], s)
    ensures Mirrors(env, segments[i := s], stored)
  {
    var next := segments[i := s];
    assert SameCuts(segments, next);
    ChainedSame(env, segments, next);
  }

  lemma CutKeepsInv(env: Env, s: State, stored: seq<Segment>, args: seq<Felt>, requested: nat, t: State)
    requires Inv(env, s, stored) && Step(env, s, Cut(args, requested), t)
    ensures Inv(env, t, stored)
  {
    var out, all := env.execute(args).value, t.segments;
    if |s.segments| > 0 {
      assert s.segments[|s.segments| - 1].stage == Proved;
    }
    forall i: nat | i < |all| ensures ChainedAt(env, all, i) {
      assert all[..i] == s.segments[..i];
      if i < |s.segments| {
        assert ChainedAt(env, s.segments, i);
      } else {
        assert all[..i] == s.segments;
      }
    }
  }

  lemma AttachKeepsInv(env: Env, s: State, stored: seq<Segment>, listing: seq<Segment>, t: State)
    requires Inv(env, s, stored) && Step(env, s, Attach(listing), t)
    ensures Inv(env, t, stored) && listing == stored
  {
    ListingIsStored(env, s.db, stored, listing);
  }

  lemma RequeueKeepsInv(env: Env, s: State, stored: seq<Segment>, committed: bool, t: State) returns (after: seq<Segment>)
    requires Inv(env, s, stored) && Step(env, s, RequeueOne(committed), t)
    ensures Inv(env, t, after) && |after| == |stored|
  {
    hide Stored, Mirrors, WithSegment;
    after := stored;
    var i := s.pc.i;
    if i < |s.segments| && s.segments[i].stage != Proved {
      RestageKeeps(env, s.segments, stored, i, s.segments[i].(stage := Planned));
      if committed {
        WriteKeeps(env, s.db, t.segments, stored, i, None);
        after := Written(t.segments, stored, i);
      }
    }
  }

  lemma ProofKeepsInv(env: Env, s: State, stored: seq<Segment>, bytes: seq<nat>, t: State)
    requires Inv(env, s, stored) && Step(env, s, ProofMade(bytes), t)
    ensures Inv(env, t, stored)
  {
    assert ChainedAt(env, s.segments, s.pc.i);
    hide Stored, Mirrors;
    RestageKeeps(env, s.segments, stored, s.pc.i, t.segments[s.pc.i]);
  }

  lemma {:induction false} StepKeepsInv(env: Env, s: State, stored: seq<Segment>, e: Event, t: State) returns (after: seq<Segment>)
    requires Inv(env, s, stored) && Step(env, s, e, t)
    ensures Inv(env, t, after)
  {
    after := stored;
    match e
    case Attach(listing) => AttachKeepsInv(env, s, stored, listing, t);
    case RequeueOne(committed) => after := RequeueKeepsInv(env, s, stored, committed, t);
    case Cut(args, requested) => CutKeepsInv(env, s, stored, args, requested, t);
    case Commit(committed) => after := CommitKeepsInv(env, s, stored, committed, t);
    case ProofMade(bytes) => ProofKeepsInv(env, s, stored, bytes, t);
    case _ => OtherKeepsInv(env, s, stored, e, t);
  }

  lemma RestageKeepsInv(env: Env, s: State, stored: seq<Segment>, e: Event, t: State)
    requires Inv(env, s, stored) && Step(env, s, e, t) && (e.Pick? || e.Handle?)
    ensures Inv(env, t, stored)
  {
    hide Stored, Mirrors;
    var i := if e.Pick? then FirstPending(s.segments) else s.pc.i;
    RestageKeeps(env, s.segments, stored, i, t.segments[i]);
  }

  lemma FlushKeeps(env: Env, db: Db, stored: seq<Segment>, r: Inputs)
    requires Stored(env, db, stored) && r.runId == env.id && env.id in db.runs
    ensures Stored(env, WithInputs(db, r), stored) && env.id in WithInputs(db, r).runs
  {
  }

  lemma CreateKeeps(env: Env, db: Db, stored: seq<Segment>)
    requires Stored(env, db, stored) && env.id !in db.runs
    ensures Stored(env, Created(db, env.id, env.genesis), stored)
  {
  }

  lemma OtherKeepsInv(env: Env, s: State, stored: seq<Segment>, e: Event, t: State)
    requires Inv(env, s, stored) && Step(env, s, e, t)
    requires !e.Attach? && !e.RequeueOne? && !e.Cut? && !e.Commit? && !e.ProofMade?
    ensures Inv(env, t, stored)
  {
    if e.Pick? || e.Handle? {
      RestageKeepsInv(env, s, stored, e, t);
    } else {
      hide Stored, Mirrors;
      match e
      case PatchRun(p) => PatchKeeps(env, s.db, stored, p);
      case MarkFinished => PatchKeeps(env, s.db, stored, Patch(None, None, None, None, Some(true)));
      case CreateTheRun => CreateKeeps(env, s.db, stored);
      case FlushInputs(r) => FlushKeeps(env, s.db, stored, r);
      case _ =>
    }
  }

  // ----- whole runs ----------------------------------------------------------------------------

  /** Nothing is stored for the run and no page works on it. */
  ghost predicate Initial(env: Env, s: State) {
    && env.id !in s.db.runs && s.segments == [] && s.pc == Off
    && forall n: nat :: (env.id, n) !in s.db.segments && (env.id, n) !in s.db.proofs
  }

  ghost predicate IsRun(env: Env, states: seq<State>, events: seq<Event>) {
    && |states| == |events| + 1 && Initial(env, states[0])
    && forall i :: 0 <= i < |events| ==> Step(env, states[i], events[i], states[i + 1])
  }

  lemma {:induction false} RunKeepsInv(env: Env, states: seq<State>, events: seq<Event>, k: nat) returns (stored: seq<Segment>)
    requires IsRun(env, states, events) && k < |states|
    ensures Inv(env, states[k], stored)
  {
    if k == 0 {
      stored := [];
    } else {
      stored := RunKeepsInv(env, states, events, k - 1);
      stored := StepKeepsInv(env, states[k - 1], stored, events[k - 1], states[k]);
    }
  }

  /** What record `k` of the database promises. */
  predicate LinkedAt(env: Env, db: Db, k: nat)
    requires (env.id, k) in db.segments && (k > 0 ==> (env.id, k - 1) in db.segments)
  {
    var r := db.segments[(env.id, k)];
    && r.index == k && env.execute(r.args) == Some(r.output)
    && r.ticStart == r.output.ticStart && r.ticEnd == r.output.ticEnd
    && (if k == 0 then r.output.hIn == env.genesis && r.ticStart == 0
        else r.output.hIn == db.segments[(env.id, k - 1)].output.hOut && r.ticStart == db.segments[(env.id, k - 1)].ticEnd)
    && (r.stage == Proved ==> (env.id, k) in db.proofs)
    && ((env.id, k) in db.proofs ==> db.proofs[(env.id, k)].args == r.args)
  }

  /** Segments numbered 0..n-1, each continuing the one before, every proved one with its proof. */
  ghost predicate ChainedTo(env: Env, db: Db, n: nat) {
    && (forall k: nat :: (env.id, k) in db.segments <==> k < n)
    && (forall k: nat :: k < n ==> LinkedAt(env, db, k))
    && (forall k: nat :: (env.id, k) in db.proofs ==> k < n)
    && (env.id in db.runs ==> db.runs[env.id].segments == n)
  }

  lemma StoredIsChained(env: Env, db: Db, stored: seq<Segment>)
    requires Stored(env, db, stored)
    ensures ChainedTo(env, db, |stored|)
  {
    forall k: nat | k < |stored| ensures LinkedAt(env, db, k) {
      assert ChainedAt(env, stored, k);
      if k > 0 {
        assert ChainedAt(env, stored, k - 1);
        assert stored[..k][k - 1] == stored[k - 1];
      }
    }
  }

  /** Whatever crashes, aborted transactions and restarts have happened, the database is one chain. */
  lemma DatabaseAlwaysChained(env: Env, states: seq<State>, events: seq<Event>, k: nat)
    requires IsRun(env, states, events) && k < |states|
    ensures exists n: nat :: ChainedTo(env, states[k].db, n)
  {
    var stored := RunKeepsInv(env, states, events, k);
    StoredIsChained(env, states[k].db, stored);
  }

  /** No record loses its boundary and no proof disappears. */
  ghost predicate NothingLost(env: Env, a: Db, b: Db) {
    && (forall n: nat :: (env.id, n) in a.segments ==>
          (env.id, n) in b.segments && SameCut(a.segments[(env.id, n)], b.segments[(env.id, n)]))
    && (forall n: nat :: (env.id, n) in a.proofs ==> (env.id, n) in b.proofs)
  }

  lemma StepLosesNothing(env: Env, s: State, stored: seq<Segment>, e: Event, t: State)
    requires Inv(env, s, stored) && Step(env, s, e, t)
    ensures NothingLost(env, s.db, t.db)
  {
    if e.Commit? && e.committed && !s.pc.CommitPlan? {
      WriteLosesNothing(env, s.db, s.segments, stored, Target(s), if s.pc.CommitProof? then Some(s.pc.proof) else None);
    } else if e.RequeueOne? && s.pc.i < |s.segments| && s.segments[s.pc.i].stage != Proved && e.committed {
      RestageKeeps(env, s.segments, stored, s.pc.i, t.segments[s.pc.i]);
      WriteLosesNothing(env, s.db, t.segments, stored, s.pc.i, None);
    } else {
      assert t.db.segments == s.db.segments && t.db.proofs == s.db.proofs;
    }
  }

  lemma WriteLosesNothing(env: Env, db: Db, segments: seq<Segment>, stored: seq<Segment>, i: nat, proof: Option<Proof>)
    requires Stored(env, db, stored) && Mirrors(env, segments, stored) && i < |segments|
    ensures NothingLost(env, db, WithSegment(db, segments[i], proof))
  {
    assert ChainedAt(env, segments, i);
    if i < |stored| {
      assert SameCut(segments[i], stored[i]);
    }
  }

  /** From any moment of a run to any later one. */
  lemma {:induction false} RunLosesNothing(env: Env, states: seq<State>, events: seq<Event>, i: nat, j: nat)
    requires IsRun(env, states, events) && i <= j < |states|
    ensures NothingLost(env, states[i].db, states[j].db)
    decreases j
  {
    if i < j {
      RunLosesNothing(env, states, events, i, j - 1);
      var stored := RunKeepsInv(env, states, events, j - 1);
      StepLosesNothing(env, states[j - 1], stored, events[j - 1], states[j]);
    }
  }

  /** The output list `recomputeChain` and `verifyPersistedChain` check. */
  function Outputs(segments: seq<Segment>): (r: seq<Output>)
    ensures |r| == |segments| && forall i :: 0 <= i < |r| ==> r[i] == segments[i].output
  {
    if segments == [] then [] else [segments[0].output] + Outputs(segments[1..])
  }

  predicate BrokenLink(fault: Option<Reason>) {
    fault.Some? && (fault.value.NotGenesis? || fault.value.HashBroken? || fault.value.TicsBroken?)
  }

  /** A stored run never fails the chain check for a broken link. */
  lemma PersistedLinksHold(env: Env, states: seq<State>, events: seq<Event>, k: nat, listing: seq<Segment>, i: nat)
    requires IsRun(env, states, events) && k < |states| && IsListing(states[k].db, env.id, listing) && i < |listing|
    ensures !BrokenLink(Fault(Outputs(listing), env.genesis, i))
  {
    hide IsRun, IsListing, BrokenLink, Fault;
    var stored := RunKeepsInv(env, states, events, k);
    ListingIsStored(env, states[k].db, stored, listing);
    LinksHold(env, stored, i);
  }

  lemma ListingIsStored(env: Env, db: Db, stored: seq<Segment>, listing: seq<Segment>)
    requires Stored(env, db, stored) && IsListing(db, env.id, listing)
    ensures listing == stored
  {
    ListingOfNumbered(db, env.id, listing, |stored|);
  }

  lemma LinksHold(env: Env, stored: seq<Segment>, i: nat)
    requires Chained(env, stored) && i < |stored|
    ensures !BrokenLink(Fault(Outputs(stored), env.genesis, i))
  {
    LinkFacts(env, stored, i);
    hide Chained, Outputs;
    LinkedIsNotBroken(Outputs(stored), env.genesis, i);
  }

  lemma LinkedIsNotBroken(outputs: seq<Output>, genesis: Felt, i: nat)
    requires i < |outputs| && (i == 0 ==> outputs[0].hIn == genesis)
    requires i > 0 ==> outputs[i].hIn == outputs[i - 1].hOut && outputs[i].ticStart == outputs[i - 1].ticEnd
    ensures !BrokenLink(Fault(outputs, genesis, i))
  {
  }

  lemma LinkFacts(env: Env, stored: seq<Segment>, i: nat)
    requires Chained(env, stored) && i < |stored|
    ensures i == 0 ==> stored[0].output.hIn == env.genesis
    ensures i > 0 ==> stored[i].output.hIn == stored[i - 1].output.hOut && stored[i].output.ticStart == stored[i - 1].output.ticEnd
  {
    assert ChainedAt(env, stored, i);
    if i > 0 {
      assert stored[..i][i - 1] == stored[i - 1];
    }
  }

  // ----- resuming ------------------------------------------------------------------------------

  ghost predicate Reaches(env: Env, s: State, t: State, n: nat)
    decreases n
  {
    if n == 0 then s == t else exists e, m :: Step(env, s, e, m) && Reaches(env, m, t, n - 1)
  }

  lemma ReachesFirst(env: Env, s: State, e: Event, m: State, t: State, n: nat)
    requires Step(env, s, e, m) && Reaches(env, m, t, n)
    ensures Reaches(env, s, t, n + 1)
  {
  }

  predicate AllProved(segments: seq<Segment>) {
    forall i :: 0 <= i < |segments| ==> segments[i].stage == Proved
  }

  /** One pending segment: picked, proved, written with its proof. */
  lemma ProveOne(env: Env, s: State, stored: seq<Segment>) returns (t: State, after: seq<Segment>)
    requires Inv(env, s, stored) && s.pc == Ready && FirstPending(s.segments) < |s.segments|
    ensures Inv(env, t, after) && t.pc == Ready && |t.segments| == |s.segments| && t.db.runs.Keys == s.db.runs.Keys
    ensures FirstPending(t.segments) > FirstPending(s.segments) && Reaches(env, s, t, 4)
  {
    hide Step, Inv, Reaches;
    var picked := PickOne(env, s, stored);
    var made := MakeProof(env, picked, stored);
    var written;
    written, after := WriteOne(env, made, stored);
    t := written.(pc := Ready);
    SettleOne(env, written, t);
    OtherKeepsInv(env, written, after, Settle, t);
    ReachesItself(env, t);
    ReachesFirst(env, written, Settle, t, t, 0);
    ReachesFirst(env, made, Commit(true), written, t, 1);
    ReachesFirst(env, picked, ProofMade([]), made, t, 2);
    ReachesFirst(env, s, Pick, picked, t, 3);
  }

  lemma ReachesItself(env: Env, s: State)
    ensures Reaches(env, s, s, 0)
  {
  }

  lemma PickOne(env: Env, s: State, stored: seq<Segment>) returns (t: State)
    requires Inv(env, s, stored) && s.pc == Ready && FirstPending(s.segments) < |s.segments|
    ensures Step(env, s, Pick, t) && Inv(env, t, stored) && t.pc.Prove? && t.pc.i == FirstPending(s.segments) && t.pc.attempt == 0
    ensures t.db == s.db && |t.segments| == |s.segments|
    ensures forall j :: 0 <= j < FirstPending(s.segments) ==> t.segments[j].stage == Proved
  {
    var i := FirstPending(s.segments);
    t := s.(segments := s.segments[i := s.segments[i].(stage := Executing)], pc := Prove(i, 0, s.segments[i].retriedSingleThread));
    OtherKeepsInv(env, s, stored, Pick, t);
  }

  lemma WriteOne(env: Env, s: State, stored: seq<Segment>) returns (t: State, after: seq<Segment>)
    requires Inv(env, s, stored) && s.pc.CommitProof? && s.pc.i < |s.segments|
    ensures Step(env, s, Commit(true), t) && Inv(env, t, after) && t.pc.AfterProof? && t.segments == s.segments
    ensures t.db.runs.Keys == s.db.runs.Keys
  {
    t := State(WithSegment(s.db, s.segments[s.pc.i], Some(s.pc.proof)), s.segments, AfterProof(s.pc.i, s.pc.attempt, s.pc.single));
    after := WrittenKeepsInv(env, s, stored, t);
  }

  lemma SettleOne(env: Env, s: State, t: State)
    requires s.pc.AfterProof? && t == s.(pc := Ready)
    ensures Step(env, s, Settle, t)
  {
  }

  lemma MakeProof(env: Env, s: State, stored: seq<Segment>) returns (t: State)
    requires Inv(env, s, stored) && s.pc.Prove?
    ensures Step(env, s, ProofMade([]), t) && Inv(env, t, stored)
    ensures t.pc.CommitProof? && t.pc.i == s.pc.i && t.pc.attempt == s.pc.attempt && t.pc.single == s.pc.single
    ensures t.db == s.db && |t.segments| == |s.segments|
    ensures forall j :: 0 <= j < |s.segments| ==> t.segments[j] == s.segments[j] || (j == s.pc.i && t.segments[j].stage == Proved)
    ensures t.segments[s.pc.i].stage == Proved
  {
    var i := s.pc.i;
    assert ChainedAt(env, s.segments, i);
    var segment := s.segments[i];
    t := s.(segments := s.segments[i := WithOutput(segment, env.execute(segment.args).value, s.pc.single && s.pc.attempt > 0)],
            pc := CommitProof(i, s.pc.attempt, s.pc.single, Proof(segment.args, [])));
    ProofKeepsInv(env, s, stored, [], t);
  }

  /** Every pending segment in turn, oldest first. */
  lemma {:induction false} ProveRest(env: Env, s: State, stored: seq<Segment>)
    returns (t: State, after: seq<Segment>, n: nat)
    requires Inv(env, s, stored) && s.pc == Ready
    ensures Inv(env, t, after) && t.pc == Ready && AllProved(t.segments) && |t.segments| == |s.segments|
    ensures Reaches(env, s, t, n) && n <= 4 * (|s.segments| - FirstPending(s.segments))
    decreases |s.segments| - FirstPending(s.segments)
  {
    hide Inv, Step;
    if FirstPending(s.segments) == |s.segments| {
      t, after, n := s, stored, 0;
      ReachesItself(env, s);
    } else {
      var m, mid := ProveOne(env, s, stored);
      var rest;
      t, after, rest := ProveRest(env, m, mid);
      n := 4 + rest;
      ReachesJoin(env, s, m, t, 4, rest);
    }
  }

  lemma {:induction false} ReachesJoin(env: Env, s: State, m: State, t: State, a: nat, b: nat)
    requires Reaches(env, s, m, a) && Reaches(env, m, t, b)
    ensures Reaches(env, s, t, a + b)
    decreases a
  {
    hide Step;
    if a > 0 {
      var e, x :| Step(env, s, e, x) && Reaches(env, x, m, a - 1);
      ReachesJoin(env, x, m, t, a - 1, b);
      ReachesFirst(env, s, e, x, t, a - 1 + b);
    }
  }

  /** attach()'s loop over the stored segments. */
  lemma {:induction false} RequeueRest(env: Env, s: State, stored: seq<Segment>)
    returns (t: State, after: seq<Segment>)
    requires Inv(env, s, stored) && s.pc.Requeue? && s.pc.i <= |s.segments|
    ensures Inv(env, t, after) && t.pc == Ready && |t.segments| == |s.segments| == |after|
    ensures Reaches(env, s, t, |s.segments| - s.pc.i + 1)
    decreases |s.segments| - s.pc.i
  {
    hide Inv, Step, Reaches;
    var i := s.pc.i;
    var m := RequeueStep(env, s);
    var mid := RequeueKeepsInv(env, s, stored, true, m);
    RequeuedAll(env, s, stored);
    if i == |s.segments| {
      t, after := m, mid;
      ReachesItself(env, t);
      ReachesFirst(env, s, RequeueOne(true), m, t, 0);
    } else {
      t, after := RequeueRest(env, m, mid);
      ReachesFirst(env, s, RequeueOne(true), m, t, |s.segments| - i);
    }
  }

  lemma RequeuedAll(env: Env, s: State, stored: seq<Segment>)
    requires Inv(env, s, stored) && s.pc.Requeue?
    ensures |s.segments| == |stored|
  {
  }

  lemma RequeueStep(env: Env, s: State) returns (t: State)
    requires s.pc.Requeue? && s.pc.i <= |s.segments|
    ensures Step(env, s, RequeueOne(true), t) && |t.segments| == |s.segments|
    ensures if s.pc.i == |s.segments| then t.pc == Ready else t.pc == Requeue(s.pc.i + 1)
  {
    var i := s.pc.i;
    if i == |s.segments| {
      t := s.(pc := Ready);
    } else if s.segments[i].stage == Proved {
      t := s.(pc := Requeue(i + 1));
    } else {
      var segment := s.segments[i].(stage := Planned);
      t := State(WithSegment(s.db, segment, None), s.segments[i := segment], Requeue(i + 1));
    }
  }

  /** The stored records are their own listing. */
  lemma StoredIsListing(env: Env, db: Db, stored: seq<Segment>)
    requires Stored(env, db, stored)
    ensures IsListing(db, env.id, stored)
  {
    forall i: nat | i < |stored| ensures stored[i].index == i {
      assert ChainedAt(env, stored, i);
    }
  }

  /**
   * Resume without loss: whatever interrupted the run, attaching again and proving what is pending
   * leads, within 5 n + 2 steps for n stored segments, to a database with all n of them proved.
   */
  lemma InterruptedRunCanFinish(env: Env, states: seq<State>, events: seq<Event>) returns (t: State, n: nat, steps: nat)
    requires IsRun(env, states, events)
    requires var s := states[|events|]; s.pc == Off && env.id in s.db.runs
    ensures Reaches(env, states[|events|], t, steps) && steps <= 5 * n + 2
    ensures ChainedTo(env, states[|events|].db, n) && ChainedTo(env, t.db, n)
    ensures forall k: nat :: k < n ==> t.db.segments[(env.id, k)].stage == Proved
  {
    hide Step, Inv, ChainedTo, Reaches;
    var s := states[|events|];
    var stored := RunKeepsInv(env, states, events, |events|);
    hide IsRun;
    var attached := AttachOne(env, s, stored);
    n := |stored|;
    var ready, mid, after, more;
    ready, mid := RequeueRest(env, attached, stored);
    t, after, more := ProveRest(env, ready, mid);
    FinishedIsProved(env, t, after);
    ReachesJoin(env, attached, ready, t, n + 1, more);
    steps := n + 2 + more;
    ReachesFirst(env, s, Attach(stored), attached, t, n + 1 + more);
  }

  lemma AttachOne(env: Env, s: State, stored: seq<Segment>) returns (t: State)
    requires Inv(env, s, stored) && s.pc == Off && env.id in s.db.runs
    ensures Step(env, s, Attach(stored), t) && Inv(env, t, stored) && t.pc == Requeue(0) && t.segments == stored
    ensures ChainedTo(env, s.db, |stored|)
  {
    StoredIsListing(env, s.db, stored);
    t := State(s.db, stored, Requeue(0));
    AttachKeepsInv(env, s, stored, stored, t);
    StoredIsChained(env, s.db, stored);
  }

  lemma FinishedIsProved(env: Env, t: State, stored: seq<Segment>)
    requires Inv(env, t, stored) && t.pc == Ready && AllProved(t.segments)
    ensures |stored| == |t.segments| && ChainedTo(env, t.db, |stored|)
    ensures forall k: nat :: k < |stored| ==> t.db.segments[(env.id, k)].stage == Proved
  {
    if |t.segments| > 0 {
      assert t.segments[|t.segments| - 1].stage == Proved;
    }
    forall k: nat | k < |stored| ensures stored[k].stage == Proved {
      assert t.segments[k].stage == Proved;
    }
    StoredIsChained(env, t.db, stored);
  }

  // ----- how often one segment is tried --------------------------------------------------------

  /** A first attempt, or the one retry on a single thread; only a first threaded attempt is retried. */
  predicate Attempted(pc: Pc) {
    match pc
    case Prove(_, attempt, single) => attempt == 0 || (attempt == 1 && single)
    case CommitProof(_, attempt, single, _) => attempt == 0 || (attempt == 1 && single)
    case AfterProof(_, attempt, single) => attempt == 0 || (attempt == 1 && single)
    case CommitWithoutProof(_, attempt, single) => attempt == 0 || (attempt == 1 && single)
    case Caught(_, attempt, single) => attempt == 0 || (attempt == 1 && single)
    case _ => true
  }

  lemma AttemptedStep(env: Env, s: State, e: Event, t: State)
    requires Step(env, s, e, t) && Attempted(s.pc)
    ensures Attempted(t.pc)
    ensures t.pc.CommitRetry? && !s.pc.CommitRetry? ==>
              s.pc.Caught? && s.pc.attempt == 0 && !s.pc.single && e.Handle? && e.threads > 1 && !e.admission
    ensures e.Handle? && s.pc.attempt == 0 && !s.pc.single && e.threads > 1 && !e.admission ==> t.pc == CommitRetry(s.pc.i)
  {
    hide Patching, WithSegment, WithInputs, Matches, IsListing;
  }

  /** In every run a segment taken up is tried at most twice, the second time on a single thread. */
  lemma {:induction false} AtMostTwoAttempts(env: Env, states: seq<State>, events: seq<Event>, k: nat)
    requires IsRun(env, states, events) && k < |states|
    ensures Attempted(states[k].pc)
    decreases k
  {
    hide Step, Attempted;
    if k > 0 {
      AtMostTwoAttempts(env, states, events, k - 1);
      AttemptedStep(env, states[k - 1], events[k - 1], states[k]);
    } else {
      StartsIdle(env, states[0]);
    }
  }

  lemma StartsIdle(env: Env, s: State)
    requires Initial(env, s)
    ensures Attempted(s.pc)
  {
  }

  // ----- when a stored `proved` is taken back --------------------------------------------------

  predicate ProvedAt(env: Env, db: Db, k: nat) {
    (env.id, k) in db.segments && db.segments[(env.id, k)].stage == Proved
  }

  /** The write of `persistProof` after a failed one, or one of the two writes of the exception handler. */
  predicate TakesBack(s: State, e: Event, k: nat) {
    e == Commit(true) && (s.pc.CommitWithoutProof? || s.pc.CommitRetry? || s.pc.CommitFailed?) && s.pc.i == k
  }

  /** A record stored as proved is stored as anything else by these three writes and by nothing else. */
  lemma TakenBackExactly(env: Env, s: State, stored: seq<Segment>, e: Event, t: State, k: nat)
    requires Inv(env, s, stored) && Step(env, s, e, t) && ProvedAt(env, s.db, k)
    ensures !ProvedAt(env, t.db, k) <==> TakesBack(s, e, k)
  {
    assert k < |stored| && stored[k].stage == Proved;
    if e.Commit? && e.committed && !s.pc.CommitPlan? {
      WrittenIs(env, s, stored, t, k);
    } else if e.RequeueOne? {
      RequeueSparesProved(env, s, stored, e.committed, t, k);
    } else {
      assert t.db.segments == s.db.segments;
    }
  }

  /** A committed write of a segment, record by record. */
  lemma WrittenIs(env: Env, s: State, stored: seq<Segment>, t: State, k: nat)
    requires Inv(env, s, stored) && CommitStep(env, s, true, t) && !s.pc.CommitPlan?
    ensures Target(s) < |s.segments|
    ensures if k == Target(s) then (env.id, k) in t.db.segments && t.db.segments[(env.id, k)] == s.segments[k]
            else ((env.id, k) in t.db.segments <==> (env.id, k) in s.db.segments)
                 && ((env.id, k) in s.db.segments ==> t.db.segments[(env.id, k)] == s.db.segments[(env.id, k)])
    ensures s.pc.CommitCut? ==> Target(s) == |stored|
    ensures s.pc.CommitProof? ==> s.segments[Target(s)].stage == Proved
    ensures s.pc.CommitWithoutProof? || s.pc.CommitRetry? || s.pc.CommitFailed? ==> s.segments[Target(s)].stage != Proved
  {
    hide Stored, ProvedIsStored;
    assert ChainedAt(env, s.segments, Target(s));
  }

  lemma RequeueSparesProved(env: Env, s: State, stored: seq<Segment>, committed: bool, t: State, k: nat)
    requires Inv(env, s, stored) && Step(env, s, RequeueOne(committed), t) && k < |stored| && stored[k].stage == Proved
    ensures ProvedAt(env, t.db, k)
  {
    hide ProvedIsStored;
    if s.pc.i < |s.segments| {
      assert ChainedAt(env, s.segments, s.pc.i);
    }
    hide Mirrors;
  }

  /** An exception after the proof of segment `k` was written, before its step ended. */
  predicate ThrownAfterProof(s: State, e: Event, k: nat) {
    e.ProofThrows? && s.pc.AfterProof? && s.pc.i == k
  }

  /** The page is proving segment `k`, or dealing with a failure to. */
  predicate WorksOn(pc: Pc, k: nat) {
    (pc.Prove? || pc.CommitProof? || pc.CommitWithoutProof? || pc.Caught? || pc.CommitRetry? || pc.CommitFailed?) && pc.i == k
  }

  /** What is stored as proved the page knows to be proved, and leaves alone. */
  predicate Known(env: Env, s: State, k: nat) {
    ProvedAt(env, s.db, k) ==> s.pc == Off || (k < |s.segments| && s.segments[k].stage == Proved && !WorksOn(s.pc, k))
  }

  lemma KnownKept(env: Env, s: State, stored: seq<Segment>, e: Event, t: State, k: nat)
    requires Inv(env, s, stored) && Step(env, s, e, t) && Known(env, s, k) && !ThrownAfterProof(s, e, k)
    ensures Known(env, t, k) && (ProvedAt(env, s.db, k) ==> ProvedAt(env, t.db, k))
  {
    if ProvedAt(env, s.db, k) {
      TakenBackExactly(env, s, stored, e, t, k);
      KnownStays(env, s, stored, e, t, k);
    } else if ProvedAt(env, t.db, k) {
      NewlyProved(env, s, stored, e, t, k);
    }
  }

  /** Only the write of a proof stores a record as proved. */
  lemma NewlyProved(env: Env, s: State, stored: seq<Segment>, e: Event, t: State, k: nat)
    requires Inv(env, s, stored) && Step(env, s, e, t) && !ProvedAt(env, s.db, k) && ProvedAt(env, t.db, k)
    ensures e == Commit(true) && s.pc.CommitProof? && s.pc.i == k
    ensures t.pc.AfterProof? && k < |t.segments| && t.segments[k].stage == Proved
  {
    if e.Commit? && e.committed && !s.pc.CommitPlan? {
      WrittenIs(env, s, stored, t, k);
    }
  }

  lemma KnownStays(env: Env, s: State, stored: seq<Segment>, e: Event, t: State, k: nat)
    requires Inv(env, s, stored) && Step(env, s, e, t) && ProvedAt(env, s.db, k)
    requires Known(env, s, k) && !ThrownAfterProof(s, e, k)
    ensures Known(env, t, k)
  {
    if s.pc == Off {
      if e.Attach? {
        AttachKeepsInv(env, s, stored, e.listing, t);
      }
      hide Mirrors;
    } else {
      hide Inv, ProvedAt;
      LeftAlone(env, s, e, t, k);
    }
  }

  /** A segment the page is not working on keeps its stage, unless it is requeued. */
  lemma LeftAlone(env: Env, s: State, e: Event, t: State, k: nat)
    requires Step(env, s, e, t) && s.pc != Off && !ThrownAfterProof(s, e, k)
    requires k < |s.segments| && s.segments[k].stage == Proved && !WorksOn(s.pc, k)
    ensures t.pc == Off || (k < |t.segments| && t.segments[k].stage == Proved && !WorksOn(t.pc, k))
  {
    hide WithSegment, Patching, WithInputs, Matches, IsListing;
  }

  lemma {:induction false} KnownAlong(env: Env, states: seq<State>, events: seq<Event>, b: nat, k: nat)
    requires IsRun(env, states, events) && b < |states|
    requires forall i: nat :: i < b ==> !ThrownAfterProof(states[i], events[i], k)
    ensures Known(env, states[b], k)
  {
    hide Step, Inv, Known;
    if b > 0 {
      KnownAlong(env, states, events, b - 1, k);
      var stored := RunKeepsInv(env, states, events, b - 1);
      KnownKept(env, states[b - 1], stored, events[b - 1], states[b], k);
    } else {
      assert Known(env, states[0], k) by {
        KnownAtFirst(env, states[0], k);
      }
    }
  }

  lemma KnownAtFirst(env: Env, s: State, k: nat)
    requires Initial(env, s)
    ensures Known(env, s, k)
  {
  }

  /**
   * As long as nothing throws between the write of a segment's proof and the end of its step, its
   * record, once stored as proved, stays so: through crashes, aborted writes, restarts and
   * failures of every other segment.
   */
  lemma {:induction false} ProvedStaysProved(env: Env, states: seq<State>, events: seq<Event>, a: nat, b: nat, k: nat)
    requires IsRun(env, states, events) && a <= b < |states| && ProvedAt(env, states[a].db, k)
    requires forall i: nat :: i < b ==> !ThrownAfterProof(states[i], events[i], k)
    ensures ProvedAt(env, states[b].db, k)
    decreases b
  {
    hide Step, Inv, Known, ProvedAt;
    if a < b {
      ProvedStaysProved(env, states, events, a, b - 1, k);
      KnownAlong(env, states, events, b - 1, k);
      var stored := RunKeepsInv(env, states, events, b - 1);
      KnownKept(env, states[b - 1], stored, events[b - 1], states[b], k);
    }
  }

  /** And when something does throw there, the record may be taken back at once. The proof itself stays. */
  lemma ProvedCanBeTakenBack(env: Env, s: State, stored: seq<Segment>) returns (t: State)
    requires Inv(env, s, stored) && s.pc.AfterProof?
    ensures Reaches(env, s, t, 3)
    ensures (env.id, s.pc.i) in t.db.segments && t.db.segments[(env.id, s.pc.i)].stage == Failed
    ensures (env.id, s.pc.i) in s.db.proofs ==> (env.id, s.pc.i) in t.db.proofs
  {
    var i := s.pc.i;
    var caught := s.(pc := Caught(i, s.pc.attempt, s.pc.single));
    assert Inv(env, caught, stored) by {
      OtherKeepsInv(env, s, stored, ProofThrows, caught);
    }
    var handled := HandledState(caught);
    t := FailedState(env, caught, stored);
    ThrowsStep(env, s, caught);
    hide Step, Inv;
    ReachesItself(env, t);
    ReachesFirst(env, handled, Commit(true), t, t, 0);
    ReachesFirst(env, caught, Handle(1, false), handled, t, 1);
    ReachesFirst(env, s, ProofThrows, caught, t, 2);
  }

  lemma ThrowsStep(env: Env, s: State, t: State)
    requires s.pc.AfterProof? && t == s.(pc := Caught(s.pc.i, s.pc.attempt, s.pc.single))
    ensures Step(env, s, ProofThrows, t)
  {
  }

  /** The handler gives up on a segment and stores that it failed. */
  lemma FailedState(env: Env, s: State, stored: seq<Segment>) returns (t: State)
    requires Inv(env, s, stored) && s.pc.Caught?
    ensures s.pc.i < |s.segments|
    ensures Step(env, s, Handle(1, false), HandledState(s)) && Step(env, HandledState(s), Commit(true), t)
    ensures (env.id, s.pc.i) in t.db.segments && t.db.segments[(env.id, s.pc.i)].stage == Failed
    ensures t.db.proofs == s.db.proofs
  {
    assert ChainedAt(env, s.segments, s.pc.i);
    hide Inv;
    var handled := HandledState(s);
    t := State(WithSegment(s.db, handled.segments[s.pc.i], None), handled.segments, Stopped);
  }

  /** What the handler makes of the page when it gives up. */
  function HandledState(s: State): State
    requires s.pc.Caught? && s.pc.i < |s.segments|
  {
    s.(segments := s.segments[s.pc.i := s.segments[s.pc.i].(stage := Failed)], pc := CommitFailed(s.pc.i))
  }

  lemma RunSnoc(env: Env, states: seq<State>, events: seq<Event>, e: Event, t: State)
    requires IsRun(env, states, events) && Step(env, states[|events|], e, t)
    ensures IsRun(env, states + [t], events + [e])
  {
    hide Step, Initial;
    var s', e' := states + [t], events + [e];
    forall i | 0 <= i < |e'| ensures Step(env, s'[i], e'[i], s'[i + 1]) {
      assert i < |events| ==> s'[i] == states[i] && s'[i + 1] == states[i + 1] && e'[i] == events[i];
    }
  }

  // ----- runs that take one back ---------------------------------------------------------------

  /** From nothing stored to the first segment, cut but not yet written. */
  lemma RunToCut(env: Env, args: seq<Felt>, requested: nat) returns (states: seq<State>, events: seq<Event>)
    requires env.execute(args).Some? && Matches(env, [], env.execute(args).value, requested)
    ensures IsRun(env, states, events) && |events| == 4
    ensures var s := states[|events|];
            && s.pc == CommitCut && s.segments == [NewSegment(env, [], args, env.execute(args).value)] && env.id in s.db.runs
  {
    var s0 := State(Db(map[], map[], map[], map[]), [], Off);
    var s1 := State(Created(s0.db, env.id, env.genesis), [], Off);
    var s2 := State(s1.db, [], Requeue(0));
    var s3 := s2.(pc := Ready);
    var s4 := s3.(segments := [NewSegment(env, [], args, env.execute(args).value)], pc := CommitCut);
    assert IsListing(s1.db, env.id, []);
    assert Step(env, s0, CreateTheRun, s1) && Step(env, s1, Attach([]), s2);
    assert Step(env, s2, RequeueOne(true), s3);
    assert [] + s4.segments == s4.segments;
    assert Step(env, s3, Cut(args, requested), s4);
    hide Step;
    states, events := [s0, s1, s2, s3, s4], [CreateTheRun, Attach([]), RequeueOne(true), Cut(args, requested)];
  }

  /** One more step at the end of a run. */
  lemma Extend(env: Env, states: seq<State>, events: seq<Event>, e: Event, t: State)
    returns (states': seq<State>, events': seq<Event>)
    requires IsRun(env, states, events) && Step(env, states[|events|], e, t)
    ensures IsRun(env, states', events') && |events'| == |events| + 1 && states'[|events'|] == t
    ensures |states'| == |states| + 1 && states'[..|states|] == states
    ensures events'[..|events|] == events && events'[|events|] == e
  {
    RunSnoc(env, states, events, e, t);
    states', events' := states + [t], events + [e];
  }

  /** The first segment cut, proved and stored with its proof. */
  lemma RunToProof(env: Env, args: seq<Felt>, requested: nat) returns (states: seq<State>, events: seq<Event>)
    requires env.execute(args).Some? && Matches(env, [], env.execute(args).value, requested)
    ensures IsRun(env, states, events) && |events| == 9 && |states| == 10
    ensures states[|events|].pc == AfterProof(0, 0, false) && ProvedAt(env, states[|events|].db, 0)
  {
    states, events := RunToCut(env, args, requested);
    var s4 := states[|events|];
    var s5 := State(WithSegment(s4.db, s4.segments[0], None), s4.segments, CommitPlan);
    assert Step(env, s4, Commit(true), s5);
    var s6 := State(Patching(env, s5.db, Patch(Some(Proving), None, Some(s5.segments[0].output.ticEnd), Some(1), None)), s5.segments, Ready);
    assert Step(env, s5, Commit(true), s6);
    hide IsRun, Step;
    states, events := Extend(env, states, events, Commit(true), s5);
    states, events := Extend(env, states, events, Commit(true), s6);
    var stored := RunKeepsInv(env, states, events, |events|);
    var s7 := PickOne(env, s6, stored);
    states, events := Extend(env, states, events, Pick, s7);
    var s8 := MakeProof(env, s7, stored);
    states, events := Extend(env, states, events, ProofMade([]), s8);
    var s9, after := WriteOne(env, s8, stored);
    states, events := Extend(env, states, events, Commit(true), s9);
  }

  /** An exception right after the first proof was written: two steps later its record says failed. */
  lemma TakenBackRun(env: Env, args: seq<Felt>, requested: nat) returns (states: seq<State>, events: seq<Event>)
    requires env.execute(args).Some? && Matches(env, [], env.execute(args).value, requested)
    ensures IsRun(env, states, events) && |events| == 12
    ensures ProvedAt(env, states[9].db, 0) && !ProvedAt(env, states[12].db, 0)
  {
    hide IsRun, Step, Inv;
    states, events := RunToThrow(env, args, requested);
    var stored := RunKeepsInv(env, states, events, |events|);
    var caught := states[|events|];
    var failed := FailedState(env, caught, stored);
    states, events := Extend(env, states, events, Handle(1, false), HandledState(caught));
    states, events := Extend(env, states, events, Commit(true), failed);
  }

  lemma RunToThrow(env: Env, args: seq<Felt>, requested: nat) returns (states: seq<State>, events: seq<Event>)
    requires env.execute(args).Some? && Matches(env, [], env.execute(args).value, requested)
    ensures IsRun(env, states, events) && |events| == 10 && |states| == 11
    ensures ProvedAt(env, states[9].db, 0) && states[10] == states[9].(pc := Caught(0, 0, false))
  {
    hide IsRun, Step;
    states, events := RunToProof(env, args, requested);
    var s := states[|events|];
    var caught := s.(pc := Caught(0, 0, false));
    ThrowsStep(env, s, caught);
    states, events := Extend(env, states, events, ProofThrows, caught);
  }

  /**
   * It may also happen in a later step: the handler's own write is aborted, the pipeline is started
   * again, takes the segment up once more, and fails.
   */
  lemma TakenBackLaterRun(env: Env, args: seq<Felt>, requested: nat) returns (states: seq<State>, events: seq<Event>)
    requires env.execute(args).Some? && Matches(env, [], env.execute(args).value, requested)
    ensures IsRun(env, states, events) && |events| == 17 && events[11] == Commit(false) && events[12] == Start
    ensures ProvedAt(env, states[16].db, 0) && !ProvedAt(env, states[17].db, 0)
  {
    hide IsRun, Step, Inv, Matches;
    states, events := RunToRestart(env, args, requested);
    var ready := states[13];
    var stored := RunKeepsInv(env, states, events, 13);
    var picked := PickOne(env, ready, stored);
    states, events := Extend(env, states, events, Pick, picked);
    var caught := picked.(pc := Caught(0, 0, picked.pc.single));
    TryFails(env, picked, caught);
    states, events := Extend(env, states, events, ProofThrows, caught);
    stored := RunKeepsInv(env, states, events, 15);
    var failed := FailedState(env, caught, stored);
    states, events := Extend(env, states, events, Handle(1, false), HandledState(caught));
    states, events := Extend(env, states, events, Commit(true), failed);
  }

  lemma RunToRestart(env: Env, args: seq<Felt>, requested: nat) returns (states: seq<State>, events: seq<Event>)
    requires env.execute(args).Some? && Matches(env, [], env.execute(args).value, requested)
    ensures IsRun(env, states, events) && |events| == 13 && |states| == 14
    ensures events[11] == Commit(false) && events[12] == Start
    ensures var s := states[13];
            s.pc == Ready && |s.segments| > 0 && s.segments[0].stage == Failed && ProvedAt(env, s.db, 0)
  {
    hide IsRun, Step, Inv, Matches;
    states, events := RunToThrow(env, args, requested);
    var stored := RunKeepsInv(env, states, events, |events|);
    var caught := states[|events|];
    var failed := FailedState(env, caught, stored);
    var handled := HandledState(caught);
    states, events := Extend(env, states, events, Handle(1, false), handled);
    var stopped, ready := handled.(pc := Stopped), handled.(pc := Ready);
    StartsAgain(env, handled, stopped, ready);
    states, events := Extend(env, states, events, Commit(false), stopped);
    states, events := Extend(env, states, events, Start, ready);
  }

  lemma StartsAgain(env: Env, s: State, stopped: State, ready: State)
    requires s.pc.CommitFailed? && s.pc.i < |s.segments| && stopped == s.(pc := Stopped) && ready == s.(pc := Ready)
    ensures Step(env, s, Commit(false), stopped) && Step(env, stopped, Start, ready)
  {
  }

  lemma TryFails(env: Env, s: State, t: State)
    requires s.pc.Prove? && t == s.(pc := Caught(s.pc.i, s.pc.attempt, s.pc.single))
    ensures Step(env, s, ProofThrows, t)
  {
  }
}
