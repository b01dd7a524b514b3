/**
 * The local database of client/src/store/runStore.ts: four object stores, each method one
 * transaction. Time stamps, notes and the submission bookkeeping are not part of the model.
 */
module RunStore {
  import opened Wrappers

  type Felt = nat

  /** The ten public felts of a segment. */
  datatype Output = Output(
    version: nat, hIn: Felt, hOut: Felt, ticStart: nat, ticEnd: nat, status: nat,
    inputsCommitment: Felt, kills: nat, items: nat, secrets: nat)

  datatype Stage = Planned | Executing | Proved | Failed

  datatype Segment = Segment(
    runId: string, index: nat, ticStart: nat, ticEnd: nat, args: seq<Felt>, output: Output,
    stage: Stage, verified: bool, retriedSingleThread: bool)

  datatype RunStage = Recording | Proving

  datatype Run = Run(
    id: string, genesis: Felt, stage: RunStage, ticCount: nat, ticsPlanned: nat, segments: nat, finished: bool)

  datatype Inputs = Inputs(runId: string, ticCount: nat, packed: seq<Felt>, tail: seq<nat>)

  /** A proof blob: the arguments of the execution it proves, and what tells two such proofs apart. */
  datatype Proof = Proof(args: seq<Felt>, bytes: seq<nat>)

  datatype Patch = Patch(
    stage: Option<RunStage>, ticCount: Option<nat>, ticsPlanned: Option<nat>, segments: Option<nat>, finished: Option<bool>)

  type SegmentKey = (string, nat)

  datatype Db = Db(
    runs: map<string, Run>, inputs: map<string, Inputs>, segments: map<SegmentKey, Segment>, proofs: map<SegmentKey, Proof>)

  // ----- the transactions ----------------------------------------------------------------------

  function Or<T>(o: Option<T>, t: T): T {
    match o case Some(v) => v case None => t
  }

  function Patched(run: Run, p: Patch): Run {
    Run(run.id, run.genesis, Or(p.stage, run.stage), Or(p.ticCount, run.ticCount), Or(p.ticsPlanned, run.ticsPlanned),
        Or(p.segments, run.segments), Or(p.finished, run.finished))
  }

  /** A field is what the patch gives, or what it was. */
  predicate TakenFrom<T(==)>(given: Option<T>, was: T, now: T) {
    now == was || given == Some(now)
  }

  /** A patch changes the fields it names, to what it names, and no others. */
  lemma PatchedExactly(run: Run, p: Patch)
    ensures var r := Patched(run, p);
            && r.id == run.id && r.genesis == run.genesis
            && (p.stage.Some? ==> r.stage == p.stage.value) && TakenFrom(p.stage, run.stage, r.stage)
            && (p.ticCount.Some? ==> r.ticCount == p.ticCount.value) && TakenFrom(p.ticCount, run.ticCount, r.ticCount)
            && (p.ticsPlanned.Some? ==> r.ticsPlanned == p.ticsPlanned.value) && TakenFrom(p.ticsPlanned, run.ticsPlanned, r.ticsPlanned)
            && (p.segments.Some? ==> r.segments == p.segments.value) && TakenFrom(p.segments, run.segments, r.segments)
            && (p.finished.Some? ==> r.finished == p.finished.value) && TakenFrom(p.finished, run.finished, r.finished)
  {
  }

  function NewRun(id: string, genesis: Felt): Run {
    Run(id, genesis, Recording, 0, 0, 0, false)
  }

  function Created(db: Db, id: string, genesis: Felt): Db {
    Db(db.runs[id := NewRun(id, genesis)], db.inputs[id := Inputs(id, 0, [], [])], db.segments, db.proofs)
  }

  function Updated(db: Db, id: string, p: Patch): Result<Db> {
    if id !in db.runs then Err("no such run") else Ok(db.(runs := db.runs[id := Patched(db.runs[id], p)]))
  }

  function WithInputs(db: Db, r: Inputs): Db {
    db.(inputs := db.inputs[r.runId := r],
        runs := if r.runId in db.runs then db.runs[r.runId := db.runs[r.runId].(ticCount := r.ticCount)] else db.runs)
  }

  /** The record, its proof when there is one, and the run's segment count, together. */
  function WithSegment(db: Db, s: Segment, proof: Option<Proof>): Db {
    var key := (s.runId, s.index);
    Db(if s.runId in db.runs && s.index + 1 > db.runs[s.runId].segments
       then db.runs[s.runId := db.runs[s.runId].(segments := s.index + 1)] else db.runs,
       db.inputs,
       db.segments[key := s],
       match proof case Some(p) => db.proofs[key := p] case None => db.proofs)
  }

  function Deleted(db: Db, id: string): Db {
    Db(db.runs - {id}, db.inputs - {id},
       map k | k in db.segments && k.0 != id :: db.segments[k],
       map k | k in db.proofs && k.0 != id :: db.proofs[k])
  }

  // ----- runs do not touch each other ----------------------------------------------------------

  /** The records of one object store that belong to a run. */
  ghost predicate SameRecords<T>(a: map<SegmentKey, T>, b: map<SegmentKey, T>, id: string) {
    forall n: nat :: ((id, n) in a <==> (id, n) in b) && ((id, n) in a ==> a[(id, n)] == b[(id, n)])
  }

  predicate SameEntry<T(==)>(a: map<string, T>, b: map<string, T>, id: string) {
    (id in a <==> id in b) && (id in a ==> a[id] == b[id])
  }

  /** Everything stored for one run. */
  ghost predicate SameFor(a: Db, b: Db, id: string) {
    && SameEntry(a.runs, b.runs, id) && SameEntry(a.inputs, b.inputs, id)
    && SameRecords(a.segments, b.segments, id) && SameRecords(a.proofs, b.proofs, id)
  }

  lemma SegmentsAreSeparate(db: Db, other: string, s: Segment, proof: Option<Proof>)
    requires s.runId != other
    ensures SameFor(db, WithSegment(db, s, proof), other)
  {
  }

  lemma DeletionIsSeparate(db: Db, id: string, other: string)
    requires id != other
    ensures SameFor(db, Deleted(db, id), other)
  {
  }

  /** No transaction for one run changes anything stored for another. */
  lemma RunsAreSeparate(db: Db, id: string, other: string, genesis: Felt, p: Patch, r: Inputs, s: Segment, proof: Option<Proof>)
    requires id != other && r.runId == id && s.runId == id
    ensures SameFor(db, Created(db, id, genesis), other) && SameFor(db, WithInputs(db, r), other)
    ensures SameFor(db, WithSegment(db, s, proof), other) && SameFor(db, Deleted(db, id), other)
    ensures Updated(db, id, p).Ok? ==> SameFor(db, Updated(db, id, p).value, other)
  {
    SegmentsAreSeparate(db, other, s, proof);
    DeletionIsSeparate(db, id, other);
    hide WithSegment, Deleted;
  }

  // ----- listing -------------------------------------------------------------------------------

  predicate Ascending(r: seq<Segment>) {
    forall i, j :: 0 <= i < j < |r| ==> r[i].index < r[j].index
  }

  /** Every stored record sits under its own key. */
  predicate Keyed(db: Db) {
    forall k :: k in db.segments ==> db.segments[k].runId == k.0 && db.segments[k].index == k.1
  }

  /** The run's segments, all of them and nothing else, by index. */
  ghost predicate IsListing(db: Db, id: string, r: seq<Segment>) {
    && Ascending(r)
    && (forall i :: 0 <= i < |r| ==> (id, r[i].index) in db.segments && db.segments[(id, r[i].index)] == r[i])
    && (forall n: nat :: (id, n) in db.segments ==> exists i :: 0 <= i < |r| && r[i].index == n)
  }

  /** When the keys are 0..n-1 the listing is the records in order. */
  lemma ListingOfNumbered(db: Db, id: string, r: seq<Segment>, n: nat)
    requires IsListing(db, id, r) && forall k: nat :: (id, k) in db.segments <==> k < n
    ensures |r| == n && forall i :: 0 <= i < n ==> (id, i) in db.segments && r[i] == db.segments[(id, i)]
  {
    forall i | 0 <= i < |r| ensures r[i].index == i && i < n {
      IndexIsPosition(db, id, r, n, i);
    }
    if |r| > 0 {
      assert r[|r| - 1].index == |r| - 1;
    }
    if n > 0 {
      assert (id, n - 1) in db.segments;
      var i :| 0 <= i < |r| && r[i].index == n - 1;
      assert r[i].index == i;
    }
  }

  lemma {:induction false} IndexIsPosition(db: Db, id: string, r: seq<Segment>, n: nat, i: nat)
    requires IsListing(db, id, r) && (forall k: nat :: (id, k) in db.segments <==> k < n) && i < |r|
    ensures r[i].index == i
  {
    if i > 0 {
      IndexIsPosition(db, id, r, n, i - 1);
    }
    assert (id, r[i].index) in db.segments;
    if r[i].index > i {
      assert (id, i) in db.segments;
      var j :| 0 <= j < |r| && r[j].index == i;
      assert false;
    }
  }

  /** Where a record belongs in a sorted list. */
  function Insert(s: Segment, sorted: seq<Segment>): seq<Segment> {
    if sorted == [] || s.index <= sorted[0].index then [s] + sorted else [sorted[0]] + Insert(s, sorted[1..])
  }

  lemma {:induction false} InsertIs(s: Segment, sorted: seq<Segment>)
    requires Ascending(sorted) && forall i :: 0 <= i < |sorted| ==> sorted[i].index != s.index
    ensures Ascending(Insert(s, sorted)) && forall x :: x in Insert(s, sorted) <==> x == s || x in sorted
  {
    if sorted == [] || s.index <= sorted[0].index {
    } else {
      var rest := Insert(s, sorted[1..]);
      InsertIs(s, sorted[1..]);
      assert sorted == [sorted[0]] + sorted[1..];
      forall j | 0 <= j < |rest| ensures sorted[0].index < rest[j].index {
        assert rest[j] in rest;
      }
    }
  }

  class Store {
    var runs: map<string, Run>
    var inputs: map<string, Inputs>
    var segments: map<SegmentKey, Segment>
    var proofs: map<SegmentKey, Proof>

    function Contents(): Db
      reads this
    {
      Db(runs, inputs, segments, proofs)
    }

    constructor ()
      ensures Contents() == Db(map[], map[], map[], map[])
    {
      runs, inputs, segments, proofs := map[], map[], map[], map[];
    }

    method CreateRun(id: string, genesis: Felt) returns (run: Run)
      modifies this
      ensures run == NewRun(id, genesis) && Contents() == Created(old(Contents()), id, genesis)
    {
      run := NewRun(id, genesis);
      runs := runs[id := run];
      inputs := inputs[id := Inputs(id, 0, [], [])];
    }

    method UpdateRun(id: string, p: Patch) returns (r: Result<Run>)
      modifies this
      ensures r.Err? <==> id !in old(runs)
      ensures r.Err? ==> Contents() == old(Contents())
      ensures r.Ok? ==> Updated(old(Contents()), id, p) == Ok(Contents()) && r.value == runs[id]
    {
      if id !in runs { return Err("no such run"); }
      var next := Patched(runs[id], p);
      runs := runs[id := next];
      return Ok(next);
    }

    method PutInputs(r: Inputs)
      modifies this
      ensures Contents() == WithInputs(old(Contents()), r)
    {
      inputs := inputs[r.runId := r];
      if r.runId in runs {
        runs := runs[r.runId := runs[r.runId].(ticCount := r.ticCount)];
      }
    }

    method GetInputs(runId: string) returns (r: Inputs)
      ensures r == if runId in inputs then inputs[runId] else Inputs(runId, 0, [], [])
    {
      if runId in inputs { return inputs[runId]; }
      return Inputs(runId, 0, [], []);
    }

    method PutSegment(s: Segment, proof: Option<Proof>)
      modifies this
      ensures Contents() == WithSegment(old(Contents()), s, proof)
    {
      segments := segments[(s.runId, s.index) := s];
      if proof.Some? {
        proofs := proofs[(s.runId, s.index) := proof.value];
      }
      if s.runId in runs && s.index + 1 > runs[s.runId].segments {
        runs := runs[s.runId := runs[s.runId].(segments := s.index + 1)];
      }
    }

    method DeleteRun(id: string)
      modifies this
      ensures Contents() == Deleted(old(Contents()), id)
    {
      runs := runs - {id};
      inputs := inputs - {id};
      segments := map k | k in segments && k.0 != id :: segments[k];
      proofs := map k | k in proofs && k.0 != id :: proofs[k];
    }

    /** Reads the run's records in whatever order the store yields them and sorts by index. */
    method ListSegments(runId: string) returns (r: seq<Segment>)
      requires Keyed(Contents())
      ensures IsListing(Contents(), runId, r)
    {
      r := [];
      var left := set k | k in segments && k.0 == runId;
      while left != {}
        invariant forall k :: k in left ==> k in segments && k.0 == runId
        invariant Ascending(r)
        invariant forall s :: s in r ==> (runId, s.index) in segments && segments[(runId, s.index)] == s && (runId, s.index) !in left
        invariant forall k :: k in segments && k.0 == runId && k !in left ==> segments[k] in r
        decreases |left|
      {
        var k :| k in left;
        InsertIs(segments[k], r);
        r := Insert(segments[k], r);
        left := left - {k};
      }
      forall n: nat | (runId, n) in segments ensures exists i :: 0 <= i < |r| && r[i].index == n {
        assert segments[(runId, n)] in r;
      }
    }
  }
}
