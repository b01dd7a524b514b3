/**
 * client/src/chain/calldata.ts: which proof sections travel in which router transaction, and
 * the calldata of each one. Optional fields of a plan that an entrypoint does not use are
 * `[]` or 0; calldata felts are numbers, not hex text.
 */
module Calldata {
  import opened LimbPacking
  import opened ProofStream
  import opened Sequences
  import opened Wrappers

  const MERKLE_STATE_FELTS := 228
  const FRI_STATE_FELTS := 576
  const DEFAULT_MAX_CALLDATA := 4990

  datatype Entrypoint = Begin | Merkle | Answers | Fri
  /** Which checkpoint a phase echoes back. */
  datatype EchoKind = NoEcho | MerkleState | FriState

  datatype PhasePlan = PhasePlan(
    entrypoint: Entrypoint,
    echo: EchoKind,
    calldataFelts: nat,
    payloadSlots: nat,
    proofId: nat,
    head: seq<nat>,
    headN: nat,
    payload: seq<nat>,
    lens: seq<nat>,
    trees: seq<nat>,
    nValues: nat,
    layers: seq<nat>)

  /** What `parseProof` guarantees and the planner indexes without checking. */
  predicate Plannable(sec: ProofSections) {
    |sec.queriedValues| == |sec.decommitments| == N_TREES && |sec.layers| >= 1
  }

  /** Queried values and decommitment of two trees, interleaved. */
  function TreeSections(sec: ProofSections, a: nat, b: nat): seq<seq<nat>>
    requires Plannable(sec) && a < N_TREES && b < N_TREES
  {
    [sec.queriedValues[a], sec.decommitments[a], sec.queriedValues[b], sec.decommitments[b]]
  }

  function TxBegin(sec: ProofSections, a: nat, b: nat, proofId: nat): Result<PhasePlan>
    requires Plannable(sec) && a < N_TREES && b < N_TREES
  {
    var head :- Packed(sec.head);
    var sections := TreeSections(sec, a, b);
    var payload :- PackedSections(sections);
    Ok(PhasePlan(Begin, NoEcho,
                 1 + 1 + |head| + 1 + 1 + |payload| + 1 + |sections| + 1 + 2, |head| + |payload|, proofId,
                 head, |sec.head|, payload, Lengths(sections), [a, b], 0, []))
  }

  function TxMerkle(sec: ProofSections, a: nat, b: nat, proofId: nat): Result<PhasePlan>
    requires Plannable(sec) && a < N_TREES && b < N_TREES
  {
    var sections := TreeSections(sec, a, b);
    var payload :- PackedSections(sections);
    Ok(PhasePlan(Merkle, MerkleState,
                 1 + 1 + MERKLE_STATE_FELTS + 1 + |payload| + 1 + |sections| + 1 + 2, |payload|, proofId,
                 [], 0, payload, Lengths(sections), [a, b], 0, []))
  }

  function TxAnswers(sec: ProofSections, proofId: nat): Result<PhasePlan> {
    var sections := [sec.sampled] + sec.queriedValues;
    var payload :- PackedSections(sections);
    Ok(PhasePlan(Answers, MerkleState,
                 1 + 1 + MERKLE_STATE_FELTS + 1 + |payload| + 1 + |sections|, |payload|, proofId,
                 [], 0, payload, Lengths(sections), [], 0, []))
  }

  function Range(first: nat, last: nat): (r: seq<nat>)
    requires first <= last
    ensures |r| == last - first && forall i :: 0 <= i < |r| ==> r[i] == first + i
  {
    seq(last - first, i requires 0 <= i => first + i)
  }

  function TxFri(sec: ProofSections, first: nat, last: nat, proofId: nat): Result<PhasePlan>
    requires first <= last <= |sec.layers|
  {
    var layers := sec.layers[first..last];
    var flat := [|layers|] + Flatten(layers);
    var payload :- PackedU32(flat);
    Ok(PhasePlan(Fri, FriState, 1 + 1 + FRI_STATE_FELTS + 1 + |payload| + 1, |payload|, proofId,
                 [], 0, payload, [], [], |flat|, Range(first, last)))
  }

  /** The cut list: duplicates dropped, only cuts strictly inside the walk, sorted. */
  function CanonicalCuts(split: seq<int>, from: nat, nLayers: nat): (cuts: seq<nat>)
    ensures CutsBetween(cuts, from, nLayers)
    ensures forall c: nat :: c in cuts <==> from < c < nLayers && c in split
    decreases nLayers - from
  {
    if from + 1 >= nLayers then []
    else if from + 1 in split then [from + 1] + CanonicalCuts(split, from + 1, nLayers)
    else CanonicalCuts(split, from + 1, nLayers)
  }

  /** Strictly increasing, strictly between `from` and `nLayers`. */
  predicate CutsBetween(cuts: seq<nat>, from: nat, nLayers: nat) {
    && (forall i :: 0 <= i < |cuts| ==> from < cuts[i] < nLayers)
    && (forall i, j :: 0 <= i < j < |cuts| ==> cuts[i] < cuts[j])
  }

  /** There is only one such list, so how the source filters and sorts does not matter. */
  lemma {:induction false} CutsUnique(a: seq<nat>, b: seq<nat>, from: nat, nLayers: nat)
    requires CutsBetween(a, from, nLayers) && CutsBetween(b, from, nLayers)
    requires forall c: nat :: c in a <==> c in b
    ensures a == b
  {
    var w := if a != [] then a[0] else if b != [] then b[0] else 0;
    assert w in a <==> w in b;
    if a != [] {
      assert a[0] in b && b[0] in a;
      var i :| 0 <= i < |b| && b[i] == a[0];
      var j :| 0 <= j < |a| && a[j] == b[0];
      assert a[0] == b[0];
      forall c: nat ensures c in a[1..] <==> c in b[1..] {
        assert c in a <==> c == a[0] || c in a[1..];
        assert c in b <==> c == b[0] || c in b[1..];
        assert c in a[1..] ==> c != a[0];
        assert c in b[1..] ==> c != b[0];
      }
      CutsUnique(a[1..], b[1..], from, nLayers);
    }
  }

  /** One `fri` transaction between each cut and the next. */
  function FriPhases(sec: ProofSections, proofId: nat, first: nat, cuts: seq<nat>): Result<seq<PhasePlan>>
    requires first < |sec.layers| && CutsBetween(cuts, first, |sec.layers|)
    decreases |cuts|
  {
    if cuts == [] then
      var p :- TxFri(sec, first, |sec.layers|, proofId);
      Ok([p])
    else
      var p :- TxFri(sec, first, cuts[0], proofId);
      var rest :- FriPhases(sec, proofId, cuts[0], cuts[1..]);
      Ok([p] + rest)
  }

  function UncheckedPlan(sec: ProofSections, proofId: nat, split: seq<int>): Result<seq<PhasePlan>>
    requires Plannable(sec)
  {
    var begin :- TxBegin(sec, 0, 1, proofId);
    var merkle :- TxMerkle(sec, 2, 3, proofId);
    var answers :- TxAnswers(sec, proofId);
    var fri :- FriPhases(sec, proofId, 0, CanonicalCuts(split, 0, |sec.layers|));
    Ok([begin, merkle, answers] + fri)
  }

  /** `planPhases`: the whole plan, or an error when a value is too wide or a phase too long. */
  function PlanPhases(sec: ProofSections, proofId: nat, split: seq<int>, maxCalldata: nat): Result<seq<PhasePlan>>
    requires Plannable(sec)
  {
    var phases :- UncheckedPlan(sec, proofId, split);
    if exists i :: 0 <= i < |phases| && phases[i].calldataFelts > maxCalldata then Err("calldata felts; re-plan")
    else Ok(phases)
  }

  /** `planPhasesAuto`: an explicit cut is authoritative, otherwise the first of three cuts that fits. */
  function PlanPhasesAuto(sec: ProofSections, proofId: nat, split: Option<seq<int>>, maxCalldata: nat): Result<seq<PhasePlan>>
    requires Plannable(sec)
  {
    match split
    case Some(cuts) => PlanPhases(sec, proofId, cuts, maxCalldata)
    case None =>
      var five := PlanPhases(sec, proofId, [2], maxCalldata);
      if five.Ok? then five
      else
        var six := PlanPhases(sec, proofId, [1, 3], maxCalldata);
        if six.Ok? then six else PlanPhases(sec, proofId, [1, 2, 4], maxCalldata)
  }

  // ----- the cut list and the plan undo each other -------------------------------------------

  function FriOnly(phases: seq<PhasePlan>): seq<PhasePlan> {
    if phases == [] then []
    else if phases[0].entrypoint == Fri then [phases[0]] + FriOnly(phases[1..])
    else FriOnly(phases[1..])
  }

  function FirstLayers(fri: seq<PhasePlan>): seq<nat>
    requires forall p :: p in fri ==> p.layers != []
  {
    if fri == [] then [] else [fri[0].layers[0]] + FirstLayers(fri[1..])
  }

  /** `friSplitOf` (sequence.ts): the cuts a plan was made with, read off its FRI phases. */
  function FriSplitOf(phases: seq<PhasePlan>): Option<seq<nat>> {
    var fri := FriOnly(phases);
    if fri == [] || exists p :: p in fri && p.layers == [] then None
    else Some(FirstLayers(fri[1..]))
  }

  /** What the FRI phases of a plan are, cut by cut. */
  lemma {:induction false} FriPhasesShape(sec: ProofSections, proofId: nat, first: nat, cuts: seq<nat>)
    requires first < |sec.layers| && CutsBetween(cuts, first, |sec.layers|)
    requires FriPhases(sec, proofId, first, cuts).Ok?
    ensures var fri := FriPhases(sec, proofId, first, cuts).value;
            && |fri| == |cuts| + 1
            && FriOnly(fri) == fri
            && (forall p :: p in fri ==> p.entrypoint == Fri && p.echo == FriState && p.layers != [] && p.proofId == proofId)
            && fri[0].layers[0] == first
            && FirstLayers(fri[1..]) == cuts
    decreases |cuts|
  {
    var fri := FriPhases(sec, proofId, first, cuts).value;
    if cuts == [] {
      assert fri[1..] == [];
    } else {
      FriPhasesShape(sec, proofId, cuts[0], cuts[1..]);
      var rest := FriPhases(sec, proofId, cuts[0], cuts[1..]).value;
      assert fri[1..] == rest;
      assert FirstLayers(rest) == [rest[0].layers[0]] + FirstLayers(rest[1..]);
    }
  }

  lemma FriOnlyOfPlan(a: PhasePlan, b: PhasePlan, c: PhasePlan, fri: seq<PhasePlan>)
    requires a.entrypoint != Fri && b.entrypoint != Fri && c.entrypoint != Fri
    ensures FriOnly([a, b, c] + fri) == FriOnly(fri)
  {
    var phases := [a, b, c] + fri;
    assert phases[1..] == [b, c] + fri && phases[1..][1..] == [c] + fri && phases[1..][1..][1..] == fri;
    assert FriOnly(phases) == FriOnly(phases[1..]) == FriOnly(phases[1..][1..]) == FriOnly(phases[1..][1..][1..]);
  }

  /** `friSplitOf` inverts the planning: it returns the canonical cut list. */
  lemma SplitOfPlan(sec: ProofSections, proofId: nat, split: seq<int>, maxCalldata: nat)
    requires Plannable(sec) && PlanPhases(sec, proofId, split, maxCalldata).Ok?
    ensures FriSplitOf(PlanPhases(sec, proofId, split, maxCalldata).value) ==
            Some(CanonicalCuts(split, 0, |sec.layers|))
  {
    var phases := PlanPhases(sec, proofId, split, maxCalldata).value;
    var cuts := CanonicalCuts(split, 0, |sec.layers|);
    FriPhasesShape(sec, proofId, 0, cuts);
    FriOnlyOfPlan(phases[0], phases[1], phases[2], FriPhases(sec, proofId, 0, cuts).value);
  }

  /** Planning again from a plan's own cuts gives that very plan. */
  lemma PlanOfSplit(sec: ProofSections, proofId: nat, split: seq<int>, maxCalldata: nat, cuts: seq<nat>)
    requires Plannable(sec) && PlanPhases(sec, proofId, split, maxCalldata).Ok?
    requires FriSplitOf(PlanPhases(sec, proofId, split, maxCalldata).value) == Some(cuts)
    ensures PlanPhases(sec, proofId, cuts, maxCalldata) == PlanPhases(sec, proofId, split, maxCalldata)
  {
    SplitOfPlan(sec, proofId, split, maxCalldata);
    CutsUnique(CanonicalCuts(cuts, 0, |sec.layers|), cuts, 0, |sec.layers|);
  }

  // ----- the whole stream is recoverable from the plan ---------------------------------------

  function AllSome(xs: seq<Option<nat>>): Option<seq<nat>> {
    if xs == [] then Some([])
    else
      match (xs[0], AllSome(xs[1..]))
      case (Some(x), Some(rest)) => Some([x] + rest)
      case _ => None
  }

  lemma {:induction false} AllSomeDefined(values: seq<nat>)
    ensures AllSome(Defined(values)) == Some(values)
  {
    if values == [] {
      assert Defined(values) == [];
    } else {
      assert Defined(values)[1..] == Defined(values[1..]);
      AllSomeDefined(values[1..]);
      assert [values[0]] + values[1..] == values;
    }
  }

  function UnpackedHead(begin: PhasePlan): Option<seq<nat>> {
    match Unpacked(begin.head, begin.headN)
    case Ok(xs) => AllSome(xs)
    case Err(_) => None
  }

  function SectionsIn(p: PhasePlan): Option<seq<seq<nat>>> {
    UnpackedSections(p.payload, p.lens)
  }

  /** The layers one `fri` transaction carries: a count, then the layers, self-delimiting. */
  function LayersIn(p: PhasePlan): Option<seq<seq<nat>>> {
    match UnpackedU32(p.payload, p.nValues)
    case Some(flat) => if flat == [] then None else Items(flat, 1, Layer, flat[0])
    case None => None
  }

  function AllLayersIn(fri: seq<PhasePlan>): Option<seq<seq<nat>>> {
    if fri == [] then Some([])
    else
      match (LayersIn(fri[0]), AllLayersIn(fri[1..]))
      case (Some(layers), Some(rest)) => Some(layers + rest)
      case _ => None
  }

  /** The proof stream read back out of the transactions, from what they carry and nothing else. */
  function Recover(phases: seq<PhasePlan>): Option<seq<nat>> {
    if |phases| < 4 then None
    else
      match (UnpackedHead(phases[0]), SectionsIn(phases[0]), SectionsIn(phases[1]), SectionsIn(phases[2]),
             AllLayersIn(phases[3..]))
      case (Some(head), Some(low), Some(high), Some(answers), Some(layers)) =>
        if |low| != 4 || |high| != 4 || |answers| != 1 + N_TREES then None
        else Rebuild(ProofSections(head, answers[0], answers[1..], [low[1], low[3], high[1], high[3]], layers, []))
      case _ => None
  }

  lemma LayersInTx(sec: ProofSections, first: nat, last: nat, proofId: nat)
    requires first <= last <= |sec.layers| && TxFri(sec, first, last, proofId).Ok?
    requires forall i :: 0 <= i < |sec.layers| ==> Is(sec.layers[i], Layer)
    ensures LayersIn(TxFri(sec, first, last, proofId).value) == Some(sec.layers[first..last])
  {
    hide UnpackedU32, PackedU32, End;
    var layers := sec.layers[first..last];
    var flat := [|layers|] + Flatten(layers);
    UnpackPackU32(flat);
    assert flat[1..1 + |Flatten(layers)|] == Flatten(layers);
    ItemsOfFlatten(flat, 1, Layer, layers);
  }

  /** For any cut list, the FRI transactions carry all the layers, in order, each exactly once. */
  lemma {:induction false} FriChunksConcatenate(sec: ProofSections, proofId: nat, first: nat, cuts: seq<nat>)
    requires first < |sec.layers| && CutsBetween(cuts, first, |sec.layers|)
    requires FriPhases(sec, proofId, first, cuts).Ok?
    requires forall i :: 0 <= i < |sec.layers| ==> Is(sec.layers[i], Layer)
    ensures AllLayersIn(FriPhases(sec, proofId, first, cuts).value) == Some(sec.layers[first..])
    decreases |cuts|
  {
    hide LayersIn, TxFri, Is;
    var fri := FriPhases(sec, proofId, first, cuts).value;
    if cuts == [] {
      LayersInTx(sec, first, |sec.layers|, proofId);
      assert fri[1..] == [];
      assert sec.layers[first..|sec.layers|] + [] == sec.layers[first..];
    } else {
      LayersInTx(sec, first, cuts[0], proofId);
      FriChunksConcatenate(sec, proofId, cuts[0], cuts[1..]);
      assert fri[1..] == FriPhases(sec, proofId, cuts[0], cuts[1..]).value;
      assert sec.layers[first..cuts[0]] + sec.layers[cuts[0]..] == sec.layers[first..];
    }
  }

  /** What the three first transactions carry. */
  lemma FirstPhasesCarry(sec: ProofSections, proofId: nat, split: seq<int>)
    requires Plannable(sec) && UncheckedPlan(sec, proofId, split).Ok?
    ensures var phases := UncheckedPlan(sec, proofId, split).value;
            && |phases| >= 4
            && UnpackedHead(phases[0]) == Some(sec.head)
            && SectionsIn(phases[0]) == Some(TreeSections(sec, 0, 1))
            && SectionsIn(phases[1]) == Some(TreeSections(sec, 2, 3))
            && SectionsIn(phases[2]) == Some([sec.sampled] + sec.queriedValues)
  {
    hide UnpackedSections, PackedSections, Unpacked, Packed;
    FriPhasesShape(sec, proofId, 0, CanonicalCuts(split, 0, |sec.layers|));
    UnpackPack(sec.head);
    AllSomeDefined(sec.head);
    UnpackSections(TreeSections(sec, 0, 1));
    UnpackSections(TreeSections(sec, 2, 3));
    UnpackSections([sec.sampled] + sec.queriedValues);
  }

  /**
   * Each Merkle tree's decommitment, with its queried values, travels in exactly one of the
   * `begin` and `merkle` transactions, under its own index.
   */
  lemma EachTreeOnce(sec: ProofSections, proofId: nat, split: seq<int>, t: nat)
    requires Plannable(sec) && UncheckedPlan(sec, proofId, split).Ok? && t < N_TREES
    ensures var phases := UncheckedPlan(sec, proofId, split).value;
            && |phases| >= 4 && phases[0].entrypoint == Begin && phases[1].entrypoint == Merkle
            && phases[0].trees + phases[1].trees == [0, 1, 2, 3]
            && forall i: nat, k: nat :: i < 2 && k < |phases[i].trees| && phases[i].trees[k] == t ==>
                 && i == t / 2 && k == t % 2
                 && SectionsIn(phases[i]).Some? && |SectionsIn(phases[i]).value| == 4
                 && SectionsIn(phases[i]).value[2 * k] == sec.queriedValues[t]
                 && SectionsIn(phases[i]).value[2 * k + 1] == sec.decommitments[t]
  {
    hide SectionsIn;
    FirstPhasesCarry(sec, proofId, split);
  }

  lemma RecoverSections(sec: ProofSections, proofId: nat, split: seq<int>)
    requires Plannable(sec) && UncheckedPlan(sec, proofId, split).Ok?
    requires forall i :: 0 <= i < |sec.layers| ==> Is(sec.layers[i], Layer)
    ensures Recover(UncheckedPlan(sec, proofId, split).value) == Rebuild(sec)
  {
    hide UnpackedHead, SectionsIn, AllLayersIn, FriPhases, Rebuild, Is;
    var phases := UncheckedPlan(sec, proofId, split).value;
    FirstPhasesCarry(sec, proofId, split);
    var cuts := CanonicalCuts(split, 0, |sec.layers|);
    FriChunksConcatenate(sec, proofId, 0, cuts);
    assert phases[3..] == FriPhases(sec, proofId, 0, cuts).value;
    assert sec.layers[0..] == sec.layers;
    var answers := [sec.sampled] + sec.queriedValues;
    assert answers[1..] == sec.queriedValues;
    var d := sec.decommitments;
    assert [d[0], d[1], d[2], d[3]] == d;
    RebuildIgnoresConfig(sec, []);
  }

  lemma RebuildIgnoresConfig(sec: ProofSections, config: seq<nat>)
    ensures Rebuild(sec.(pcsConfig := config)) == Rebuild(sec)
  {
  }

  // ----- the calldata of one phase -----------------------------------------------------------

  /** A `Span<felt252>`: the length, then the values. */
  function SpanOf(values: seq<nat>): seq<nat> {
    [|values|] + values
  }

  function PhaseCalldata(phase: PhasePlan, echo: Option<seq<nat>>): Result<seq<nat>> {
    if phase.entrypoint != Begin && echo.None? then Err("missing state echo")
    else
      Ok([phase.proofId]
         + (if phase.entrypoint == Begin then SpanOf(phase.head) + [phase.headN] else SpanOf(echo.value))
         + SpanOf(phase.payload)
         + (if phase.entrypoint != Fri then SpanOf(phase.lens) else [])
         + (if phase.entrypoint == Begin || phase.entrypoint == Merkle then SpanOf(phase.trees) else [])
         + (if phase.entrypoint == Fri then [phase.nValues] else []))
  }

  /** The arguments of a router entrypoint; those it does not take are `[]` or 0. */
  datatype Arguments = Arguments(
    proofId: nat, head: seq<nat>, headN: nat, state: seq<nat>, payload: seq<nat>, lens: seq<nat>, trees: seq<nat>, nValues: nat)

  /** A span at `pos`, and where it ends. */
  function ReadSpan(cd: seq<nat>, pos: nat): Result<(seq<nat>, nat)> {
    if pos < |cd| && pos + 1 + cd[pos] <= |cd| then Ok((cd[pos + 1..pos + 1 + cd[pos]], pos + 1 + cd[pos]))
    else Err("calldata too short")
  }

  function ReadFelt(cd: seq<nat>, pos: nat): Result<(nat, nat)> {
    if pos < |cd| then Ok((cd[pos], pos + 1)) else Err("calldata too short")
  }

  /** A span that not every entrypoint takes. */
  function ReadSpanIf(taken: bool, cd: seq<nat>, pos: nat): Result<(seq<nat>, nat)> {
    if taken then ReadSpan(cd, pos) else Ok(([], pos))
  }

  function ReadFeltIf(taken: bool, cd: seq<nat>, pos: nat): Result<(nat, nat)> {
    if taken then ReadFelt(cd, pos) else Ok((0, pos))
  }

  /**
   * Calldata as an entrypoint takes it, felt by felt: the proof id; `begin` then takes the head and
   * its unpacked length, the others the state they continue; then the payload, the section lengths
   * (not `fri`), the tree numbers (`begin` and `merkle`) and the number of values (`fri`); and
   * nothing after.
   */
  function ReadArguments(entrypoint: Entrypoint, cd: seq<nat>): Result<Arguments> {
    var (proofId, p0) :- ReadFelt(cd, 0);
    var (head, p1) :- ReadSpanIf(entrypoint == Begin, cd, p0);
    var (headN, p2) :- ReadFeltIf(entrypoint == Begin, cd, p1);
    var (state, p3) :- ReadSpanIf(entrypoint != Begin, cd, p2);
    var (payload, p4) :- ReadSpan(cd, p3);
    var (lens, p5) :- ReadSpanIf(entrypoint != Fri, cd, p4);
    var (trees, p6) :- ReadSpanIf(entrypoint == Begin || entrypoint == Merkle, cd, p5);
    var (nValues, p7) :- ReadFeltIf(entrypoint == Fri, cd, p6);
    if p7 == |cd| then Ok(Arguments(proofId, head, headN, state, payload, lens, trees, nValues))
    else Err("calldata too long")
  }

  /** What the router should be told by a phase that echoes `state`. */
  function Told(phase: PhasePlan, state: seq<nat>): Arguments {
    match phase.entrypoint
    case Begin => Arguments(phase.proofId, phase.head, phase.headN, [], phase.payload, phase.lens, phase.trees, 0)
    case Merkle => Arguments(phase.proofId, [], 0, state, phase.payload, phase.lens, phase.trees, 0)
    case Answers => Arguments(phase.proofId, [], 0, state, phase.payload, phase.lens, [], 0)
    case Fri => Arguments(phase.proofId, [], 0, state, phase.payload, [], [], phase.nValues)
  }

  function SpanIf(taken: bool, values: seq<nat>): seq<nat> {
    if taken then SpanOf(values) else []
  }

  function FeltIf(taken: bool, value: nat): seq<nat> {
    if taken then [value] else []
  }

  /** A span in the middle of calldata is read where it was put. */
  lemma SpanPlaced(taken: bool, before: seq<nat>, values: seq<nat>, after: seq<nat>)
    ensures ReadSpanIf(taken, before + (SpanIf(taken, values) + after), |before|)
         == Ok((if taken then values else [], |before + SpanIf(taken, values)|))
  {
    if taken {
      var cd := before + (SpanOf(values) + after);
      assert cd[|before|] == (SpanOf(values) + after)[0] == |values|;
      assert cd[|before| + 1..|before| + 1 + |values|] == values;
    }
  }

  lemma FeltPlaced(taken: bool, before: seq<nat>, value: nat, after: seq<nat>)
    ensures ReadFeltIf(taken, before + (FeltIf(taken, value) + after), |before|)
         == Ok((if taken then value else 0, |before + FeltIf(taken, value)|))
  {
  }

  lemma Regrouped(before: seq<nat>, a: seq<nat>, after: seq<nat>)
    ensures before + (a + after) == (before + a) + after
  {
  }

  /** Arguments laid one after the other. */
  function Laid(e: Entrypoint, t: Arguments): seq<nat> {
    [t.proofId] + (SpanIf(e == Begin, t.head) + (FeltIf(e == Begin, t.headN) + (SpanIf(e != Begin, t.state)
      + (SpanIf(true, t.payload) + (SpanIf(e != Fri, t.lens) + (SpanIf(e == Begin || e == Merkle, t.trees)
      + FeltIf(e == Fri, t.nValues)))))))
  }

  /** Arguments an entrypoint does not take are left at `[]` or 0. */
  predicate Fits(e: Entrypoint, t: Arguments) {
    && (e != Begin ==> t.head == [] && t.headN == 0) && (e == Begin ==> t.state == [])
    && (e == Fri ==> t.lens == []) && (e != Begin && e != Merkle ==> t.trees == []) && (e != Fri ==> t.nValues == 0)
  }

  lemma LaidReadsBack(e: Entrypoint, t: Arguments)
    requires Fits(e, t)
    ensures ReadArguments(e, Laid(e, t)) == Ok(t)
  {
    var x1, x2, x3, x4 := SpanIf(e == Begin, t.head), FeltIf(e == Begin, t.headN), SpanIf(e != Begin, t.state), SpanIf(true, t.payload);
    var x5, x6, x7 := SpanIf(e != Fri, t.lens), SpanIf(e == Begin || e == Merkle, t.trees), FeltIf(e == Fri, t.nValues);
    var r6 := x6 + x7;
    var r5 := x5 + r6;
    var r4 := x4 + r5;
    var r3 := x3 + r4;
    var r2 := x2 + r3;
    var b1 := [t.proofId];
    var b2 := b1 + x1;
    var b3 := b2 + x2;
    var b4 := b3 + x3;
    var b5 := b4 + x4;
    var b6 := b5 + x5;
    var b7 := b6 + x6;
    var cd := Laid(e, t);
    assert ReadFelt(cd, 0) == Ok((t.proofId, 1));
    hide SpanIf, FeltIf, ReadSpanIf, ReadFeltIf, ReadFelt;
    Regrouped(b1, x1, r2);
    Regrouped(b2, x2, r3);
    Regrouped(b3, x3, r4);
    Regrouped(b4, x4, r5);
    Regrouped(b5, x5, r6);
    Regrouped(b6, x6, x7);
    assert x7 + [] == x7;
    SpanPlaced(e == Begin, b1, t.head, r2);
    FeltPlaced(e == Begin, b2, t.headN, r3);
    SpanPlaced(e != Begin, b3, t.state, r4);
    SpanPlaced(true, b4, t.payload, r5);
    SpanPlaced(e != Fri, b5, t.lens, r6);
    SpanPlaced(e == Begin || e == Merkle, b6, t.trees, x7);
    FeltPlaced(e == Fri, b7, t.nValues, []);
    assert |cd| == |b7 + x7|;
    AlwaysTaken(cd, |b4|);
  }

  lemma AlwaysTaken(cd: seq<nat>, pos: nat)
    ensures ReadSpanIf(true, cd, pos) == ReadSpan(cd, pos)
  {
  }

  /** The calldata of a phase lays out what the router should be told. */
  lemma CalldataIsLaid(phase: PhasePlan, echo: Option<seq<nat>>)
    requires PhaseCalldata(phase, echo).Ok?
    ensures PhaseCalldata(phase, echo).value == Laid(phase.entrypoint, Told(phase, if echo.Some? then echo.value else []))
  {
    hide SpanOf;
  }

  /**
   * For each entrypoint, reading the calldata argument by argument gives back every field of the
   * phase, each in its own place, and the state it echoes.
   */
  lemma CalldataReadsBack(phase: PhasePlan, echo: Option<seq<nat>>)
    requires PhaseCalldata(phase, echo).Ok?
    ensures ReadArguments(phase.entrypoint, PhaseCalldata(phase, echo).value)
         == Ok(Told(phase, if echo.Some? then echo.value else []))
  {
    CalldataIsLaid(phase, echo);
    LaidReadsBack(phase.entrypoint, Told(phase, if echo.Some? then echo.value else []));
  }

  // ----- the whole stream is recoverable from the calldata -------------------------------------

  /** What the receiver knows of a phase. */
  function Received(e: Entrypoint, cd: seq<nat>): Option<PhasePlan> {
    match ReadArguments(e, cd)
    case Ok(t) => Some(PhasePlan(e, NoEcho, 0, 0, t.proofId, t.head, t.headN, t.payload, t.lens, t.trees, t.nValues, []))
    case Err(_) => None
  }

  function ReceivedAll(sent: seq<(Entrypoint, seq<nat>)>): Option<seq<PhasePlan>> {
    if sent == [] then Some([])
    else
      match (Received(sent[0].0, sent[0].1), ReceivedAll(sent[1..]))
      case (Some(p), Some(rest)) => Some([p] + rest)
      case _ => None
  }

  /** The proof stream read back out of the transactions as they were sent: entrypoints and calldata. */
  function RecoverSent(sent: seq<(Entrypoint, seq<nat>)>): Option<seq<nat>> {
    match ReceivedAll(sent)
    case Some(phases) => Recover(phases)
    case None => None
  }

  /** Fields an entrypoint does not take are empty in the plan. */
  predicate Plain(p: PhasePlan) {
    && (p.entrypoint != Begin ==> p.head == [] && p.headN == 0)
    && (p.entrypoint == Fri ==> p.lens == []) && (p.entrypoint != Begin && p.entrypoint != Merkle ==> p.trees == [])
    && (p.entrypoint != Fri ==> p.nValues == 0)
  }

  lemma {:induction false} FriPlain(sec: ProofSections, proofId: nat, first: nat, cuts: seq<nat>)
    requires first < |sec.layers| && CutsBetween(cuts, first, |sec.layers|) && FriPhases(sec, proofId, first, cuts).Ok?
    ensures forall p :: p in FriPhases(sec, proofId, first, cuts).value ==> Plain(p)
    decreases |cuts|
  {
    hide PackedU32, Flatten;
    if cuts != [] {
      FriPlain(sec, proofId, cuts[0], cuts[1..]);
    }
  }

  lemma PlanIsPlain(sec: ProofSections, proofId: nat, split: seq<int>)
    requires Plannable(sec) && UncheckedPlan(sec, proofId, split).Ok?
    ensures forall p :: p in UncheckedPlan(sec, proofId, split).value ==> Plain(p)
  {
    FriPlain(sec, proofId, 0, CanonicalCuts(split, 0, |sec.layers|));
    hide FriPhases, PackedSections, Packed;
  }

  /** The same in every field that travels. */
  predicate SameContent(p: PhasePlan, q: PhasePlan) {
    && p.entrypoint == q.entrypoint && p.proofId == q.proofId && p.head == q.head && p.headN == q.headN
    && p.payload == q.payload && p.lens == q.lens && p.trees == q.trees && p.nValues == q.nValues
  }

  lemma ReceivedIs(p: PhasePlan, echo: Option<seq<nat>>)
    requires Plain(p) && PhaseCalldata(p, echo).Ok?
    ensures Received(p.entrypoint, PhaseCalldata(p, echo).value).Some?
    ensures SameContent(Received(p.entrypoint, PhaseCalldata(p, echo).value).value, p)
  {
    hide ReadArguments, PhaseCalldata;
    CalldataReadsBack(p, echo);
  }

  /** `sent` are the phases, each with some echo, as calldata. */
  ghost predicate SentAs(phases: seq<PhasePlan>, echoes: seq<Option<seq<nat>>>, sent: seq<(Entrypoint, seq<nat>)>) {
    && |phases| == |echoes| == |sent|
    && forall i :: 0 <= i < |sent| ==>
         sent[i].0 == phases[i].entrypoint && PhaseCalldata(phases[i], echoes[i]) == Ok(sent[i].1)
  }

  lemma {:induction false} ReceivedAllAre(phases: seq<PhasePlan>, echoes: seq<Option<seq<nat>>>, sent: seq<(Entrypoint, seq<nat>)>)
    requires SentAs(phases, echoes, sent) && forall i :: 0 <= i < |phases| ==> Plain(phases[i])
    ensures ReceivedAll(sent).Some? && |ReceivedAll(sent).value| == |phases|
    ensures forall i :: 0 <= i < |phases| ==> SameContent(ReceivedAll(sent).value[i], phases[i])
    decreases |sent|
  {
    hide Received, PhaseCalldata, Plain, SameContent;
    if sent != [] {
      ReceivedIs(phases[0], echoes[0]);
      ReceivedAllAre(phases[1..], echoes[1..], sent[1..]);
    }
  }

  lemma {:induction false} SameLayersIn(a: seq<PhasePlan>, b: seq<PhasePlan>)
    requires |a| == |b| && forall i :: 0 <= i < |a| ==> SameContent(a[i], b[i])
    ensures AllLayersIn(a) == AllLayersIn(b)
  {
    hide UnpackedU32;
    if a != [] {
      SameLayersIn(a[1..], b[1..]);
    }
  }

  lemma RecoverSame(a: seq<PhasePlan>, b: seq<PhasePlan>)
    requires |a| == |b| && forall i :: 0 <= i < |a| ==> SameContent(a[i], b[i])
    ensures Recover(a) == Recover(b)
  {
    hide AllLayersIn, Unpacked, UnpackedSections, Rebuild;
    if |a| >= 4 {
      SameLayersIn(a[3..], b[3..]);
    }
  }

  /**
   * For any cut list, the whole root-proof stream can be read back out of the planned transactions
   * and, whatever states they echo, out of the calldata they are sent with.
   */
  lemma PhasesCarryProof(v: seq<nat>, proofId: nat, split: seq<int>, maxCalldata: nat,
                         echoes: seq<Option<seq<nat>>>, sent: seq<(Entrypoint, seq<nat>)>)
    requires ParseProof(v).Ok?
    ensures Plannable(ParseProof(v).value)
    ensures var plan := PlanPhases(ParseProof(v).value, proofId, split, maxCalldata);
            plan.Ok? ==> Recover(plan.value) == Some(v) && (SentAs(plan.value, echoes, sent) ==> RecoverSent(sent) == Some(v))
  {
    hide ParseProof, Recover, UncheckedPlan, CutsOf, ListAt, HeadOf, End, Rebuild, Is, SentAs, ReceivedAll, Plain, SameContent;
    ParsedFields(v);
    var sec := ParseProof(v).value;
    ParseLosesNothing(v);
    if UncheckedPlan(sec, proofId, split).Ok? {
      var phases := UncheckedPlan(sec, proofId, split).value;
      RecoverSections(sec, proofId, split);
      PlanIsPlain(sec, proofId, split);
      if SentAs(phases, echoes, sent) {
        ReceivedAllAre(phases, echoes, sent);
        RecoverSame(ReceivedAll(sent).value, phases);
      }
    }
  }

  /** The checkpoint size a phase plan counts on. */
  function NominalEcho(kind: EchoKind): nat {
    match kind
    case NoEcho => 0
    case MerkleState => MERKLE_STATE_FELTS
    case FriState => FRI_STATE_FELTS
  }

  lemma {:induction false} FriCalldataFelts(sec: ProofSections, proofId: nat, first: nat, cuts: seq<nat>)
    requires first < |sec.layers| && CutsBetween(cuts, first, |sec.layers|)
    requires FriPhases(sec, proofId, first, cuts).Ok?
    ensures forall p :: p in FriPhases(sec, proofId, first, cuts).value ==>
              p.entrypoint == Fri && p.echo == FriState && p.calldataFelts == 1 + 1 + FRI_STATE_FELTS + 1 + |p.payload| + 1
    decreases |cuts|
  {
    if cuts != [] {
      FriCalldataFelts(sec, proofId, cuts[0], cuts[1..]);
    }
  }

  /**
   * The length the plan asserts against the cap is the length that is sent, exactly when the
   * echoed checkpoint has its nominal size; and only `begin` can be sent without one.
   */
  lemma CalldataFeltsExact(sec: ProofSections, proofId: nat, split: seq<int>, maxCalldata: nat, i: nat, echo: Option<seq<nat>>)
    requires Plannable(sec) && PlanPhases(sec, proofId, split, maxCalldata).Ok?
    requires i < |PlanPhases(sec, proofId, split, maxCalldata).value|
    ensures var p := PlanPhases(sec, proofId, split, maxCalldata).value[i];
            && (PhaseCalldata(p, echo).Ok? <==> i == 0 || echo.Some?)
            && p.calldataFelts <= maxCalldata
            && (PhaseCalldata(p, echo).Ok? ==>
                  (|PhaseCalldata(p, echo).value| == p.calldataFelts <==>
                   i == 0 || |echo.value| == NominalEcho(p.echo)))
  {
    hide PackedSections, Packed, PackedU32;
    var cuts := CanonicalCuts(split, 0, |sec.layers|);
    var fri := FriPhases(sec, proofId, 0, cuts).value;
    FriCalldataFelts(sec, proofId, 0, cuts);
    if i >= 3 {
      assert PlanPhases(sec, proofId, split, maxCalldata).value[i] == fri[i - 3];
    }
  }

  // ----- the loops ---------------------------------------------------------------------------

  /** Where a cut belongs in a sorted list. */
  function InsertedCut(c: nat, sorted: seq<nat>): seq<nat> {
    if sorted == [] || c < sorted[0] then [c] + sorted else [sorted[0]] + InsertedCut(c, sorted[1..])
  }

  function SortedCuts(cuts: seq<nat>): seq<nat> {
    if cuts == [] then [] else InsertedCut(cuts[0], SortedCuts(cuts[1..]))
  }

  lemma {:induction false} InsertedCutIs(c: nat, sorted: seq<nat>, n: nat)
    requires CutsBetween(sorted, 0, n) && 0 < c < n && c !in sorted
    ensures CutsBetween(InsertedCut(c, sorted), 0, n)
    ensures forall x :: x in InsertedCut(c, sorted) <==> x == c || x in sorted
  {
    if sorted != [] && c >= sorted[0] {
      var rest := InsertedCut(c, sorted[1..]);
      InsertedCutIs(c, sorted[1..], n);
      assert sorted == [sorted[0]] + sorted[1..];
      forall j | 0 <= j < |rest| ensures sorted[0] < rest[j] {
        assert rest[j] in rest;
      }
    }
  }

  predicate Different(xs: seq<nat>) {
    forall i, j :: 0 <= i < j < |xs| ==> xs[i] != xs[j]
  }

  lemma {:induction false} SortedCutsAre(cuts: seq<nat>, n: nat)
    requires Different(cuts) && forall i :: 0 <= i < |cuts| ==> 0 < cuts[i] < n
    ensures CutsBetween(SortedCuts(cuts), 0, n) && forall x :: x in SortedCuts(cuts) <==> x in cuts
  {
    if cuts != [] {
      var rest := cuts[1..];
      assert cuts == [cuts[0]] + rest;
      SortedCutsAre(rest, n);
      assert cuts[0] !in rest;
      InsertedCutIs(cuts[0], SortedCuts(rest), n);
    }
  }

  /** `[...new Set(split)].filter(…).sort(…)`: whatever list the caller gave, its canonical cuts. */
  method CutList(split: seq<int>, nLayers: nat) returns (cuts: seq<nat>)
    ensures cuts == CanonicalCuts(split, 0, nLayers)
  {
    var kept: seq<nat> := [];
    for i := 0 to |split|
      invariant Different(kept)
      invariant forall j :: 0 <= j < |kept| ==> 0 < kept[j] < nLayers
      invariant forall c: nat :: c in kept <==> 0 < c < nLayers && c in split[..i]
    {
      assert split[..i + 1] == split[..i] + [split[i]];
      if 0 < split[i] < nLayers && split[i] !in kept {
        kept := kept + [split[i]];
      }
    }
    assert split[..|split|] == split;
    SortedCutsAre(kept, nLayers);
    cuts := SortedCuts(kept);
    CutsUnique(cuts, CanonicalCuts(split, 0, nLayers), 0, nLayers);
  }

  /** The loop that pushes one `fri` transaction a chunk. */
  method PushFri(sec: ProofSections, proofId: nat, cuts: seq<nat>) returns (r: Result<seq<PhasePlan>>)
    requires |sec.layers| >= 1 && CutsBetween(cuts, 0, |sec.layers|)
    ensures r == FriPhases(sec, proofId, 0, cuts)
  {
    hide TxFri;
    var bounds := [0] + cuts + [|sec.layers|];
    var phases: seq<PhasePlan> := [];
    assert cuts[0..] == cuts;
    PrependNil(FriPhases(sec, proofId, 0, cuts));
    for i := 0 to |bounds| - 1
      invariant i <= |cuts| ==> CutsBetween(cuts[i..], bounds[i], |sec.layers|)
      invariant FriPhases(sec, proofId, 0, cuts) ==
                if i <= |cuts| then Prepend(phases, FriPhases(sec, proofId, bounds[i], cuts[i..])) else Ok(phases)
    {
      assert i < |cuts| ==> cuts[i..][0] == bounds[i + 1] && cuts[i..][1..] == cuts[i + 1..];
      var p :- TxFri(sec, bounds[i], bounds[i + 1], proofId);
      if i < |cuts| {
        PrependPrepend(phases, [p], FriPhases(sec, proofId, bounds[i + 1], cuts[i + 1..]));
      }
      phases := phases + [p];
    }
    r := Ok(phases);
  }

  /** The loop that holds every phase against the cap. */
  method CheckCap(phases: seq<PhasePlan>, maxCalldata: nat) returns (r: Result<seq<PhasePlan>>)
    ensures r == if exists i :: 0 <= i < |phases| && phases[i].calldataFelts > maxCalldata then Err("calldata felts; re-plan")
                 else Ok(phases)
  {
    for i := 0 to |phases|
      invariant forall k :: 0 <= k < i ==> phases[k].calldataFelts <= maxCalldata
    {
      if phases[i].calldataFelts > maxCalldata { return Err("calldata felts; re-plan"); }
    }
    r := Ok(phases);
  }

  /** `planPhases` as the source runs it. */
  method MakePlan(sec: ProofSections, proofId: nat, split: seq<int>, maxCalldata: nat)
    returns (r: Result<seq<PhasePlan>>)
    requires Plannable(sec)
    ensures r == PlanPhases(sec, proofId, split, maxCalldata)
  {
    hide TxBegin, TxMerkle, TxAnswers, TxFri, FriPhases;
    var cuts := CutList(split, |sec.layers|);
    var begin :- TxBegin(sec, 0, 1, proofId);
    var merkle :- TxMerkle(sec, 2, 3, proofId);
    var answers :- TxAnswers(sec, proofId);
    var fri :- PushFri(sec, proofId, cuts);
    r := CheckCap([begin, merkle, answers] + fri, maxCalldata);
  }

  // ----- the automatic plan --------------------------------------------------------------------

  function Candidates(): seq<seq<int>> {
    [[2], [1, 3], [1, 2, 4]]
  }

  /** `planPhasesAuto` as the source runs it: the candidates in turn, the last error if none fits. */
  method MakePlanAuto(sec: ProofSections, proofId: nat, split: Option<seq<int>>, maxCalldata: nat)
    returns (r: Result<seq<PhasePlan>>)
    requires Plannable(sec)
    ensures r == PlanPhasesAuto(sec, proofId, split, maxCalldata)
  {
    hide PlanPhases;
    if split.Some? {
      r := MakePlan(sec, proofId, split.value, maxCalldata);
      return;
    }
    r := Err("");
    for i := 0 to |Candidates()|
      invariant forall j :: 0 <= j < i ==> PlanPhases(sec, proofId, Candidates()[j], maxCalldata).Err?
      invariant i > 0 ==> r == PlanPhases(sec, proofId, Candidates()[i - 1], maxCalldata)
    {
      assert i > 0 ==> PlanPhases(sec, proofId, Candidates()[0], maxCalldata).Err?;
      assert i > 1 ==> PlanPhases(sec, proofId, Candidates()[1], maxCalldata).Err?;
      r := MakePlan(sec, proofId, Candidates()[i], maxCalldata);
      if r.Ok? { return; }
    }
    assert PlanPhases(sec, proofId, Candidates()[0], maxCalldata).Err?;
    assert PlanPhases(sec, proofId, Candidates()[1], maxCalldata).Err?;
  }

  /** A plan has one transaction for each cut, and four more. */
  lemma PlanLength(sec: ProofSections, proofId: nat, split: seq<int>, maxCalldata: nat)
    requires Plannable(sec) && PlanPhases(sec, proofId, split, maxCalldata).Ok?
    ensures |PlanPhases(sec, proofId, split, maxCalldata).value| == |CanonicalCuts(split, 0, |sec.layers|)| + 4
  {
    hide TxBegin, TxMerkle, TxAnswers, FriPhases;
    FriPhasesShape(sec, proofId, 0, CanonicalCuts(split, 0, |sec.layers|));
  }

  /** The cuts of the three candidates, whatever the number of layers. */
  lemma CandidateCuts(n: nat)
    ensures CanonicalCuts([2], 0, n) == if n > 2 then [2] else []
    ensures CanonicalCuts([1, 3], 0, n) == if n > 3 then [1, 3] else if n > 1 then [1] else []
    ensures CanonicalCuts([1, 2, 4], 0, n) == if n > 4 then [1, 2, 4] else if n > 2 then [1, 2] else if n > 1 then [1] else []
  {
    hide CanonicalCuts;
    CanonicalIs([2], n, if n > 2 then [2] else []);
    CanonicalIs([1, 3], n, if n > 3 then [1, 3] else if n > 1 then [1] else []);
    ThreeCuts(n);
  }

  lemma ThreeCuts(n: nat)
    ensures CanonicalCuts([1, 2, 4], 0, n) == if n > 4 then [1, 2, 4] else if n > 2 then [1, 2] else if n > 1 then [1] else []
  {
    hide CanonicalCuts;
    CanonicalIs([1, 2, 4], n, if n > 4 then [1, 2, 4] else if n > 2 then [1, 2] else if n > 1 then [1] else []);
  }

  lemma CanonicalIs(split: seq<int>, n: nat, cuts: seq<nat>)
    requires |cuts| <= 3 && CutsBetween(cuts, 0, n) && (forall i :: 0 <= i < |cuts| ==> cuts[i] in split)
    requires forall i :: 0 <= i < |split| && 0 < split[i] < n ==> split[i] in cuts
    ensures CanonicalCuts(split, 0, n) == cuts
  {
    CutsUnique(CanonicalCuts(split, 0, n), cuts, 0, n);
  }

  /**
   * Without an explicit cut there is a plan exactly when one of the three candidates fits the cap,
   * and then no fitting candidate needs fewer transactions. An explicit cut is never replaced.
   */
  lemma AutoTakesFewest(sec: ProofSections, proofId: nat, maxCalldata: nat, i: nat)
    requires Plannable(sec) && i < |Candidates()|
    ensures var auto := PlanPhasesAuto(sec, proofId, None, maxCalldata);
            && (auto.Err? ==> PlanPhases(sec, proofId, Candidates()[i], maxCalldata).Err?)
            && (auto.Ok? ==> exists j :: 0 <= j < |Candidates()| && auto == PlanPhases(sec, proofId, Candidates()[j], maxCalldata))
            && (PlanPhases(sec, proofId, Candidates()[i], maxCalldata).Ok? ==>
                  auto.Ok? && |auto.value| <= |PlanPhases(sec, proofId, Candidates()[i], maxCalldata).value|)
    ensures forall cuts :: PlanPhasesAuto(sec, proofId, Some(cuts), maxCalldata).Ok? ==>
              FriSplitOf(PlanPhasesAuto(sec, proofId, Some(cuts), maxCalldata).value) == Some(CanonicalCuts(cuts, 0, |sec.layers|))
  {
    hide PlanPhases, FriSplitOf, CanonicalCuts;
    CandidateCuts(|sec.layers|);
    forall j | 0 <= j < |Candidates()| && PlanPhases(sec, proofId, Candidates()[j], maxCalldata).Ok?
      ensures |PlanPhases(sec, proofId, Candidates()[j], maxCalldata).value|
           == |CanonicalCuts(Candidates()[j], 0, |sec.layers|)| + 4
    {
      PlanLength(sec, proofId, Candidates()[j], maxCalldata);
    }
    assert Candidates()[0] == [2] && Candidates()[1] == [1, 3] && Candidates()[2] == [1, 2, 4];
    forall cuts | PlanPhasesAuto(sec, proofId, Some(cuts), maxCalldata).Ok?
      ensures FriSplitOf(PlanPhasesAuto(sec, proofId, Some(cuts), maxCalldata).value) == Some(CanonicalCuts(cuts, 0, |sec.layers|))
    {
      SplitOfPlan(sec, proofId, cuts, maxCalldata);
    }
  }
}
