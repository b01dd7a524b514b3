/**
 * The segment planner of client/src/prove/planner.ts, over exact reals: the least-squares model of
 * rows and steps, the proposal drawn from it, the verdict on a probe, and the probe loop that
 * `planNext` of client/src/prove/pipeline.ts runs around it.
 */
module Planner {
  import opened LeastSquares
  import opened Wrappers

  datatype Config = Config(
    maxComponentLogSize: nat, targetUtilisation: real, maxStepsThreaded: nat, maxStepsSingleThread: nat,
    maxIdToBigComponents: nat, minTics: nat, maxTics: nat, initialTics: nat, maxProbes: nat, safety: real,
    maxGrowth: nat, historyLength: nat)
  {
    /** What the constructor checks, and step ceilings one can divide by. */
    predicate Valid() {
      0.0 < targetUtilisation <= 1.0 && maxStepsThreaded > 0 && maxStepsSingleThread > 0
    }

    function RowCeiling(): nat {
      Pow2(maxComponentLogSize)
    }

    function StepCeiling(threads: nat): nat {
      if threads > 1 then maxStepsThreaded else maxStepsSingleThread
    }

    /** Rows a proposal aims at. */
    function RowTarget(): real {
      (RowCeiling() as real) * targetUtilisation
    }
  }

  /** What one probe taught the planner. */
  datatype Observation = Observation(tics: nat, rows: nat, steps: nat, exact: bool)

  /** `resources()` of one executed segment; older artifacts omit the two optional counters. */
  datatype Summary = Summary(
    opcodes: seq<(string, nat)>, builtins: seq<(string, nat)>, auxiliary: Option<seq<(string, nat)>>,
    verifyInstruction: nat, memoryAddressToId: nat, memoryIdToSmall: nat, maxComponent: string,
    maxComponentRows: nat, fitsLeafRegistry: bool, steps: nat, idToBig: Option<nat>)

  datatype Verdict =
    | Accept(utilisation: real, stepUtilisation: real)
    | Shrink(tics: nat, utilisation: real, stepUtilisation: real)
    | Impossible(utilisation: real, stepUtilisation: real)

  // ----- powers of two -------------------------------------------------------------------------

  function Pow2(n: nat): (r: nat)
    ensures r >= 1
  {
    if n == 0 then 1 else 2 * Pow2(n - 1)
  }

  function Log2(n: nat): nat {
    if n <= 1 then 0 else 1 + Log2(n / 2)
  }

  /** Smallest power of two that is at least `n`. */
  function NextPow2(n: nat): nat {
    if n <= 1 then 1 else 2 * NextPow2((n + 1) / 2)
  }

  lemma {:induction false} NextPow2Within(n: nat, k: nat)
    ensures NextPow2(n) <= Pow2(k) <==> n <= Pow2(k)
    ensures n <= NextPow2(n)
  {
    if n > 1 {
      NextPow2Within((n + 1) / 2, if k == 0 then 0 else k - 1);
    }
  }

  lemma {:induction false} Log2Half(n: nat, m: nat)
    requires 2 * m <= n && m >= 1
    ensures 1 + Log2(m) <= Log2(n)
  {
    Log2Grows(m, n / 2);
  }

  lemma {:induction false} Log2Grows(m: nat, n: nat)
    requires m <= n
    ensures Log2(m) <= Log2(n)
  {
    if m > 1 {
      Log2Grows(m / 2, n / 2);
    }
  }

  // ----- the raw row count ---------------------------------------------------------------------

  /** The last count given for `name`. */
  function LastCount(pairs: seq<(string, nat)>, name: string): Option<nat> {
    if pairs == [] then None
    else if pairs[|pairs| - 1].0 == name then Some(pairs[|pairs| - 1].1)
    else LastCount(pairs[..|pairs| - 1], name)
  }

  function Auxiliary(s: Summary): seq<(string, nat)> {
    match s.auxiliary case Some(pairs) => pairs case None => []
  }

  /** Ceiling of (len - 1) / 16, nothing for an empty table. */
  function AddressRows(len: nat): nat {
    ((if len == 0 then 0 else len - 1) + 15) / 16
  }

  /** The count a component is sized by: pinned memory components first, then the later table. */
  function Named(s: Summary, name: string): Option<nat> {
    if name == "memory_id_to_small" then Some(s.memoryIdToSmall)
    else if name == "memory_address_to_id" then Some(AddressRows(s.memoryAddressToId))
    else if name == "verify_instruction" then Some(s.verifyInstruction)
    else if LastCount(Auxiliary(s), name).Some? then LastCount(Auxiliary(s), name)
    else if name != "output_builtin" && LastCount(s.builtins, name).Some? then LastCount(s.builtins, name)
    else LastCount(s.opcodes, name)
  }

  /** One row for every sixteen addresses but the first, the last row part full. */
  lemma AddressRowsExactly(len: nat, rows: nat)
    ensures AddressRows(len) == rows <==> (if len <= 1 then rows == 0 else 16 * rows - 16 < len - 1 <= 16 * rows)
  {
  }

  function AtLeast16(n: nat): nat {
    if n < 16 then 16 else n
  }

  function RawRows(s: Summary): (nat, bool) {
    match Named(s, s.maxComponent)
    case Some(n) => if NextPow2(AtLeast16(n)) == s.maxComponentRows then (n, true) else (s.maxComponentRows, false)
    case None => (s.maxComponentRows, false)
  }

  /** `rawMaxComponentRows`: three tables poured into one map, then the named maximum looked up. */
  method RawMaxComponentRows(s: Summary) returns (rows: nat, exact: bool)
    ensures (rows, exact) == RawRows(s)
  {
    var candidates: map<string, nat> := map[];
    for i := 0 to |s.opcodes|
      invariant forall n: string :: Lookup(candidates, n) == LastCount(s.opcodes[..i], n)
    {
      assert s.opcodes[..i + 1][..i] == s.opcodes[..i];
      candidates := candidates[s.opcodes[i].0 := s.opcodes[i].1];
    }
    assert s.opcodes[..|s.opcodes|] == s.opcodes;
    for i := 0 to |s.builtins|
      invariant forall n: string :: Lookup(candidates, n) ==
                  if n != "output_builtin" && LastCount(s.builtins[..i], n).Some? then LastCount(s.builtins[..i], n)
                  else LastCount(s.opcodes, n)
    {
      assert s.builtins[..i + 1][..i] == s.builtins[..i];
      if s.builtins[i].0 != "output_builtin" {
        candidates := candidates[s.builtins[i].0 := s.builtins[i].1];
      }
    }
    assert s.builtins[..|s.builtins|] == s.builtins;
    var auxiliary := Auxiliary(s);
    for i := 0 to |auxiliary|
      invariant forall n: string :: Lookup(candidates, n) ==
                  if LastCount(auxiliary[..i], n).Some? then LastCount(auxiliary[..i], n)
                  else if n != "output_builtin" && LastCount(s.builtins, n).Some? then LastCount(s.builtins, n)
                  else LastCount(s.opcodes, n)
    {
      assert auxiliary[..i + 1][..i] == auxiliary[..i];
      candidates := candidates[auxiliary[i].0 := auxiliary[i].1];
    }
    assert auxiliary[..|auxiliary|] == auxiliary;
    candidates := candidates["verify_instruction" := s.verifyInstruction];
    candidates := candidates["memory_address_to_id" := AddressRows(s.memoryAddressToId)];
    candidates := candidates["memory_id_to_small" := s.memoryIdToSmall];
    assert Lookup(candidates, s.maxComponent) == Named(s, s.maxComponent);
    if s.maxComponent in candidates && NextPow2(AtLeast16(candidates[s.maxComponent])) == s.maxComponentRows {
      return candidates[s.maxComponent], true;
    }
    return s.maxComponentRows, false;
  }

  function Lookup(m: map<string, nat>, name: string): Option<nat> {
    if name in m then Some(m[name]) else None
  }

  // ----- the proposal --------------------------------------------------------------------------

  datatype Key = Rows | Steps

  function Measured(o: Observation, key: Key): Point {
    Point(o.tics as real, match key case Rows => o.rows as real case Steps => o.steps as real)
  }

  function Points(history: seq<Observation>, key: Key): (ps: seq<Point>)
    ensures |ps| == |history| && forall i :: 0 <= i < |ps| ==> ps[i] == Measured(history[i], key)
  {
    if history == [] then [] else Points(history[..|history| - 1], key) + [Measured(history[|history| - 1], key)]
  }

  function MinReal(a: real, b: real): real {
    if a < b then a else b
  }

  function Min(a: int, b: int): int {
    if a < b then a else b
  }

  function Max(a: int, b: int): int {
    if a > b then a else b
  }

  /** Length at which the line reaches `bound`. */
  function Reach(bound: real, line: Line): real
    requires line.slope > 0.0
  {
    (bound - line.intercept) / line.slope
  }

  /** Length at which the first of the two bounds is reached. */
  function Capacity(config: Config, rows: Line, steps: Line, threads: nat): real
    requires rows.slope > 0.0 && steps.slope > 0.0
  {
    MinReal(Reach(config.RowTarget(), rows), Reach(config.StepCeiling(threads) as real, steps))
  }

  /** The model's own guess, before any cap. */
  function Guess(config: Config, history: seq<Observation>, threads: nat): int {
    var rows, steps := FitLine(Points(history, Rows)), FitLine(Points(history, Steps));
    if rows.None? || steps.None? then config.initialTics
    else
      FitSlopesUp(Points(history, Rows));
      FitSlopesUp(Points(history, Steps));
      Times(Capacity(config, rows.value, steps.value, threads), config.safety).Floor
  }

  function Growth(config: Config, lastAccepted: nat, k: int): int {
    if lastAccepted > 0 then Min(k, lastAccepted * config.maxGrowth) else k
  }

  function Proposal(config: Config, history: seq<Observation>, lastAccepted: nat, available: nat, threads: nat): nat {
    if available == 0 then 0
    else
      var k := Max(Guess(config, history, threads), config.minTics);
      Max(Min(config.minTics, available), Min(Min(Growth(config, lastAccepted, k), config.maxTics), available))
  }

  /** Never past what has been played, nor past a limit or the growth cap unless `minTics` is; never below `minTics` while that has been played. */
  lemma ProposalRange(config: Config, history: seq<Observation>, lastAccepted: nat, available: nat, threads: nat)
    ensures var k := Proposal(config, history, lastAccepted, available, threads);
            && k <= available && (available >= config.minTics ==> k >= config.minTics)
            && (available < config.minTics ==> k == available)
            && (k <= config.maxTics || k <= config.minTics)
            && (lastAccepted > 0 ==> k <= lastAccepted * config.maxGrowth || k <= config.minTics)
  {
    hide Guess;
  }

  lemma ReachBound(k: real, q: real, s: real, bound: real, line: Line)
    requires line.slope > 0.0 && 0.0 < s <= 1.0 && k > 0.0 && k <= Times(q, s) && q <= Reach(bound, line)
    ensures CostAt(line, k) <= bound
  {
    ShrunkBelow(q, s);
    var r := Reach(bound, line);
    ReachIs(bound, line);
    ProductMonotone(line.slope, k, r);
  }

  lemma ShrunkBelow(q: real, s: real)
    requires 0.0 < s <= 1.0 && Times(q, s) > 0.0
    ensures Times(q, s) <= q
  {
    if q <= 0.0 {
      ProductMonotone(s, q, 0.0);
    } else {
      var t := 1.0 - s;
      assert q * t >= 0.0;
      assert q * s == q - q * t;
    }
  }

  lemma TimesOne(q: real)
    ensures q * 1.0 == q
  {
  }

  lemma ReachIs(bound: real, line: Line)
    requires line.slope > 0.0
    ensures CostAt(line, Reach(bound, line)) == bound
  {
  }

  lemma ProductMonotone(m: real, a: real, b: real)
    requires m >= 0.0
    ensures a <= b ==> m * a <= m * b
    ensures a < b && m > 0.0 ==> m * a < m * b
  {
    if a <= b {
      assert m * (b - a) >= 0.0;
    }
    if a < b && m > 0.0 {
      DivPositive(b - a, m);
      ProductPositive(m, b - a);
    }
  }

  /** What the line says a length costs. */
  function CostAt(line: Line, k: real): real {
    line.slope * k + line.intercept
  }

  /** A proposal drawn from the model keeps the modelled rows and steps within their bounds. */
  lemma ProposalKeepsModel(config: Config, history: seq<Observation>, lastAccepted: nat, available: nat, threads: nat,
                           rows: Line, steps: Line)
    requires FitLine(Points(history, Rows)) == Some(rows) && FitLine(Points(history, Steps)) == Some(steps)
    requires 0.0 < config.safety <= 1.0
    requires Proposal(config, history, lastAccepted, available, threads) > config.minTics
    ensures var k := Proposal(config, history, lastAccepted, available, threads) as real;
            && CostAt(rows, k) <= config.RowTarget()
            && CostAt(steps, k) <= config.StepCeiling(threads) as real
  {
    var k := Proposal(config, history, lastAccepted, available, threads);
    FitSlopesUp(Points(history, Rows));
    FitSlopesUp(Points(history, Steps));
    hide FitLine, Reach, Times, CostAt;
    var q := Capacity(config, rows, steps, threads);
    assert k <= Times(q, config.safety).Floor by {
      hide Capacity;
    }
    hide Proposal, Guess;
    ReachBound(k as real, q, config.safety, config.RowTarget(), rows);
    ReachBound(k as real, q, config.safety, config.StepCeiling(threads) as real, steps);
  }

  /** Every observation lies on the two lines. */
  predicate OnLines(history: seq<Observation>, rows: Line, steps: Line) {
    OnLine(Points(history, Rows), rows.slope, rows.intercept) && OnLine(Points(history, Steps), steps.slope, steps.intercept)
  }

  predicate TwoLengthsProbed(history: seq<Observation>) {
    exists i, j :: 0 <= i < j < |history| && history[i].tics != history[j].tics
  }

  lemma TwoPoints(history: seq<Observation>, key: Key)
    requires TwoLengthsProbed(history)
    ensures TwoLengths(Points(history, key))
  {
    var i, j :| 0 <= i < j < |history| && history[i].tics != history[j].tics;
    var ps := Points(history, key);
    assert ps[i].x != ps[j].x;
  }

  /**
   * For a program whose rows and steps are affine in the tics, two probed lengths are enough: the
   * fit is the program's own pair of lines, and a proposal above `minTics` meets both bounds.
   */
  lemma ExactModelProposesSafely(config: Config, history: seq<Observation>, lastAccepted: nat, available: nat, threads: nat,
                                 rows: Line, steps: Line)
    requires OnLines(history, rows, steps) && rows.slope > 0.0 && steps.slope > 0.0 && TwoLengthsProbed(history)
    requires 0.0 < config.safety <= 1.0
    ensures FitLine(Points(history, Rows)) == Some(rows) && FitLine(Points(history, Steps)) == Some(steps)
    ensures var k := Proposal(config, history, lastAccepted, available, threads);
            k > config.minTics ==>
              && CostAt(rows, k as real) <= config.RowTarget()
              && CostAt(steps, k as real) <= config.StepCeiling(threads) as real
  {
    TwoPoints(history, Rows);
    TwoPoints(history, Steps);
    FitRecoversLine(Points(history, Rows), rows.slope, rows.intercept);
    FitRecoversLine(Points(history, Steps), steps.slope, steps.intercept);
    if Proposal(config, history, lastAccepted, available, threads) > config.minTics {
      ProposalKeepsModel(config, history, lastAccepted, available, threads, rows, steps);
    }
  }

  /** Past the safety margin one of the two bounds is crossed: no cap, no shorter proposal than needed. */
  lemma ProposalIsLargest(config: Config, history: seq<Observation>, lastAccepted: nat, available: nat, threads: nat,
                          rows: Line, steps: Line)
    requires FitLine(Points(history, Rows)) == Some(rows) && FitLine(Points(history, Steps)) == Some(steps)
    requires 0.0 < config.safety
    requires var k := Proposal(config, history, lastAccepted, available, threads);
             config.minTics < k < available && k < config.maxTics && (lastAccepted > 0 ==> k < lastAccepted * config.maxGrowth)
    ensures var past := ((Proposal(config, history, lastAccepted, available, threads) + 1) as real) / config.safety;
            || CostAt(rows, past) > config.RowTarget()
            || CostAt(steps, past) > config.StepCeiling(threads) as real
  {
    var k := Proposal(config, history, lastAccepted, available, threads);
    FitSlopesUp(Points(history, Rows));
    FitSlopesUp(Points(history, Steps));
    hide FitLine, Reach, Times, CostAt;
    var q := Capacity(config, rows, steps, threads);
    assert k == Times(q, config.safety).Floor by {
      hide Capacity;
    }
    hide Proposal, Guess;
    PastSafety(k, q, config.safety);
    var past := ((k + 1) as real) / config.safety;
    if q == Reach(config.RowTarget(), rows) {
      PastReach(past, config.RowTarget(), rows);
    } else {
      PastReach(past, config.StepCeiling(threads) as real, steps);
    }
  }

  lemma PastSafety(k: int, q: real, s: real)
    requires s > 0.0 && k == Times(q, s).Floor
    ensures ((k + 1) as real) / s > q
  {
    var past := ((k + 1) as real) / s;
    assert past * s == (k + 1) as real;
    ProductMonotone(s, past, q);
  }

  lemma PastReach(x: real, bound: real, line: Line)
    requires line.slope > 0.0 && x > Reach(bound, line)
    ensures CostAt(line, x) > bound
  {
    ReachIs(bound, line);
    ProductMonotone(line.slope, Reach(bound, line), x);
  }

  // One observation: a line through the origin.

  /** The line through the origin that one observation gives. */
  lemma SingleFit(o: Observation)
    requires o.tics > 0 && o.rows > 0 && o.steps > 0
    ensures FitLine(Points([o], Rows)) == Some(Line(o.rows as real / o.tics as real, 0.0))
    ensures FitLine(Points([o], Steps)) == Some(Line(o.steps as real / o.tics as real, 0.0))
  {
    assert Points([o], Rows) == [Measured(o, Rows)];
    assert Points([o], Steps) == [Measured(o, Steps)];
  }

  /** An increasing affine cost without a negative fixed part, measured as `y` at length `x`. */
  predicate Measures(program: Line, x: real, y: real) {
    program.slope > 0.0 && program.intercept >= 0.0 && CostAt(program, x) == y
  }

  /** Every such program stays within `bound` at length `k`. */
  ghost predicate AllProgramsFit(x: real, y: real, k: real, bound: real) {
    forall program: Line :: Measures(program, x, y) ==> CostAt(program, k) <= bound
  }

  lemma OriginBound(x: real, y: real, k: real, bound: real)
    requires x > 0.0 && y > 0.0 && k > 0.0 && CostAt(Line(y / x, 0.0), k) <= bound
    ensures AllProgramsFit(x, y, k, bound) <==> y <= bound
  {
    if y <= bound {
      forall program: Line | Measures(program, x, y) ensures CostAt(program, k) <= bound {
        if k <= x {
          ProductMonotone(program.slope, k, x);
        } else {
          FixedCostShare(program, x, y, k);
        }
      }
    } else {
      OriginSlope(x, y);
      ProductMonotone(y / x, x, k);
      SmallSlope(x, y, k, bound);
    }
  }

  lemma OriginSlope(x: real, y: real)
    requires x > 0.0 && y > 0.0
    ensures y / x > 0.0 && (y / x) * x == y
  {
    DivPositive(y, x);
  }

  /** Beyond the measured length the origin line overstates an affine cost. */
  lemma FixedCostShare(program: Line, x: real, y: real, k: real)
    requires x > 0.0 && y > 0.0 && Measures(program, x, y) && k > x
    ensures CostAt(program, k) <= CostAt(Line(y / x, 0.0), k)
  {
    var m, c, slope := program.slope, program.intercept, y / x;
    OriginSlope(x, y);
    var d := slope - m;
    assert d * x == c;
    assert d >= 0.0 by {
      if d < 0.0 {
        ProductPositive(-d, x);
      }
    }
    ProductMonotone(d, x, k);
    assert slope * k == m * k + d * k;
  }

  /** A program with nearly all of its cost fixed breaks the bound at every shorter length. */
  lemma SmallSlope(x: real, y: real, k: real, bound: real)
    requires 0.0 < k < x && y > bound && y > 0.0
    ensures !AllProgramsFit(x, y, k, bound)
  {
    var gap := if y - bound < y then y - bound else y;
    var m := gap / (2.0 * x);
    DivPositive(gap, 2.0 * x);
    assert m * x == gap / 2.0;
    var program := Line(m, y - gap / 2.0);
    assert Measures(program, x, y);
    ProductMonotone(m, 0.0, k);
    assert CostAt(program, k) > bound;
  }

  /**
   * After one observation a proposal above `minTics` is within the row target for every affine
   * program through that observation exactly when the observation itself was, and likewise for steps.
   */
  lemma SingleObservationExactly(config: Config, o: Observation, lastAccepted: nat, available: nat, threads: nat)
    requires o.tics > 0 && o.rows > 0 && o.steps > 0 && 0.0 < config.safety <= 1.0
    requires Proposal(config, [o], lastAccepted, available, threads) > config.minTics
    ensures var k := Proposal(config, [o], lastAccepted, available, threads) as real;
            && (AllProgramsFit(o.tics as real, o.rows as real, k, config.RowTarget()) <==> o.rows as real <= config.RowTarget())
            && (AllProgramsFit(o.tics as real, o.steps as real, k, config.StepCeiling(threads) as real)
                <==> o.steps <= config.StepCeiling(threads))
  {
    var k := Proposal(config, [o], lastAccepted, available, threads) as real;
    SingleFit(o);
    var x, rows, steps := o.tics as real, o.rows as real, o.steps as real;
    ProposalKeepsModel(config, [o], lastAccepted, available, threads, Line(rows / x, 0.0), Line(steps / x, 0.0));
    hide AllProgramsFit, FitLine, Proposal;
    OriginBound(x, rows, k, config.RowTarget());
    OriginBound(x, steps, k, config.StepCeiling(threads) as real);
  }

  /**
   * Otherwise a proposal may stay over: after one probe of 10 tics and 100 rows, with room for 64,
   * six tics are proposed, and a program of 90 rows and one more a tic needs 96 for them.
   */
  lemma SingleObservationCanStayOver()
    ensures var config := Config(6, 1.0, 1000, 1000, 16, 1, 1000, 1, 4, 1.0, 4, 8);
            var o, program := Observation(10, 100, 10, true), Line(1.0, 90.0);
            && config.RowTarget() == 64.0 && Proposal(config, [o], 0, 1000, 1) == 6
            && Measures(program, 10.0, 100.0) && CostAt(program, 6.0) == 96.0
  {
    var config := Config(6, 1.0, 1000, 1000, 16, 1, 1000, 1, 4, 1.0, 4, 8);
    var o := Observation(10, 100, 10, true);
    SingleFit(o);
    assert Pow2(6) == 2 * Pow2(5) && Pow2(5) == 2 * Pow2(4) && Pow2(4) == 2 * Pow2(3) && Pow2(3) == 2 * Pow2(2)
           && Pow2(2) == 2 * Pow2(1) && Pow2(1) == 2 * Pow2(0);
    hide FitLine, Pow2, Points;
    assert Reach(64.0, Line(10.0, 0.0)) == 64.0 / 10.0;
    assert Reach(1000.0, Line(1.0, 0.0)) == 1000.0;
    assert Times(64.0 / 10.0, 1.0) == 64.0 / 10.0;
    assert (64.0 / 10.0).Floor == 6;
  }

  // ----- the verdict ---------------------------------------------------------------------------

  function IdToBig(s: Summary): nat {
    match s.idToBig case Some(n) => n case None => 1
  }

  function Utilisation(config: Config, s: Summary): real {
    (RawRows(s).0 as real) / (config.RowCeiling() as real)
  }

  function StepUtilisation(config: Config, s: Summary, threads: nat): real
    requires config.Valid()
  {
    (s.steps as real) / (config.StepCeiling(threads) as real)
  }

  /** The four conditions under which a probe is approved. */
  predicate Approved(config: Config, s: Summary, threads: nat)
    requires config.Valid()
  {
    && s.fitsLeafRegistry
    && Utilisation(config, s) <= config.targetUtilisation
    && StepUtilisation(config, s, threads) <= 1.0
    && IdToBig(s) <= config.maxIdToBigComponents
  }

  /** How much the length has to shrink by the worst of the broken conditions. */
  function Factor(config: Config, s: Summary, threads: nat): real
    requires config.Valid()
  {
    var target, used, steps := config.targetUtilisation, Utilisation(config, s), StepUtilisation(config, s, threads);
    var f0 := if s.fitsLeafRegistry then 1.0 else MinReal(1.0, target / MaxReal(used, target * 1.25));
    var f1 := if used > target then MinReal(f0, target / used) else f0;
    var f2 := if steps > 1.0 then MinReal(f1, 1.0 / steps) else f1;
    if IdToBig(s) > config.maxIdToBigComponents
    then MinReal(f2, (config.maxIdToBigComponents as real) / (IdToBig(s) as real)) else f2
  }

  function MaxReal(a: real, b: real): real {
    if a > b then a else b
  }

  /** The next length to try after a rejected probe of `tics`. */
  function Shrunk(config: Config, tics: nat, factor: real): int {
    var next := Times(Times(tics as real, factor), config.safety).Floor;
    var below := if next >= tics then tics / 2 else next;
    Max(config.minTics, Min(below, tics - 1))
  }

  function Judgement(config: Config, tics: nat, s: Summary, threads: nat): (v: Verdict)
    requires config.Valid()
    ensures v.Accept? <==> s.auxiliary.Some? && Approved(config, s, threads)
    ensures v.Shrink? ==> config.minTics <= v.tics < tics
    ensures v.Impossible? <==> s.auxiliary.None? || (!Approved(config, s, threads) && tics <= config.minTics)
  {
    var used, steps := Utilisation(config, s), StepUtilisation(config, s, threads);
    if s.auxiliary.None? then Impossible((s.maxComponentRows as real) / (config.RowCeiling() as real), steps)
    else if Approved(config, s, threads) then Accept(used, steps)
    else if tics <= config.minTics then Impossible(used, steps)
    else Shrink(Shrunk(config, tics, Factor(config, s, threads)), used, steps)
  }

  /** Exact counts are rounded up to the reported height; anything else is the reported height. */
  lemma RawRowsAgree(s: Summary)
    ensures var (rows, exact) := RawRows(s);
            && rows <= s.maxComponentRows && (!exact ==> rows == s.maxComponentRows)
            && (exact ==> NextPow2(AtLeast16(rows)) == s.maxComponentRows)
  {
    var (rows, exact) := RawRows(s);
    NextPow2Within(AtLeast16(rows), 0);
  }

  /**
   * An accepted probe keeps its steps and raw rows within bounds, and the padded height the prover
   * reports within the registry's exactly when the ceiling is at least sixteen rows or the count
   * came from the report itself.
   */
  lemma AcceptedIsWithinRegistry(config: Config, tics: nat, s: Summary, threads: nat)
    requires config.Valid() && Judgement(config, tics, s, threads).Accept?
    ensures RawRows(s).0 as real <= config.RowTarget()
    ensures threads > 1 ==> s.steps <= config.maxStepsThreaded
    ensures threads <= 1 ==> s.steps <= config.maxStepsSingleThread
    ensures s.maxComponentRows <= Pow2(config.maxComponentLogSize) <==> config.maxComponentLogSize >= 4 || !RawRows(s).1
  {
    hide Judgement, RawRows, Pow2;
    ApprovedBounds(config, s, threads);
    RawRowsAgree(s);
    NextPow2Within(AtLeast16(RawRows(s).0), config.maxComponentLogSize);
    SixteenIsPow2(config.maxComponentLogSize);
  }

  lemma ApprovedBounds(config: Config, s: Summary, threads: nat)
    requires config.Valid() && Approved(config, s, threads)
    ensures s.steps <= config.StepCeiling(threads)
    ensures RawRows(s).0 as real <= config.RowTarget() && RawRows(s).0 <= config.RowCeiling()
  {
    hide RawRows;
    WithinShare(RawRows(s).0 as real, config.RowCeiling() as real, config.targetUtilisation);
    WithinShare(s.steps as real, config.StepCeiling(threads) as real, 1.0);
  }

  lemma WithinShare(a: real, b: real, share: real)
    requires b > 0.0 && a / b <= share <= 1.0
    ensures a <= b * share && a <= b
  {
    assert a / b * b == a;
    ProductMonotone(b, a / b, share);
    ProductMonotone(b, share, 1.0);
    TimesOne(b);
  }

  lemma {:induction false} SixteenIsPow2(k: nat)
    ensures Pow2(k) >= 16 <==> k >= 4
  {
    assert Pow2(4) == 2 * Pow2(3) && Pow2(3) == 2 * Pow2(2) && Pow2(2) == 2 * Pow2(1) && Pow2(1) == 2 * Pow2(0);
    if k < 4 {
      Pow2Grows(k, 3);
    } else {
      Pow2Grows(4, k);
    }
  }

  lemma {:induction false} Pow2Grows(a: nat, b: nat)
    requires a <= b
    ensures Pow2(a) <= Pow2(b)
  {
    if a < b {
      Pow2Grows(a, b - 1);
    }
  }

  /** With a ceiling of eight rows an accepted probe may be reported at sixteen. */
  lemma AcceptedOverSmallRegistry()
    ensures var config := Config(3, 1.0, 1, 1, 16, 1, 1, 1, 1, 1.0, 1, 1);
            var s := Summary([], [], Some([]), 8, 0, 0, "verify_instruction", 16, true, 1, None);
            Judgement(config, 1, s, 1).Accept? && s.maxComponentRows > Pow2(config.maxComponentLogSize)
  {
    var config := Config(3, 1.0, 1, 1, 16, 1, 1, 1, 1, 1.0, 1, 1);
    assert Pow2(3) == 2 * Pow2(2) && Pow2(2) == 2 * Pow2(1) && Pow2(1) == 2 * Pow2(0);
    assert NextPow2(16) == 2 * NextPow2(8) && NextPow2(8) == 2 * NextPow2(4) && NextPow2(4) == 2 * NextPow2(2) && NextPow2(2) == 2 * NextPow2(1);
  }

  /** The factor is below one after a rejection and undoes each broken ratio. */
  lemma FactorBounds(config: Config, s: Summary, threads: nat)
    requires config.Valid()
    ensures var f, used, steps := Factor(config, s, threads), Utilisation(config, s), StepUtilisation(config, s, threads);
            && f <= 1.0 && (!Approved(config, s, threads) ==> f < 1.0)
            && (used > config.targetUtilisation ==> f <= config.targetUtilisation / used)
            && (steps > 1.0 ==> f <= 1.0 / steps)
  {
    hide Utilisation, StepUtilisation;
    var target, used, steps := config.targetUtilisation, Utilisation(config, s), StepUtilisation(config, s, threads);
    var wide := MaxReal(used, target * 1.25);
    RatioBelowOne(target, wide);
    if used > target { RatioBelowOne(target, used); }
    if steps > 1.0 { RatioBelowOne(1.0, steps); }
    if IdToBig(s) > config.maxIdToBigComponents {
      RatioBelowOne(config.maxIdToBigComponents as real, IdToBig(s) as real);
    }
  }

  lemma RatioBelowOne(a: real, b: real)
    requires 0.0 <= a < b
    ensures a / b < 1.0
  {
    assert a / b * b == a;
  }

  /** A cost that is over its share at `tics` and shrinks in proportion is within it at `next`. */
  lemma LandsInside(used: real, share: real, f: real, tics: real, next: real)
    requires used >= 0.0 && share > 0.0 && 0.0 <= next <= Times(tics, f) && next <= tics
    requires used > share ==> f <= share / used
    ensures Times(used, next) <= Times(share, tics)
  {
    if used <= share {
      assert used * next <= share * next <= share * tics;
    } else {
      assert share / used * used == share;
      ProductMonotone(tics, f, share / used);
      ProductMonotone(used, next, tics * (share / used));
      assert used * (tics * (share / used)) == tics * (share / used * used);
    }
  }

  /**
   * A rejected length above `minTics` is cut far enough, in one step, for any program whose rows and
   * steps grow in proportion to its tics; the blind halving is never needed with a margin up to one.
   */
  lemma ShrinkLandsInside(config: Config, tics: nat, s: Summary, threads: nat)
    requires config.Valid() && 0.0 < config.safety <= 1.0
    requires var v := Judgement(config, tics, s, threads); v.Shrink? && v.tics > config.minTics
    ensures var next := Judgement(config, tics, s, threads).tics as real;
            && Times(Utilisation(config, s), next) <= Times(config.targetUtilisation, tics as real)
            && Times(StepUtilisation(config, s, threads), next) <= Times(1.0, tics as real)
  {
    var f := Factor(config, s, threads);
    FactorBounds(config, s, threads);
    UtilisationSigns(config, s, threads);
    hide Utilisation, StepUtilisation, Factor, Approved, Times, Shrunk;
    var next := Shrunk(config, tics, f);
    ShrunkBelowFactor(config, tics, f);
    LandsInside(Utilisation(config, s), config.targetUtilisation, f, tics as real, next as real);
    LandsInside(StepUtilisation(config, s, threads), 1.0, f, tics as real, next as real);
  }

  lemma ShrunkBelowFactor(config: Config, tics: nat, f: real)
    requires f < 1.0 && 0.0 < config.safety <= 1.0 && tics > 0 && Shrunk(config, tics, f) > config.minTics
    ensures Shrunk(config, tics, f) <= tics && Shrunk(config, tics, f) as real <= Times(tics as real, f)
  {
    ScaledBelow(tics, f, config.safety);
    hide Times;
  }

  lemma UtilisationSigns(config: Config, s: Summary, threads: nat)
    requires config.Valid()
    ensures Utilisation(config, s) >= 0.0 && StepUtilisation(config, s, threads) >= 0.0
  {
    RatioSign(RawRows(s).0 as real, config.RowCeiling() as real);
    RatioSign(s.steps as real, config.StepCeiling(threads) as real);
  }

  lemma RatioSign(a: real, b: real)
    requires a >= 0.0 && b > 0.0
    ensures a / b >= 0.0
  {
  }

  lemma ScaledBelow(tics: nat, f: real, safety: real)
    requires f < 1.0 && 0.0 < safety <= 1.0 && tics > 0
    ensures var scaled := Times(Times(tics as real, f), safety);
            scaled.Floor < tics && (scaled.Floor >= 0 ==> scaled.Floor as real <= Times(tics as real, f))
  {
    var product := Times(tics as real, f);
    ProductMonotone(tics as real, f, 1.0);
    TimesOne(tics as real);
    assert product < tics as real;
    hide Times;
    if Times(product, safety) > 0.0 {
      ShrunkBelow(product, safety);
    } else if product < 0.0 {
      ProductMonotone(safety, product, 0.0);
    }
  }

  // ----- the planner ---------------------------------------------------------------------------

  /** The newest `n` observations. */
  function Newest(history: seq<Observation>, n: nat): seq<Observation> {
    if |history| > n then history[|history| - n..] else history
  }

  class SegmentPlanner {
    const config: Config
    var history: seq<Observation>
    var lastAccepted: nat

    constructor (config: Config)
      ensures this.config == config && history == [] && lastAccepted == 0
    {
      this.config := config;
      history := [];
      lastAccepted := 0;
    }

    method Propose(available: nat, threads: nat) returns (k: nat)
      ensures k == Proposal(config, history, lastAccepted, available, threads)
    {
      hide Guess;
      if available == 0 { return 0; }
      var guess := ModelGuess(threads);
      if guess < config.minTics { guess := config.minTics; }
      if lastAccepted > 0 { guess := Min(guess, lastAccepted * config.maxGrowth); }
      guess := Min(Min(guess, config.maxTics), available);
      k := Max(Min(config.minTics, available), guess);
    }

    /** The two fits of `propose` and the length they allow. */
    method ModelGuess(threads: nat) returns (guess: int)
      ensures guess == Guess(config, history, threads)
    {
      hide FitLine, Points, Times;
      var rowsFit := Fit(Points(history, Rows));
      var stepsFit := Fit(Points(history, Steps));
      if rowsFit.None? || stepsFit.None? { return config.initialTics; }
      FitSlopesUp(Points(history, Rows));
      FitSlopesUp(Points(history, Steps));
      var kRows := (config.RowTarget() - rowsFit.value.intercept) / rowsFit.value.slope;
      var kSteps := (config.StepCeiling(threads) as real - stepsFit.value.intercept) / stepsFit.value.slope;
      return Times(MinReal(kRows, kSteps), config.safety).Floor;
    }

    method Remember(o: Observation)
      modifies this`history
      ensures history == Newest(old(history) + [o], config.historyLength)
    {
      history := history + [o];
      ghost var all := history;
      while |history| > config.historyLength
        invariant |history| <= |all| && history == all[|all| - |history|..]
        invariant |all| > config.historyLength ==> |history| >= config.historyLength
        invariant |all| <= config.historyLength ==> history == all
      {
        history := history[1..];
      }
    }

    /** `judge`: every complete summary is remembered, and an approval becomes the last accepted length. */
    method Judge(tics: nat, s: Summary, threads: nat) returns (v: Verdict)
      requires config.Valid()
      modifies this
      ensures v == Judgement(config, tics, s, threads)
      ensures s.auxiliary.None? ==> history == old(history)
      ensures s.auxiliary.Some? ==>
                history == Newest(old(history) + [Observation(tics, RawRows(s).0, s.steps, RawRows(s).1)], config.historyLength)
      ensures lastAccepted == if v.Accept? then tics else old(lastAccepted)
    {
      hide Utilisation, StepUtilisation, RawRows, Factor, Approved, Newest;
      if s.auxiliary.None? {
        return Impossible((s.maxComponentRows as real) / (config.RowCeiling() as real), StepUtilisation(config, s, threads));
      }
      var rows, exact := RawMaxComponentRows(s);
      Remember(Observation(tics, rows, s.steps, exact));
      var utilisation, stepUtilisation := Utilisation(config, s), StepUtilisation(config, s, threads);
      var reasons, factor := Weigh(s, threads, utilisation, stepUtilisation);
      if reasons == 0 {
        lastAccepted := tics;
        return Accept(utilisation, stepUtilisation);
      }
      if tics <= config.minTics { return Impossible(utilisation, stepUtilisation); }
      hide Times;
      var next := Times(Times(tics as real, factor), config.safety).Floor;
      if next >= tics { next := tics / 2; }
      next := Max(config.minTics, Min(next, tics - 1));
      return Shrink(next, utilisation, stepUtilisation);
    }

    /** The four checks: how many failed, and by what factor the length has to shrink. */
    method Weigh(s: Summary, threads: nat, utilisation: real, stepUtilisation: real) returns (reasons: nat, factor: real)
      requires config.Valid() && utilisation == Utilisation(config, s) && stepUtilisation == StepUtilisation(config, s, threads)
      ensures factor == Factor(config, s, threads) && (reasons == 0 <==> Approved(config, s, threads))
    {
      hide Utilisation, StepUtilisation;
      var target := config.targetUtilisation;
      reasons, factor := 0, 1.0;
      if !s.fitsLeafRegistry {
        reasons := reasons + 1;
        factor := MinReal(factor, target / MaxReal(utilisation, target * 1.25));
      }
      if utilisation > target {
        reasons := reasons + 1;
        factor := MinReal(factor, target / utilisation);
      }
      if stepUtilisation > 1.0 {
        reasons := reasons + 1;
        factor := MinReal(factor, 1.0 / stepUtilisation);
      }
      if IdToBig(s) > config.maxIdToBigComponents {
        reasons := reasons + 1;
        factor := MinReal(factor, (config.maxIdToBigComponents as real) / (IdToBig(s) as real));
      }
    }

    method Reset()
      modifies this
      ensures history == [] && lastAccepted == 0
    {
      history := [];
      lastAccepted := 0;
    }
  }

  /** The constructor's check of its configuration. */
  method MakePlanner(config: Config) returns (r: Result<SegmentPlanner>)
    ensures r.Err? <==> config.targetUtilisation <= 0.0 || config.targetUtilisation > 1.0
    ensures r.Ok? ==> r.value.config == config && r.value.history == [] && r.value.lastAccepted == 0
  {
    if config.targetUtilisation <= 0.0 || config.targetUtilisation > 1.0 {
      return Err("targetUtilisation must be in (0, 1]");
    }
    var planner := new SegmentPlanner(config);
    return Ok(planner);
  }

  // ----- the probe loop ------------------------------------------------------------------------

  const MAX_SAFE_INTEGER := 9007199254740991

  /** No cut yet, a cut of so many tics, or the error that no length fits. */
  datatype Cut = Later | Planned(tics: nat) | NothingFits

  predicate StrictlyFalling(s: seq<nat>) {
    forall i, j :: 0 <= i < j < |s| ==> s[j] < s[i]
  }

  /** The candidates so far fall strictly, and the next one is below them all. */
  predicate FallingTo(s: seq<nat>, candidate: nat) {
    StrictlyFalling(s) && forall i :: 0 <= i < |s| ==> candidate < s[i]
  }

  lemma FallsOn(s: seq<nat>, candidate: nat, next: nat)
    requires FallingTo(s, candidate)
    ensures StrictlyFalling(s + [candidate]) && (next < candidate ==> FallingTo(s + [candidate], next))
  {
  }

  /** Most probes `planNext` can spend on a first candidate. */
  function ProbeBound(config: Config, first: nat): nat {
    Max(1, config.maxProbes) + Log2(first) + if config.minTics == 0 then 1 else 0
  }

  /** Where the loop stands after `probes` rejections: few probes, or a candidate halved often enough. */
  predicate OnSchedule(config: Config, first: nat, candidate: nat, probes: nat) {
    var patience := Max(1, config.maxProbes);
    candidate <= first &&
    if probes < patience then true
    else if candidate > config.minTics then probes - patience + 1 + Log2(candidate) <= Log2(first)
    else probes + 1 <= ProbeBound(config, first)
  }

  /** One rejection keeps the schedule. */
  lemma ScheduleKept(config: Config, first: nat, candidate: nat, probes: nat, next: nat)
    requires OnSchedule(config, first, candidate, probes) && config.minTics <= next < candidate
    ensures var after := if probes + 1 >= config.maxProbes then Max(config.minTics, next / 2) else next;
            OnSchedule(config, first, after, probes + 1) && after < candidate
  {
    var patience := Max(1, config.maxProbes);
    Log2Grows(candidate, first);
    if probes + 1 >= config.maxProbes {
      var half := next / 2;
      if half >= 1 {
        Log2Half(candidate, half);
      }
      if candidate >= 2 {
        Log2Positive(candidate);
      }
    } else if probes + 1 >= patience {
      assert false;
    }
  }

  lemma Log2Positive(n: nat)
    requires n >= 2
    ensures Log2(n) >= 1
  {
  }

  /**
   * The loop of `planNext`, `resources` being what the prover reports for a length. Candidates
   * strictly fall, all but the last were rejected, and a planned length was approved.
   */
  method Probe(planner: SegmentPlanner, first: nat, threads: nat, resources: nat -> Summary)
    returns (r: Cut, tried: seq<nat>)
    requires planner.config.Valid() && first > 0
    modifies planner
    ensures tried != [] && tried[0] == first && |tried| <= ProbeBound(planner.config, first) && StrictlyFalling(tried)
    ensures forall i :: 0 <= i < |tried| - 1 ==> Judgement(planner.config, tried[i], resources(tried[i]), threads).Shrink?
    ensures var last := tried[|tried| - 1];
            match r
            case Later => false
            case Planned(tics) => tics == last == planner.lastAccepted
                                  && Judgement(planner.config, last, resources(last), threads).Accept?
            case NothingFits => Judgement(planner.config, last, resources(last), threads).Impossible?
  {
    hide Judgement, Newest, RawRows, FallingTo, StrictlyFalling, OnSchedule, ProbeBound;
    tried := [];
    var candidate: nat, probes: nat := first, 0;
    ProbesStart(planner.config, first);
    while true
      invariant |tried| == probes && OnSchedule(planner.config, first, candidate, probes)
      invariant (tried + [candidate])[0] == first && FallingTo(tried, candidate)
      invariant forall i :: 0 <= i < probes ==> Judgement(planner.config, tried[i], resources(tried[i]), threads).Shrink?
      decreases candidate
    {
      ScheduleBound(planner.config, first, candidate, probes);
      ghost var before := tried;
      FallsOn(before, candidate, candidate);
      probes := probes + 1;
      var verdict := planner.Judge(candidate, resources(candidate), threads);
      tried := tried + [candidate];
      if verdict.Accept? { return Planned(candidate), tried; }
      if verdict.Impossible? { return NothingFits, tried; }
      ScheduleKept(planner.config, first, candidate, probes - 1, verdict.tics);
      ghost var last := candidate;
      candidate := verdict.tics;
      if probes >= planner.config.maxProbes {
        candidate := Max(planner.config.minTics, candidate / 2);
      }
      FallsOn(before, last, candidate);
    }
  }

  lemma ProbesStart(config: Config, first: nat)
    ensures OnSchedule(config, first, first, 0) && FallingTo([], first)
  {
  }

  /** The extra probe of a planner with `minTics` 0 is spent: one tic is rejected, and then none at all. */
  method ProbeOfNothing() returns (r: Cut, tried: seq<nat>)
    ensures r.NothingFits? && tried == [1, 0] && |tried| > Max(1, 1) + Log2(1)
  {
    var config := Config(4, 1.0, 1, 1, 16, 0, 1, 1, 1, 1.0, 1, 1);
    var heavy := Summary([], [], Some([]), 0, 0, 0, "", 16, true, 2, None);
    var planner := new SegmentPlanner(config);
    assert !Approved(config, heavy, 1);
    r, tried := Probe(planner, 1, 1, _ => heavy);
  }

  /** `planNext` up to the accepted length: nothing yet while a longer segment may still be played. */
  method PlanNext(planner: SegmentPlanner, available: nat, flushing: bool, threads: nat, resources: nat -> Summary)
    returns (r: Cut, tried: seq<nat>)
    requires planner.config.Valid()
    modifies planner
    ensures var wanted := old(Proposal(planner.config, planner.history, planner.lastAccepted, MAX_SAFE_INTEGER, threads));
            && (r.Later? <==> available == 0 || wanted == 0 || (!flushing && available < wanted))
            && (!r.Later? ==> tried != [] && tried[0] == Min(wanted, available) && |tried| <= ProbeBound(planner.config, tried[0]))
    ensures StrictlyFalling(tried)
    ensures r.Planned? ==> tried != [] && r.tics == tried[|tried| - 1] == planner.lastAccepted
                           && Judgement(planner.config, r.tics, resources(r.tics), threads).Accept?
    ensures r.NothingFits? ==> tried != [] && var last := tried[|tried| - 1];
                               Judgement(planner.config, last, resources(last), threads).Impossible?
  {
    hide Judgement, Proposal, ProbeBound;
    if available == 0 { return Later, []; }
    var wanted := planner.Propose(MAX_SAFE_INTEGER, threads);
    var candidate: nat := Min(wanted, available);
    if candidate == 0 { return Later, []; }
    if !flushing && candidate < wanted { return Later, []; }
    r, tried := Probe(planner, candidate, threads, resources);
  }

  lemma ScheduleBound(config: Config, first: nat, candidate: nat, probes: nat)
    requires OnSchedule(config, first, candidate, probes)
    ensures probes + 1 <= ProbeBound(config, first)
  {
  }
}
