/**
 * `simulateSequence` of client/src/chain/estimate.ts against `runSequence` of
 * client/src/chain/sequence.ts: on a deterministic ledger that has not moved, the array the
 * estimate simulates last is the array the run then sends.
 *
 * The ledger is a parameter: `exec` takes a ledger and a call to the next ledger and the
 * checkpoint state read back from the trace (`None` when there is none to read).
 */
module Estimate {
  import opened Calldata
  import opened Sequences
  import opened Wrappers

  datatype Call = RouterCall(entrypoint: Entrypoint, calldata: seq<nat>) | ConsumerCall(payload: seq<nat>)

  type Echo = Option<seq<nat>>

  /** What both functions are given: the phases, the consumer call, `verifierOnly`. */
  datatype Plan = Plan(phases: seq<PhasePlan>, consumer: Call, verifierOnly: bool)

  function RouterCallOf(plan: Plan, i: nat, echo: Echo): Result<Call>
    requires i < |plan.phases|
  {
    var calldata :- PhaseCalldata(plan.phases[i], echo);
    Ok(RouterCall(plan.phases[i].entrypoint, calldata))
  }

  // ----- the run -------------------------------------------------------------------------------

  /** The calls `runSequence` sends from phase `i` on, the echo of each being what the previous one returned. */
  function RunSends<L>(exec: (L, Call) -> (L, Echo), plan: Plan, ledger: L, i: nat, echo: Echo): Result<seq<Call>>
    requires i <= |plan.phases|
    decreases |plan.phases| - i
  {
    if i == |plan.phases| then Ok(if plan.verifierOnly then [] else [plan.consumer])
    else
      var call :- RouterCallOf(plan, i, echo);
      var (ledger', echo') := exec(ledger, call);
      var rest :- RunSends(exec, plan, ledger', i + 1, echo');
      Ok([call] + rest)
  }

  /** The echo the run holds when it reaches phase `j`; `None` also when it stopped before. */
  function RunEcho<L>(exec: (L, Call) -> (L, Echo), plan: Plan, ledger: L, i: nat, echo: Echo, j: nat): Echo
    requires i <= j < |plan.phases|
    decreases j - i
  {
    if i == j then echo
    else
      match RouterCallOf(plan, i, echo)
      case Err(_) => None
      case Ok(call) =>
        var (ledger', echo') := exec(ledger, call);
        RunEcho(exec, plan, ledger', i + 1, echo', j)
  }

  // ----- the simulation ------------------------------------------------------------------------

  /** A simulated array is applied in order; the result is what each transaction returned. */
  function SimulateArray<L>(exec: (L, Call) -> (L, Echo), ledger: L, calls: seq<Call>): (echoes: seq<Echo>)
    ensures |echoes| == |calls|
  {
    if calls == [] then []
    else
      var (ledger', echo) := exec(ledger, calls[0]);
      [echo] + SimulateArray(exec, ledger', calls[1..])
  }

  function CallAt(plan: Plan, echoes: seq<Echo>, i: nat): Result<Call>
    requires i <= |plan.phases| <= |echoes|
  {
    if i < |plan.phases| then RouterCallOf(plan, i, echoes[i]) else Ok(plan.consumer)
  }

  /** The calls `from .. upto` (exclusive) built from the echoes known so far. */
  function PrefixCalls(plan: Plan, echoes: seq<Echo>, from: nat, upto: nat): Result<seq<Call>>
    requires from <= upto <= |plan.phases| + 1 && |plan.phases| <= |echoes|
    decreases upto - from
  {
    if from == upto then Ok([])
    else
      var call :- CallAt(plan, echoes, from);
      var rest :- PrefixCalls(plan, echoes, from + 1, upto);
      Ok([call] + rest)
  }

  /** One past the last step simulated. */
  function StepCount(plan: Plan): nat {
    |plan.phases| + if plan.verifierOnly then 0 else 1
  }

  /** Echoes the caller already has, past the first one used, are the ones the run will see. */
  ghost predicate KnownEchoes<L(!new)>(exec: (L, Call) -> (L, Echo), plan: Plan, ledger: L, from: nat, known: seq<Echo>)
    requires from <= |plan.phases|
  {
    forall j :: from < j < |plan.phases| && j < |known| && known[j].Some? ==>
      known[j] == RunEcho(exec, plan, ledger, from, FirstEcho(known, from), j)
  }

  function FirstEcho(known: seq<Echo>, from: nat): Echo {
    if from < |known| then known[from] else None
  }

  /** The echoes agree with the run at every phase in `[from, upto)`. */
  ghost predicate Agree<L(!new)>(exec: (L, Call) -> (L, Echo), plan: Plan, ledger: L, from: nat, echo: Echo,
                                 echoes: seq<Echo>, upto: nat)
    requires from <= upto <= |plan.phases| <= |echoes|
  {
    forall j :: from <= j < upto ==> echoes[j] == RunEcho(exec, plan, ledger, from, echo, j)
  }

  /** The first calls of the run. */
  function RunCalls<L>(exec: (L, Call) -> (L, Echo), plan: Plan, ledger: L, i: nat, echo: Echo, upto: nat): Result<seq<Call>>
    requires i <= upto <= |plan.phases|
    decreases upto - i
  {
    if i == upto then Ok([])
    else
      var call :- RouterCallOf(plan, i, echo);
      var (ledger', echo') := exec(ledger, call);
      var rest :- RunCalls(exec, plan, ledger', i + 1, echo', upto);
      Ok([call] + rest)
  }

  lemma AgreeStep<L(!new)>(exec: (L, Call) -> (L, Echo), plan: Plan, ledger: L, from: nat, echo: Echo,
                           echoes: seq<Echo>, upto: nat, call: Call)
    requires from < upto <= |plan.phases| <= |echoes| && Agree(exec, plan, ledger, from, echo, echoes, upto)
    requires RouterCallOf(plan, from, echo) == Ok(call)
    ensures var (ledger', echo') := exec(ledger, call); Agree(exec, plan, ledger', from + 1, echo', echoes, upto)
    ensures echoes[from] == echo
  {
    assert RunEcho(exec, plan, ledger, from, echo, from) == echo;
  }

  /** Built from the run's own echoes, a prefix is the run's first calls. */
  lemma {:induction false} PrefixIsRun<L(!new)>(exec: (L, Call) -> (L, Echo), plan: Plan, ledger: L, from: nat,
                                                echo: Echo, echoes: seq<Echo>, upto: nat)
    requires from <= upto <= |plan.phases| <= |echoes| && Agree(exec, plan, ledger, from, echo, echoes, upto)
    ensures PrefixCalls(plan, echoes, from, upto) == RunCalls(exec, plan, ledger, from, echo, upto)
    decreases upto - from
  {
    hide RouterCallOf;
    if from < upto {
      assert echoes[from] == RunEcho(exec, plan, ledger, from, echo, from) == echo;
      if RouterCallOf(plan, from, echo).Ok? {
        var call := RouterCallOf(plan, from, echo).value;
        AgreeStep(exec, plan, ledger, from, echo, echoes, upto, call);
        var (ledger', echo') := exec(ledger, call);
        PrefixIsRun(exec, plan, ledger', from + 1, echo', echoes, upto);
      }
    }
  }

  /** With every echo right, the whole array is everything the run sends. */
  lemma {:induction false} ArrayIsRun<L(!new)>(exec: (L, Call) -> (L, Echo), plan: Plan, ledger: L, from: nat,
                                               echo: Echo, echoes: seq<Echo>)
    requires from <= |plan.phases| <= |echoes| && Agree(exec, plan, ledger, from, echo, echoes, |plan.phases|)
    ensures PrefixCalls(plan, echoes, from, StepCount(plan)) == RunSends(exec, plan, ledger, from, echo)
    decreases |plan.phases| - from
  {
    hide RouterCallOf;
    if from == |plan.phases| {
      assert !plan.verifierOnly ==> PrefixCalls(plan, echoes, from + 1, StepCount(plan)) == Ok([]);
      assert [plan.consumer] + [] == [plan.consumer];
    } else {
      assert echoes[from] == RunEcho(exec, plan, ledger, from, echo, from) == echo;
      if RouterCallOf(plan, from, echo).Ok? {
        var call := RouterCallOf(plan, from, echo).value;
        AgreeStep(exec, plan, ledger, from, echo, echoes, |plan.phases|, call);
        var (ledger', echo') := exec(ledger, call);
        ArrayIsRun(exec, plan, ledger', from + 1, echo', echoes);
      }
    }
  }

  /** The last result of a simulated prefix is the echo the run reaches the next phase with. */
  lemma {:induction false} LastIsEcho<L(!new)>(exec: (L, Call) -> (L, Echo), plan: Plan, ledger: L, from: nat, echo: Echo, upto: nat)
    requires from < upto < |plan.phases| && RunCalls(exec, plan, ledger, from, echo, upto).Ok?
    ensures var calls := RunCalls(exec, plan, ledger, from, echo, upto).value;
            |calls| == upto - from
            && SimulateArray(exec, ledger, calls)[|calls| - 1] == RunEcho(exec, plan, ledger, from, echo, upto)
    decreases upto - from
  {
    hide RouterCallOf;
    var call := RouterCallOf(plan, from, echo).value;
    var (ledger', echo') := exec(ledger, call);
    var calls := RunCalls(exec, plan, ledger, from, echo, upto).value;
    assert calls[1..] == RunCalls(exec, plan, ledger', from + 1, echo', upto).value;
    if from + 1 < upto {
      LastIsEcho(exec, plan, ledger', from + 1, echo', upto);
    }
  }

  /** A run that cannot build its first calls fails with that error. */
  lemma {:induction false} FailedPrefix<L(!new)>(exec: (L, Call) -> (L, Echo), plan: Plan, ledger: L, from: nat, echo: Echo, upto: nat)
    requires from <= upto <= |plan.phases| && RunCalls(exec, plan, ledger, from, echo, upto).Err?
    ensures RunSends(exec, plan, ledger, from, echo) == Err(RunCalls(exec, plan, ledger, from, echo, upto).error)
    decreases upto - from
  {
    hide RouterCallOf;
    if RouterCallOf(plan, from, echo).Ok? {
      var (ledger', echo') := exec(ledger, RouterCallOf(plan, from, echo).value);
      FailedPrefix(exec, plan, ledger', from + 1, echo', upto);
    }
  }

  /** The transactions of `simulatePrefix`, built one by one. */
  method BuildPrefix(plan: Plan, echoes: seq<Echo>, from: nat, upto: nat) returns (r: Result<seq<Call>>)
    requires from <= upto <= |plan.phases| + 1 && |plan.phases| <= |echoes|
    ensures r == PrefixCalls(plan, echoes, from, upto)
  {
    hide RouterCallOf;
    var txs: seq<Call> := [];
    var i := from;
    PrependNil(PrefixCalls(plan, echoes, from, upto));
    while i < upto
      invariant from <= i <= upto
      invariant PrefixCalls(plan, echoes, from, upto) == Prepend(txs, PrefixCalls(plan, echoes, i, upto))
    {
      var call :- CallAt(plan, echoes, i);
      if PrefixCalls(plan, echoes, i + 1, upto).Ok? {
        ghost var rest := PrefixCalls(plan, echoes, i + 1, upto).value;
        assert txs + ([call] + rest) == txs + [call] + rest;
      }
      txs := txs + [call];
      i := i + 1;
    }
    assert txs + [] == txs;
    r := Ok(txs);
  }

  /**
   * `simulateSequence`: growing prefixes discover the missing echoes, then the whole array is
   * simulated. Returned is that array: exactly the calls a run from the same point sends, or the
   * error it stops with.
   */
  method SimulateSequence<L(!new)>(exec: (L, Call) -> (L, Echo), plan: Plan, ledger: L, from: nat, known: seq<Echo>)
    returns (r: Result<seq<Call>>)
    requires from <= |plan.phases|
    requires KnownEchoes(exec, plan, ledger, from, known)
    ensures r == RunSends(exec, plan, ledger, from, FirstEcho(known, from))
  {
    hide RouterCallOf;
    var echoes := known;
    while |echoes| < |plan.phases|
      invariant known <= echoes
      invariant forall j :: |known| <= j < |echoes| ==> echoes[j] == None
    {
      echoes := echoes + [None];
    }
    ghost var echo := FirstEcho(known, from);
    var i := from;
    while i + 1 < |plan.phases|
      invariant from <= i <= |plan.phases| && |plan.phases| <= |echoes|
      invariant from < |plan.phases| ==> i < |plan.phases| && Agree(exec, plan, ledger, from, echo, echoes, i + 1)
      invariant forall j :: i < j < |plan.phases| && echoes[j].Some? ==>
                  echoes[j] == RunEcho(exec, plan, ledger, from, echo, j)
      decreases |plan.phases| - i
    {
      if echoes[i + 1].None? {
        PrefixIsRun(exec, plan, ledger, from, echo, echoes, i + 1);
        var calls := BuildPrefix(plan, echoes, from, i + 1);
        if calls.Err? {
          FailedPrefix(exec, plan, ledger, from, echo, i + 1);
          return Err(calls.error);
        }
        LastIsEcho(exec, plan, ledger, from, echo, i + 1);
        var sim := SimulateArray(exec, ledger, calls.value);
        echoes := echoes[i + 1 := sim[|sim| - 1]];
      }
      i := i + 1;
    }
    ArrayIsRun(exec, plan, ledger, from, echo, echoes);
    r := BuildPrefix(plan, echoes, from, StepCount(plan));
  }

  /** The first call of a run and the rest of it. */
  lemma SendsStep<L>(exec: (L, Call) -> (L, Echo), plan: Plan, ledger: L, i: nat, echo: Echo)
    requires i < |plan.phases|
    ensures RunSends(exec, plan, ledger, i, echo) ==
            match RouterCallOf(plan, i, echo)
            case Err(e) => Err(e)
            case Ok(call) => Prepend([call], RunSends(exec, plan, exec(ledger, call).0, i + 1, exec(ledger, call).1))
  {
    hide RouterCallOf;
  }

  /**
   * The loop of `runSequence` when nothing interrupts it: phases before the resume point are
   * skipped, each call carries the state the one before returned, and the consumer call comes last.
   */
  method RunSequence<L>(exec: (L, Call) -> (L, Echo), plan: Plan, start: L, nextPhase: nat, resumeEcho: Echo)
    returns (r: Result<seq<Call>>)
    requires nextPhase <= |plan.phases|
    ensures r == RunSends(exec, plan, start, nextPhase, resumeEcho)
  {
    hide RouterCallOf;
    var ledger, echo := start, resumeEcho;
    var sent: seq<Call> := [];
    ghost var all := RunSends(exec, plan, start, nextPhase, resumeEcho);
    PrependNil(all);
    for i := 0 to |plan.phases|
      invariant i <= nextPhase ==> ledger == start && echo == resumeEcho && sent == []
      invariant all == Prepend(sent, RunSends(exec, plan, ledger, if i < nextPhase then nextPhase else i, echo))
    {
      if i < nextPhase { continue; }
      SendsStep(exec, plan, ledger, i, echo);
      var call :- RouterCallOf(plan, i, echo);
      PrependPrepend(sent, [call], RunSends(exec, plan, exec(ledger, call).0, i + 1, exec(ledger, call).1));
      var (after, returned) := exec(ledger, call);
      sent := sent + [call];
      ledger := after;
      echo := returned;
    }
    if !plan.verifierOnly {
      sent := sent + [plan.consumer];
    } else {
      assert sent + [] == sent;
    }
    r := Ok(sent);
  }
}
