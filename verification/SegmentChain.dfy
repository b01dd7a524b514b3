/** The local check of a run's segment outputs: `verifyChain` of client/src/prove/chain.ts. */
module SegmentChain {
  import opened RunStore
  import opened Wrappers

  const VERSION := 1
  const RUNNING := 0
  const DEAD := 1
  const EXIT := 2
  const ABORT := 3

  datatype Reason =
    | NoSegments | BadVersion | Aborted | Backwards | Empty | NotLast
    | NotGenesis | HashBroken | TicsBroken | ScoreFell | StillRunning

  datatype ChainResult =
    | Sound(tics: nat, finalStatus: nat)
    | Broken(index: Option<nat>, reason: Reason)

  /** The first thing wrong with segment `i`, in the order the checks are made. */
  function Fault(outputs: seq<Output>, genesis: Felt, i: nat): Option<Reason>
    requires i < |outputs|
  {
    var out := outputs[i];
    if out.version != VERSION then Some(BadVersion)
    else if out.status == ABORT then Some(Aborted)
    else if out.ticEnd < out.ticStart then Some(Backwards)
    else if out.ticEnd == out.ticStart then Some(Empty)
    else if i != |outputs| - 1 && out.status != RUNNING then Some(NotLast)
    else if i == 0 then (if out.hIn != genesis then Some(NotGenesis) else None)
    else if outputs[i - 1].hOut != out.hIn then Some(HashBroken)
    else if outputs[i - 1].ticEnd != out.ticStart then Some(TicsBroken)
    else if out.kills < outputs[i - 1].kills || out.items < outputs[i - 1].items || out.secrets < outputs[i - 1].secrets
    then Some(ScoreFell)
    else None
  }

  /** Tics covered one segment at a time. */
  function TicsCovered(outputs: seq<Output>): int {
    if outputs == [] then 0
    else TicsCovered(outputs[..|outputs| - 1]) + outputs[|outputs| - 1].ticEnd - outputs[|outputs| - 1].ticStart
  }

  ghost predicate Faultless(outputs: seq<Output>, genesis: Felt) {
    forall i :: 0 <= i < |outputs| ==> Fault(outputs, genesis, i).None?
  }

  /** The right answer: the first faulty segment, or a chain that covers every tic from start to end. */
  ghost predicate RightVerdict(outputs: seq<Output>, genesis: Felt, requireFinished: bool, r: ChainResult) {
    match r
    case Sound(tics, finalStatus) =>
      && outputs != [] && Faultless(outputs, genesis)
      && tics == TicsCovered(outputs) && finalStatus == outputs[|outputs| - 1].status
      && (requireFinished ==> finalStatus != RUNNING)
    case Broken(index, reason) =>
      if index.None? then outputs == [] && reason == NoSegments
      else
        var i := index.value;
        && i < |outputs| && (forall j :: 0 <= j < i ==> Fault(outputs, genesis, j).None?)
        && if reason == StillRunning
           then requireFinished && i == |outputs| - 1 && Fault(outputs, genesis, i).None? && outputs[i].status == RUNNING
           else Fault(outputs, genesis, i) == Some(reason)
  }

  /** `verifyChain`. */
  method VerifyChain(outputs: seq<Output>, genesis: Felt, requireFinished: bool) returns (r: ChainResult)
    ensures RightVerdict(outputs, genesis, requireFinished, r)
  {
    if |outputs| == 0 { return Broken(None, NoSegments); }
    for i := 0 to |outputs|
      invariant forall j :: 0 <= j < i ==> Fault(outputs, genesis, j).None?
    {
      var out := outputs[i];
      if out.version != VERSION { return Broken(Some(i), BadVersion); }
      if out.status == ABORT { return Broken(Some(i), Aborted); }
      if out.ticEnd < out.ticStart { return Broken(Some(i), Backwards); }
      if out.ticEnd == out.ticStart { return Broken(Some(i), Empty); }
      var last := i == |outputs| - 1;
      if !last && out.status != RUNNING { return Broken(Some(i), NotLast); }
      if i == 0 {
        if out.hIn != genesis { return Broken(Some(0), NotGenesis); }
      } else {
        var previous := outputs[i - 1];
        if previous.hOut != out.hIn { return Broken(Some(i), HashBroken); }
        if previous.ticEnd != out.ticStart { return Broken(Some(i), TicsBroken); }
        if out.kills < previous.kills || out.items < previous.items || out.secrets < previous.secrets {
          return Broken(Some(i), ScoreFell);
        }
      }
    }
    var lastOut := outputs[|outputs| - 1];
    if requireFinished && lastOut.status == RUNNING { return Broken(Some(|outputs| - 1), StillRunning); }
    ContiguousTics(outputs, genesis);
    return Sound(lastOut.ticEnd - outputs[0].ticStart, lastOut.status);
  }

  lemma ContiguousTics(outputs: seq<Output>, genesis: Felt)
    requires outputs != [] && Faultless(outputs, genesis)
    ensures TicsCovered(outputs) == outputs[|outputs| - 1].ticEnd - outputs[0].ticStart >= 0
  {
    CoveredUpTo(outputs, genesis, |outputs|);
    assert outputs[..|outputs|] == outputs;
  }

  lemma {:induction false} CoveredUpTo(outputs: seq<Output>, genesis: Felt, n: nat)
    requires 1 <= n <= |outputs| && Faultless(outputs, genesis)
    ensures TicsCovered(outputs[..n]) == outputs[n - 1].ticEnd - outputs[0].ticStart >= 0
  {
    assert Fault(outputs, genesis, n - 1).None?;
    assert outputs[..n][..n - 1] == outputs[..n - 1];
    if n > 1 {
      CoveredUpTo(outputs, genesis, n - 1);
    } else {
      assert outputs[..0] == [];
    }
  }

  /**
   * What a sound chain means between any two of its segments: time only moves forward, without
   * overlap, the score never falls, and only the last one ends the game.
   */
  lemma {:induction false} SoundChainIsOneGame(outputs: seq<Output>, genesis: Felt, i: nat, j: nat)
    requires Faultless(outputs, genesis) && i < j < |outputs|
    ensures outputs[i].ticEnd <= outputs[j].ticStart && outputs[i].status == RUNNING
    ensures outputs[i].kills <= outputs[j].kills && outputs[i].items <= outputs[j].items && outputs[i].secrets <= outputs[j].secrets
    decreases j
  {
    assert Fault(outputs, genesis, i).None? && Fault(outputs, genesis, j).None?;
    if i < j - 1 {
      SoundChainIsOneGame(outputs, genesis, i, j - 1);
      assert Fault(outputs, genesis, j - 1).None?;
    }
  }

  predicate Covers(out: Output, tic: nat) {
    out.ticStart <= tic < out.ticEnd
  }

  /** Every tic of the game is played in exactly one segment of a sound chain. */
  lemma {:induction false} EveryTicInOneSegment(outputs: seq<Output>, genesis: Felt, tic: nat)
    requires outputs != [] && Faultless(outputs, genesis)
    requires outputs[0].ticStart <= tic < outputs[|outputs| - 1].ticEnd
    ensures exists i :: 0 <= i < |outputs| && Covers(outputs[i], tic)
    ensures forall i, j :: 0 <= i < |outputs| && 0 <= j < |outputs| && Covers(outputs[i], tic) && Covers(outputs[j], tic) ==> i == j
  {
    var i := 0;
    while !(tic < outputs[i].ticEnd)
      invariant 0 <= i < |outputs| && outputs[i].ticStart <= tic
      decreases |outputs| - i
    {
      assert i < |outputs| - 1;
      assert Fault(outputs, genesis, i + 1).None?;
      i := i + 1;
    }
    assert Covers(outputs[i], tic);
    forall i, j | 0 <= i < j < |outputs| ensures outputs[i].ticEnd <= outputs[j].ticStart {
      SoundChainIsOneGame(outputs, genesis, i, j);
    }
  }
}
