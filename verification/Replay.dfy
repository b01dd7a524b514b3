/**
 * `reconstructJournal` of client/src/leaderboard/replay.ts: the input journal of a whole game from
 * the logs its segments published, each packed on its own.
 */
module Replay {
  import opened Sequences
  import opened Ticcmd

  /** One published log: its place in the run, its span of tics and its transport felts. */
  datatype Leaf = Leaf(leafIndex: int, ticStart: int, ticEnd: int, packed: seq<nat>)

  datatype Journal = Journal(words: seq<Word>, packed: seq<nat>, tail: seq<Word>)

  // ----- ordering ------------------------------------------------------------------------------

  /** Before any leaf of larger index, after equal ones. */
  function Insert(leaf: Leaf, sorted: seq<Leaf>): seq<Leaf> {
    if sorted == [] || leaf.leafIndex <= sorted[0].leafIndex then [leaf] + sorted
    else [sorted[0]] + Insert(leaf, sorted[1..])
  }

  /** `[...replay].sort((a, b) => a.leafIndex - b.leafIndex)`, a stable sort. */
  function Ordered(replay: seq<Leaf>): seq<Leaf> {
    if replay == [] then [] else Insert(replay[0], Ordered(replay[1..]))
  }

  predicate Ascending(leaves: seq<Leaf>) {
    forall i, j :: 0 <= i < j < |leaves| ==> leaves[i].leafIndex < leaves[j].leafIndex
  }

  lemma {:induction false} InsertIs(leaf: Leaf, sorted: seq<Leaf>)
    requires Ascending(sorted) && forall x :: x in sorted ==> x.leafIndex != leaf.leafIndex
    ensures Ascending(Insert(leaf, sorted)) && forall x :: x in Insert(leaf, sorted) <==> x == leaf || x in sorted
  {
    if sorted != [] && leaf.leafIndex > sorted[0].leafIndex {
      var rest := Insert(leaf, sorted[1..]);
      InsertIs(leaf, sorted[1..]);
      assert sorted == [sorted[0]] + sorted[1..];
      forall j | 0 <= j < |rest| ensures sorted[0].leafIndex < rest[j].leafIndex {
        assert rest[j] in rest;
      }
    }
  }

  predicate DistinctIndices(leaves: seq<Leaf>) {
    forall i, j :: 0 <= i < j < |leaves| ==> leaves[i].leafIndex != leaves[j].leafIndex
  }

  lemma {:induction false} OrderedIs(replay: seq<Leaf>)
    requires DistinctIndices(replay)
    ensures Ascending(Ordered(replay)) && forall x :: x in Ordered(replay) <==> x in replay
  {
    if replay != [] {
      OrderedIs(replay[1..]);
      assert replay == [replay[0]] + replay[1..];
      forall x | x in replay[1..] ensures x.leafIndex != replay[0].leafIndex {
        var j :| 0 <= j < |replay| - 1 && replay[1..][j] == x;
        assert replay[j + 1] == x;
      }
      InsertIs(replay[0], Ordered(replay[1..]));
    }
  }

  /** The leaves of a run, each once, in any order. */
  ghost predicate Shuffled(replay: seq<Leaf>, leaves: seq<Leaf>) {
    DistinctIndices(replay) && forall x :: x in replay <==> x in leaves
  }

  /** The first of an ascending list is the one of smallest index, and occurs once. */
  lemma HeadIsSmallest(a: seq<Leaf>)
    requires Ascending(a) && a != []
    ensures forall x :: x in a[1..] <==> x in a && x != a[0]
    ensures forall x :: x in a ==> a[0].leafIndex <= x.leafIndex && (x.leafIndex == a[0].leafIndex ==> x == a[0])
  {
    assert a == [a[0]] + a[1..];
    forall x | x in a[1..] ensures x.leafIndex > a[0].leafIndex {
      var i :| 0 <= i < |a| - 1 && a[1..][i] == x;
      assert a[i + 1] == x;
    }
  }

  /** Two ascending lists of the same leaves are the same list. */
  lemma {:induction false} AscendingIsUnique(a: seq<Leaf>, b: seq<Leaf>)
    requires Ascending(a) && Ascending(b) && forall x :: x in a <==> x in b
    ensures a == b
  {
    assert |b| > 0 ==> b[0] in a;
    assert |a| > 0 ==> a[0] in b;
    if a != [] {
      assert a[0] in b;
      HeadIsSmallest(a);
      HeadIsSmallest(b);
      assert b[0] in a;
      assert a[0] == b[0];
      assert a == [a[0]] + a[1..] && b == [b[0]] + b[1..];
      hide Ascending;
      AscendingTail(a);
      AscendingTail(b);
      AscendingIsUnique(a[1..], b[1..]);
    }
  }

  lemma AscendingTail(a: seq<Leaf>)
    requires Ascending(a) && a != []
    ensures Ascending(a[1..])
  {
  }

  /** However the leaves arrive, sorting puts a game's own order back. */
  lemma OrderRestored(replay: seq<Leaf>, leaves: seq<Leaf>)
    requires Ascending(leaves) && Shuffled(replay, leaves)
    ensures Ordered(replay) == leaves
  {
    OrderedIs(replay);
    AscendingIsUnique(Ordered(replay), leaves);
  }

  // ----- the journal ---------------------------------------------------------------------------

  /** Words of all the leaves, in order. */
  function AllWords(leaves: seq<Leaf>): seq<Word> {
    if leaves == [] then []
    else UnpackedLog(leaves[0].packed, leaves[0].ticEnd - leaves[0].ticStart) + AllWords(leaves[1..])
  }

  method ReconstructJournal(replay: seq<Leaf>) returns (r: Journal)
    ensures r.words == AllWords(Ordered(replay))
    ensures Records(r.packed, r.tail, r.words)
  {
    hide UnpackedLog, PackedLog, Ordered;
    var ordered := Ordered(replay);
    var words: seq<Word> := [];
    assert ordered[0..] == ordered;
    for i := 0 to |ordered|
      invariant words + AllWords(ordered[i..]) == AllWords(ordered)
    {
      var leaf := ordered[i];
      var segTics := leaf.ticEnd - leaf.ticStart;
      var group := UnpackLog(leaf.packed, segTics);
      assert ordered[i..][1..] == ordered[i + 1..];
      assert words + (group + AllWords(ordered[i + 1..])) == (words + group) + AllWords(ordered[i + 1..]);
      words := words + group;
    }
    var completeCount := |words| / TICS_PER_FELT * TICS_PER_FELT;
    var packed := PackLog(words[..completeCount]);
    return Journal(words, packed.value, words[completeCount..]);
  }

  /** The leaf that publishes a segment's words. */
  predicate Publishes(leaf: Leaf, words: seq<Word>) {
    leaf.packed == PackedLog(words) && leaf.ticEnd - leaf.ticStart == |words|
  }

  predicate AllPublish(leaves: seq<Leaf>, segments: seq<seq<Word>>) {
    |leaves| == |segments| && forall i :: 0 <= i < |leaves| ==> Publishes(leaves[i], segments[i])
  }

  lemma {:induction false} WordsBack(leaves: seq<Leaf>, segments: seq<seq<Word>>)
    requires AllPublish(leaves, segments)
    ensures AllWords(leaves) == Flatten(segments)
  {
    if leaves != [] {
      UnpackPackLog(segments[0]);
      WordsBack(leaves[1..], segments[1..]);
    }
  }

  /**
   * For every way of cutting a game into segments and every order in which their logs arrive, the
   * reconstructed journal holds the words that were played, packed as a log that recorded them.
   */
  method ReconstructGame(replay: seq<Leaf>, ghost leaves: seq<Leaf>, ghost segments: seq<seq<Word>>) returns (r: Journal)
    requires Ascending(leaves) && AllPublish(leaves, segments) && Shuffled(replay, leaves)
    ensures r.words == Flatten(segments) && Records(r.packed, r.tail, Flatten(segments))
  {
    OrderRestored(replay, leaves);
    WordsBack(leaves, segments);
    r := ReconstructJournal(replay);
  }

  /** The state of a recording log is determined by its words. */
  lemma RecordsUnique(complete: seq<nat>, tail: seq<Word>, complete': seq<nat>, tail': seq<Word>, words: seq<Word>)
    requires Records(complete, tail, words) && Records(complete', tail', words)
    ensures complete == complete' && tail == tail'
  {
  }

  /** The reconstruction is the very state of a log that had every word pushed one by one. */
  method ReconstructionIsLog(replay: seq<Leaf>, ghost leaves: seq<Leaf>, ghost segments: seq<seq<Word>>)
    returns (r: Journal, log: TicLog)
    requires Ascending(leaves) && AllPublish(leaves, segments) && Shuffled(replay, leaves)
    ensures r.packed == log.complete && r.tail == log.tail && r.words == Flatten(segments)
  {
    r := ReconstructGame(replay, leaves, segments);
    log := Record(r.words);
    assert Reduced(r.words) == r.words;
    hide Records;
    RecordsUnique(r.packed, r.tail, log.complete, log.tail, r.words);
  }
}
