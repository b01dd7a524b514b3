/**
 * The tables of infra/indexer/src/db.ts. The five keyed tables are one map whose keys name
 * the table and its primary key; the two append-only tables are sequences in id order (the
 * AUTOINCREMENT ids themselves are not modelled). A row is what the INSERT stores of its event.
 */
module EventStore {
  import opened Wrappers

  datatype Event =
    | RunSubmitted(runId: nat, player: nat, versionId: nat, levelId: nat, tics: nat, kills: nat, items: nat,
                   secrets: nat, score: nat, nSegments: nat, fact: nat, block: nat, txHash: nat)
    | AttemptRecorded(runId: nat, player: nat, versionId: nat, levelId: nat, tics: nat, score: nat, fact: nat,
                      block: nat, txHash: nat)
    | Replay(runId: nat, leafIndex: nat, ticStart: nat, ticEnd: nat, packed: seq<nat>, block: nat, txHash: nat)
    | MemberRejected(memberIndex: nat, player: nat, reason: nat, reasonText: string, leafStart: nat, leafLen: nat,
                     block: nat, txHash: nat)
    | VersionAdded(versionId: nat, programHash: nat, registryName: nat, registryNameText: string,
                   verifierRouter: nat, block: nat, txHash: nat)
    | GenesisSet(versionId: nat, levelId: nat, genesis: nat, block: nat, txHash: nat)
    | Frozen(owner: nat, block: nat, txHash: nat)

  /** Table and primary key. */
  datatype Key =
    | RunKey(runId: nat)
    | AttemptKey(runId: nat)
    | ReplayKey(runId: nat, leafIndex: nat)
    | VersionKey(versionId: nat)
    | GenesisKey(versionId: nat, levelId: nat)

  datatype Row =
    | RunRow(player: nat, versionId: nat, levelId: nat, tics: nat, kills: nat, items: nat, secrets: nat, score: nat,
             nSegments: nat, fact: nat, block: nat, txHash: nat)
    | AttemptRow(player: nat, versionId: nat, levelId: nat, tics: nat, score: nat, fact: nat, block: nat, txHash: nat)
    | ReplayRow(ticStart: nat, ticEnd: nat, packed: seq<nat>, block: nat)
    | RejectionRow(block: nat, txHash: nat, memberIndex: nat, player: nat, reason: nat, reasonText: string,
                   leafStart: nat, leafLen: nat)
    | VersionRow(programHash: nat, registryName: string, verifierRouter: nat, block: nat)
    | GenesisRow(genesis: nat, block: nat)
    | FrozenRow(owner: nat, block: nat)

  datatype Tables = Tables(rows: map<Key, Row>, rejections: seq<Row>, frozen: seq<Row>)

  const Empty := Tables(map[], [], [])

  /** The row an event is upserted under; the append-only tables have none. */
  function KeyOf(e: Event): Option<Key> {
    match e
    case RunSubmitted(id, _, _, _, _, _, _, _, _, _, _, _, _) => Some(RunKey(id))
    case AttemptRecorded(id, _, _, _, _, _, _, _, _) => Some(AttemptKey(id))
    case Replay(id, leaf, _, _, _, _, _) => Some(ReplayKey(id, leaf))
    case VersionAdded(v, _, _, _, _, _, _) => Some(VersionKey(v))
    case GenesisSet(v, l, _, _, _) => Some(GenesisKey(v, l))
    case MemberRejected(_, _, _, _, _, _, _, _) => None
    case Frozen(_, _, _) => None
  }

  function RowOf(e: Event): (r: Row)
    ensures r.block == e.block
  {
    match e
    case RunSubmitted(_, player, v, l, tics, kills, items, secrets, score, n, fact, block, tx) =>
      RunRow(player, v, l, tics, kills, items, secrets, score, n, fact, block, tx)
    case AttemptRecorded(_, player, v, l, tics, score, fact, block, tx) =>
      AttemptRow(player, v, l, tics, score, fact, block, tx)
    case Replay(_, _, start, end, packed, block, _) => ReplayRow(start, end, packed, block)
    case MemberRejected(i, player, reason, text, start, len, block, tx) =>
      RejectionRow(block, tx, i, player, reason, text, start, len)
    case VersionAdded(_, hash, _, name, router, block, _) => VersionRow(hash, name, router, block)
    case GenesisSet(_, _, genesis, block, _) => GenesisRow(genesis, block)
    case Frozen(owner, block, _) => FrozenRow(owner, block)
  }

  /** `apply`: an upsert, or one more row at the end. */
  function Apply(t: Tables, e: Event): Tables {
    match KeyOf(e)
    case Some(k) => t.(rows := t.rows[k := RowOf(e)])
    case None =>
      if e.MemberRejected? then t.(rejections := t.rejections + [RowOf(e)])
      else t.(frozen := t.frozen + [RowOf(e)])
  }

  function ApplyAll(t: Tables, es: seq<Event>): Tables
    decreases |es|
  {
    if es == [] then t else ApplyAll(Apply(t, es[0]), es[1..])
  }

  function Before(rows: seq<Row>, from: nat): seq<Row> {
    if rows == [] then []
    else if rows[0].block < from then [rows[0]] + Before(rows[1..], from)
    else Before(rows[1..], from)
  }

  /** `purgeFromBlock`: every row learned from a block at or above `from` goes. */
  function Purge(t: Tables, from: nat): Tables {
    Tables(map k | k in t.rows && t.rows[k].block < from :: t.rows[k],
           Before(t.rejections, from), Before(t.frozen, from))
  }

  // ----- algebra of the tables -----------------------------------------------------------------

  lemma {:induction false} ApplyAllConcat(t: Tables, a: seq<Event>, b: seq<Event>)
    ensures ApplyAll(t, a + b) == ApplyAll(ApplyAll(t, a), b)
    decreases |a|
  {
    if a == [] {
      assert a + b == b;
    } else {
      assert (a + b)[0] == a[0] && (a + b)[1..] == a[1..] + b;
      ApplyAllConcat(Apply(t, a[0]), a[1..], b);
    }
  }

  /** `k` is the key of one of the events. */
  predicate Emits(es: seq<Event>, k: Key) {
    exists i :: 0 <= i < |es| && KeyOf(es[i]) == Some(k)
  }

  lemma ApplyAllSnoc(t: Tables, es: seq<Event>, e: Event)
    ensures ApplyAll(t, es + [e]) == Apply(ApplyAll(t, es), e)
  {
    ApplyAllConcat(t, es, [e]);
    assert ApplyAll(ApplyAll(t, es), [e]) == ApplyAll(Apply(ApplyAll(t, es), e), [][..]);
  }

  /** The row `k` has after `es`: that of its last event, or the one it had. */
  function RowAfter(was: Option<Row>, es: seq<Event>, k: Key): Option<Row>
    decreases |es|
  {
    if es == [] then was
    else
      var n := |es| - 1;
      if KeyOf(es[n]) == Some(k) then Some(RowOf(es[n])) else RowAfter(was, es[..n], k)
  }

  function RowAt(t: Tables, k: Key): Option<Row> {
    if k in t.rows then Some(t.rows[k]) else None
  }

  lemma {:induction false} RowsAfter(t: Tables, es: seq<Event>, k: Key)
    ensures RowAt(ApplyAll(t, es), k) == RowAfter(RowAt(t, k), es, k)
    decreases |es|
  {
    if es != [] {
      var n := |es| - 1;
      assert es == es[..n] + [es[n]];
      ApplyAllSnoc(t, es[..n], es[n]);
      RowsAfter(t, es[..n], k);
    }
  }

  /** Whether anything was emitted for `k` decides whose row it is, and then what it was before is irrelevant. */
  lemma {:induction false} RowAfterCases(was: Option<Row>, es: seq<Event>, k: Key)
    ensures !Emits(es, k) ==> RowAfter(was, es, k) == was
    ensures Emits(es, k) ==>
              && RowAfter(was, es, k).Some?
              && RowAfter(was, es, k) == RowAfter(None, es, k)
              && exists i :: 0 <= i < |es| && KeyOf(es[i]) == Some(k) && RowAfter(was, es, k) == Some(RowOf(es[i]))
    decreases |es|
  {
    if es != [] {
      var n := |es| - 1;
      if KeyOf(es[n]) != Some(k) {
        RowAfterCases(was, es[..n], k);
        if Emits(es, k) {
          var i :| 0 <= i < |es| && KeyOf(es[i]) == Some(k);
          assert KeyOf(es[..n][i]) == Some(k);
          var j :| 0 <= j < |es[..n]| && KeyOf(es[..n][j]) == Some(k) && RowAfter(was, es[..n], k) == Some(RowOf(es[..n][j]));
          assert KeyOf(es[j]) == Some(k);
        }
      }
    }
  }

  /** Tables with the same rows and the same logs are the same. */
  lemma SameTables(a: Tables, b: Tables)
    requires forall k :: RowAt(a, k) == RowAt(b, k)
    requires a.rejections == b.rejections && a.frozen == b.frozen
    ensures a == b
  {
    assert forall k :: k in a.rows <==> RowAt(a, k).Some?;
    assert forall k :: k in b.rows <==> RowAt(b, k).Some?;
    forall k | k in a.rows ensures k in b.rows && a.rows[k] == b.rows[k] {
      assert RowAt(a, k) == RowAt(b, k);
    }
    forall k | k in b.rows ensures k in a.rows {
      assert RowAt(a, k) == RowAt(b, k);
    }
    assert a.rows == b.rows;
  }

  // ----- the append-only tables ----------------------------------------------------------------

  /** The row an event adds to the rejections, if any. */
  function RejectionOf(e: Event): seq<Row> {
    if e.MemberRejected? then [RowOf(e)] else []
  }

  function FrozenOf(e: Event): seq<Row> {
    if e.Frozen? then [RowOf(e)] else []
  }

  function Rejections(es: seq<Event>): seq<Row> {
    if es == [] then [] else RejectionOf(es[0]) + Rejections(es[1..])
  }

  function FrozenRows(es: seq<Event>): seq<Row> {
    if es == [] then [] else FrozenOf(es[0]) + FrozenRows(es[1..])
  }

  lemma ApplyLogs(t: Tables, e: Event)
    ensures Apply(t, e).rejections == t.rejections + RejectionOf(e)
    ensures Apply(t, e).frozen == t.frozen + FrozenOf(e)
  {
    hide RowOf;
  }

  lemma {:induction false} LogsAfter(t: Tables, es: seq<Event>)
    ensures ApplyAll(t, es).rejections == t.rejections + Rejections(es)
    ensures ApplyAll(t, es).frozen == t.frozen + FrozenRows(es)
    decreases |es|
  {
    hide Apply, RejectionOf, FrozenOf;
    if es != [] {
      LogsAfter(Apply(t, es[0]), es[1..]);
      ApplyLogs(t, es[0]);
    }
  }

  predicate AllBelow(es: seq<Event>, b: nat) {
    forall i :: 0 <= i < |es| ==> es[i].block < b
  }

  predicate AllFrom(es: seq<Event>, b: nat) {
    forall i :: 0 <= i < |es| ==> es[i].block >= b
  }

  lemma {:induction false} BeforeConcat(a: seq<Row>, b: seq<Row>, from: nat)
    ensures Before(a + b, from) == Before(a, from) + Before(b, from)
  {
    if a == [] {
      assert a + b == b;
    } else {
      assert (a + b)[1..] == a[1..] + b;
      BeforeConcat(a[1..], b, from);
    }
  }

  lemma LogBefore(e: Event, from: nat)
    ensures e.block < from ==> Before(RejectionOf(e), from) == RejectionOf(e) && Before(FrozenOf(e), from) == FrozenOf(e)
    ensures e.block >= from ==> Before(RejectionOf(e), from) == [] && Before(FrozenOf(e), from) == []
  {
    hide RowOf;
    var r: seq<Row> := [RowOf(e)];
    assert r[1..] == [];
    assert Before(r, from) == if e.block < from then r else [];
  }

  lemma AllTail(es: seq<Event>, b: nat)
    requires es != []
    ensures AllBelow(es, b) ==> es[0].block < b && AllBelow(es[1..], b)
    ensures AllFrom(es, b) ==> es[0].block >= b && AllFrom(es[1..], b)
  {
  }

  lemma {:induction false} LogsBefore(es: seq<Event>, from: nat)
    ensures AllBelow(es, from) ==>
              Before(Rejections(es), from) == Rejections(es) && Before(FrozenRows(es), from) == FrozenRows(es)
    ensures AllFrom(es, from) ==>
              Before(Rejections(es), from) == [] && Before(FrozenRows(es), from) == []
    decreases |es|
  {
    if es != [] {
      hide RejectionOf, FrozenOf, Before, AllBelow, AllFrom;
      LogsBefore(es[1..], from);
      AllTail(es, from);
      LogBefore(es[0], from);
      BeforeConcat(RejectionOf(es[0]), Rejections(es[1..]), from);
      BeforeConcat(FrozenOf(es[0]), FrozenRows(es[1..]), from);
    }
  }

  lemma {:induction false} BeforeTwice(rows: seq<Row>, from: nat)
    ensures Before(Before(rows, from), from) == Before(rows, from)
  {
    if rows != [] {
      BeforeTwice(rows[1..], from);
    }
  }

  // ----- every event in its own table, field by field ------------------------------------------

  /** The event belongs to the keyed table of `k` and has that primary key. */
  predicate KeyIs(k: Key, e: Event) {
    match k
    case RunKey(id) => e.RunSubmitted? && e.runId == id
    case AttemptKey(id) => e.AttemptRecorded? && e.runId == id
    case ReplayKey(id, leaf) => e.Replay? && e.runId == id && e.leafIndex == leaf
    case VersionKey(version) => e.VersionAdded? && e.versionId == version
    case GenesisKey(version, level) => e.GenesisSet? && e.versionId == version && e.levelId == level
  }

  /** The row carries the event's own fields, column by column. */
  predicate RowIs(r: Row, e: Event) {
    r.block == e.block &&
    match e
    case RunSubmitted(_, _, _, _, _, _, _, _, _, _, _, _, _) =>
      && r.RunRow? && r.player == e.player && r.versionId == e.versionId && r.levelId == e.levelId
      && r.tics == e.tics && r.kills == e.kills && r.items == e.items && r.secrets == e.secrets && r.score == e.score
      && r.nSegments == e.nSegments && r.fact == e.fact && r.txHash == e.txHash
    case AttemptRecorded(_, _, _, _, _, _, _, _, _) =>
      && r.AttemptRow? && r.player == e.player && r.versionId == e.versionId && r.levelId == e.levelId
      && r.tics == e.tics && r.score == e.score && r.fact == e.fact && r.txHash == e.txHash
    case Replay(_, _, _, _, _, _, _) =>
      r.ReplayRow? && r.ticStart == e.ticStart && r.ticEnd == e.ticEnd && r.packed == e.packed
    case MemberRejected(_, _, _, _, _, _, _, _) =>
      && r.RejectionRow? && r.txHash == e.txHash && r.memberIndex == e.memberIndex && r.player == e.player
      && r.reason == e.reason && r.reasonText == e.reasonText && r.leafStart == e.leafStart && r.leafLen == e.leafLen
    case VersionAdded(_, _, _, _, _, _, _) =>
      && r.VersionRow? && r.programHash == e.programHash && r.registryName == e.registryNameText
      && r.verifierRouter == e.verifierRouter
    case GenesisSet(_, _, _, _, _) => r.GenesisRow? && r.genesis == e.genesis
    case Frozen(_, _, _) => r.FrozenRow? && r.owner == e.owner
  }

  lemma KeyOfIs(k: Key, e: Event)
    ensures KeyIs(k, e) <==> KeyOf(e) == Some(k)
  {
  }

  lemma RowOfIs(e: Event)
    ensures RowIs(RowOf(e), e)
  {
  }

  /** One event goes to the table of its kind, under its own key or at the end, and touches nothing else. */
  lemma ApplyStores(t: Tables, e: Event)
    ensures e.MemberRejected? ==>
              && Apply(t, e).rows == t.rows && Apply(t, e).frozen == t.frozen
              && |Apply(t, e).rejections| == |t.rejections| + 1 && Apply(t, e).rejections[..|t.rejections|] == t.rejections
              && RowIs(Apply(t, e).rejections[|t.rejections|], e)
    ensures e.Frozen? ==>
              && Apply(t, e).rows == t.rows && Apply(t, e).rejections == t.rejections
              && |Apply(t, e).frozen| == |t.frozen| + 1 && Apply(t, e).frozen[..|t.frozen|] == t.frozen
              && RowIs(Apply(t, e).frozen[|t.frozen|], e)
    ensures !e.MemberRejected? && !e.Frozen? ==>
              && Apply(t, e).rejections == t.rejections && Apply(t, e).frozen == t.frozen
              && (exists k :: KeyIs(k, e))
              && (forall k :: KeyIs(k, e) ==> k in Apply(t, e).rows && RowIs(Apply(t, e).rows[k], e))
              && (forall k :: !KeyIs(k, e) ==> RowAt(Apply(t, e), k) == RowAt(t, k))
  {
    RowOfIs(e);
    forall k ensures KeyIs(k, e) <==> KeyOf(e) == Some(k) {
      KeyOfIs(k, e);
    }
    if KeyOf(e).Some? {
      assert KeyIs(KeyOf(e).value, e);
    }
    hide KeyIs, RowIs, RowOf;
  }

  /** The event is found in the table of its kind, with its own fields. */
  ghost predicate Found(t: Tables, e: Event) {
    if e.MemberRejected? then exists i :: 0 <= i < |t.rejections| && RowIs(t.rejections[i], e)
    else if e.Frozen? then exists i :: 0 <= i < |t.frozen| && RowIs(t.frozen[i], e)
    else exists k :: KeyIs(k, e) && k in t.rows && RowIs(t.rows[k], e)
  }

  /** The rows are those of the rejections among the events, in order. */
  predicate RejectionsAre(rows: seq<Row>, es: seq<Event>)
    decreases |es|
  {
    if es == [] then rows == []
    else if es[0].MemberRejected? then rows != [] && RowIs(rows[0], es[0]) && RejectionsAre(rows[1..], es[1..])
    else RejectionsAre(rows, es[1..])
  }

  predicate FrozenAre(rows: seq<Row>, es: seq<Event>)
    decreases |es|
  {
    if es == [] then rows == []
    else if es[0].Frozen? then rows != [] && RowIs(rows[0], es[0]) && FrozenAre(rows[1..], es[1..])
    else FrozenAre(rows, es[1..])
  }

  lemma {:induction false} LogsAre(es: seq<Event>)
    ensures RejectionsAre(Rejections(es), es) && FrozenAre(FrozenRows(es), es)
    decreases |es|
  {
    if es != [] {
      hide RowOf, RowIs;
      LogsAre(es[1..]);
      RowOfIs(es[0]);
      LogStep(es);
    }
  }

  lemma LogStep(es: seq<Event>)
    requires es != []
    ensures if es[0].MemberRejected? then Rejections(es) != [] && Rejections(es)[0] == RowOf(es[0]) && Rejections(es)[1..] == Rejections(es[1..])
            else Rejections(es) == Rejections(es[1..])
    ensures if es[0].Frozen? then FrozenRows(es) != [] && FrozenRows(es)[0] == RowOf(es[0]) && FrozenRows(es)[1..] == FrozenRows(es[1..])
            else FrozenRows(es) == FrozenRows(es[1..])
  {
    hide RowOf;
  }

  lemma {:induction false} FoundInLogs(es: seq<Event>, i: nat)
    requires i < |es|
    ensures es[i].MemberRejected? ==> exists j :: 0 <= j < |Rejections(es)| && RowIs(Rejections(es)[j], es[i])
    ensures es[i].Frozen? ==> exists j :: 0 <= j < |FrozenRows(es)| && RowIs(FrozenRows(es)[j], es[i])
    decreases |es|
  {
    hide RowOf, RowIs;
    RowOfIs(es[0]);
    if i > 0 {
      FoundInLogs(es[1..], i - 1);
      if es[i].MemberRejected? {
        var j :| 0 <= j < |Rejections(es[1..])| && RowIs(Rejections(es[1..])[j], es[i]);
        assert Rejections(es)[|RejectionOf(es[0])| + j] == Rejections(es[1..])[j];
      }
      if es[i].Frozen? {
        var j :| 0 <= j < |FrozenRows(es[1..])| && RowIs(FrozenRows(es[1..])[j], es[i]);
        assert FrozenRows(es)[|FrozenOf(es[0])| + j] == FrozenRows(es[1..])[j];
      }
    } else {
      assert es[0].MemberRejected? ==> Rejections(es)[0] == RowOf(es[0]);
      assert es[0].Frozen? ==> FrozenRows(es)[0] == RowOf(es[0]);
    }
  }

  /** No two events share a table and a primary key. */
  ghost predicate OwnKeys(es: seq<Event>) {
    forall i, j, k :: 0 <= i < j < |es| && KeyIs(k, es[i]) ==> !KeyIs(k, es[j])
  }

  /** The row of a key is that of an event with the key, the only one when keys are not shared. */
  lemma RowComesFrom(es: seq<Event>, k: Key)
    requires k in ApplyAll(Empty, es).rows
    ensures exists i :: 0 <= i < |es| && KeyIs(k, es[i]) && RowIs(ApplyAll(Empty, es).rows[k], es[i])
  {
    hide RowOf, RowIs, ApplyAll, KeyOf, KeyIs;
    RowsAfter(Empty, es, k);
    RowAfterCases(None, es, k);
    var i :| 0 <= i < |es| && KeyOf(es[i]) == Some(k) && RowAfter(None, es, k) == Some(RowOf(es[i]));
    KeyOfIs(k, es[i]);
    RowOfIs(es[i]);
  }

  lemma KeyIsStored(es: seq<Event>, i: nat, k: Key)
    requires i < |es| && KeyIs(k, es[i])
    ensures k in ApplyAll(Empty, es).rows
  {
    hide ApplyAll;
    KeyOfIs(k, es[i]);
    RowsAfter(Empty, es, k);
    RowAfterCases(None, es, k);
    assert Emits(es, k);
  }

  /**
   * Tables built from events that share no key hold exactly those events: each is found in its own
   * table with its own fields, each keyed row is one of them, and the two logs list theirs in order.
   */
  ghost predicate HoldExactly(t: Tables, es: seq<Event>) {
    && (forall i :: 0 <= i < |es| ==> Found(t, es[i]))
    && (forall k :: k in t.rows ==> exists i :: 0 <= i < |es| && KeyIs(k, es[i]) && RowIs(t.rows[k], es[i]))
    && RejectionsAre(t.rejections, es) && FrozenAre(t.frozen, es)
  }

  lemma BuiltHoldExactly(es: seq<Event>)
    requires OwnKeys(es)
    ensures HoldExactly(ApplyAll(Empty, es), es)
  {
    var t := ApplyAll(Empty, es);
    LogsAfter(Empty, es);
    LogsAre(es);
    assert t.rejections == [] + Rejections(es) == Rejections(es);
    assert t.frozen == [] + FrozenRows(es) == FrozenRows(es);
    forall k | k in t.rows ensures exists i :: 0 <= i < |es| && KeyIs(k, es[i]) && RowIs(t.rows[k], es[i]) {
      RowComesFrom(es, k);
    }
    hide RowIs, ApplyAll, RejectionsAre, FrozenAre;
    forall i: nat | i < |es| ensures Found(t, es[i]) {
      BuiltFinds(es, i);
    }
  }

  lemma BuiltFinds(es: seq<Event>, i: nat)
    requires OwnKeys(es) && i < |es|
    ensures Found(ApplyAll(Empty, es), es[i])
  {
    hide RowIs, ApplyAll, KeyIs, RowOf, KeyOf, Rejections, FrozenRows;
    if es[i].MemberRejected? || es[i].Frozen? {
      LogsAfter(Empty, es);
      FoundInLogs(es, i);
      assert [] + Rejections(es) == Rejections(es) && [] + FrozenRows(es) == FrozenRows(es);
    } else {
      var k := KeyedRow(es[i]);
      KeyIsStored(es, i, k);
      RowComesFrom(es, k);
      var j :| 0 <= j < |es| && KeyIs(k, es[j]) && RowIs(ApplyAll(Empty, es).rows[k], es[j]);
      assert j == i;
    }
  }

  lemma KeyedRow(e: Event) returns (k: Key)
    requires !e.MemberRejected? && !e.Frozen?
    ensures KeyIs(k, e)
  {
    k := KeyOf(e).value;
    KeyOfIs(k, e);
  }
}
