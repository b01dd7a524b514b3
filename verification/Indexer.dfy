/**
 * The reorg-safe follow loop of infra/indexer/src/indexer.ts over the tables of `EventStore`.
 *
 * A chain is the list of its blocks, a block the list of its events after `decodeEvent`
 * (`None` where that returns `undefined`). What the node answers is a parameter of each poll.
 */
module Indexer {
  import opened EventStore
  import opened Wrappers

  type Chain = seq<seq<Option<Event>>>

  /** `startBlock` and `reorgDepth`. */
  datatype Options = Options(startBlock: nat, reorgDepth: nat)

  datatype Db = Db(tables: Tables, cursor: Option<nat>)

  /** One answer of `getEvents`; `Lost` is a failed call, or the process dying before it. */
  datatype Page = Page(events: seq<Option<Event>>, more: bool) | Lost

  /**
   * One poll: the head the node reported, how many of the seven DELETEs of the purge ran (fewer
   * only if the process died there), the pages, and, auxiliary, the chain a completed poll read.
   */
  datatype Poll = Poll(head: nat, purged: nat, pages: seq<Page>, chain: Chain)

  const TABLES := 7

  function Decoded(raws: seq<Option<Event>>): seq<Event> {
    if raws == [] then []
    else (match raws[0] case Some(e) => [e] case None => []) + Decoded(raws[1..])
  }

  /** The events of the blocks in `[lo, hi)`, in chain order. */
  function Between(chain: Chain, lo: nat, hi: nat): seq<Event>
    requires lo <= hi <= |chain|
    decreases hi - lo
  {
    if lo == hi then [] else Between(chain, lo, hi - 1) + Decoded(chain[hi - 1])
  }

  /** The tables a fresh indexer has after applying every event of `[lo, hi)` once. */
  function Rebuild(chain: Chain, lo: nat, hi: nat): Tables
    requires lo <= hi <= |chain|
  {
    ApplyAll(Empty, Between(chain, lo, hi))
  }

  /** `max(startBlock, cursor.lastBlock - reorgDepth + 1)`, or `startBlock` without a cursor. */
  function FromBlock(o: Options, cursor: Option<nat>): nat {
    match cursor
    case None => o.startBlock
    case Some(last) =>
      var window := last - o.reorgDepth + 1;
      if o.startBlock >= window then o.startBlock else window
  }

  /** The place of a table in the loop of `purgeFromBlock`; rejections are 3, frozen events 6. */
  function TableIndex(k: Key): nat {
    match k
    case RunKey(_) => 0
    case AttemptKey(_) => 1
    case ReplayKey(_, _) => 2
    case VersionKey(_) => 4
    case GenesisKey(_, _) => 5
  }

  /** The purge, stopped after its first `n` DELETEs. */
  function PurgeFirst(t: Tables, from: nat, n: nat): Tables {
    Tables(map k | k in t.rows && (TableIndex(k) < n ==> t.rows[k].block < from) :: t.rows[k],
           if 3 < n then EventStore.Before(t.rejections, from) else t.rejections,
           if 6 < n then EventStore.Before(t.frozen, from) else t.frozen)
  }

  /** The events applied before the pages end, and whether they ended well. */
  function PageEvents(pages: seq<Page>): (seq<Event>, bool) {
    if pages == [] || pages[0].Lost? then ([], false)
    else if !pages[0].more then (Decoded(pages[0].events), true)
    else
      var (rest, done) := PageEvents(pages[1..]);
      (Decoded(pages[0].events) + rest, done)
  }

  /** `pollOnce` as a function of the database and of what the node answers. */
  function PollSpec(o: Options, db: Db, p: Poll): Db {
    var from := FromBlock(o, db.cursor);
    if from > p.head then db
    else if p.purged < TABLES then db.(tables := PurgeFirst(db.tables, from, p.purged))
    else
      var (events, done) := PageEvents(p.pages);
      Db(ApplyAll(Purge(db.tables, from), events), if done then Some(p.head) else db.cursor)
  }

  predicate Completes(o: Options, db: Db, p: Poll) {
    FromBlock(o, db.cursor) <= p.head && p.purged >= TABLES && PageEvents(p.pages).1
  }

  // ----- what the node and the contract guarantee ----------------------------------------------

  /** Every event carries the number of its own block. */
  ghost predicate WellFormed(chain: Chain) {
    forall b :: 0 <= b < |chain| ==> forall i :: 0 <= i < |Decoded(chain[b])| ==> Decoded(chain[b])[i].block == b
  }

  ghost predicate UniqueIn(es: seq<Event>) {
    forall i, j :: 0 <= i < j < |es| && KeyOf(es[i]).Some? ==> KeyOf(es[i]) != KeyOf(es[j])
  }

  /** Each row key is emitted at most once (the contract refuses a second time). */
  ghost predicate UniqueKeys(chain: Chain) {
    UniqueIn(Between(chain, 0, |chain|))
  }

  /** A chain the node may show after the poll that last set the cursor, of `last` up to its head. */
  ghost predicate FairView(o: Options, cursor: Option<nat>, last: Chain, view: Chain) {
    && WellFormed(view) && UniqueKeys(view)
    && (cursor.Some? ==>
          forall b: nat :: b + o.reorgDepth <= cursor.value ==> b < |view| && b < |last| && view[b] == last[b])
  }

  ghost predicate SeenIn(e: Event, view: Chain) {
    e.block < |view| && e in Decoded(view[e.block])
  }

  /**
   * What a poll may be answered: every event lies in the requested window and on some fair view,
   * possibly a different one for each; a poll that completes has read one fair view, whole.
   */
  ghost predicate FairPoll(o: Options, db: Db, last: Chain, p: Poll) {
    var from := FromBlock(o, db.cursor);
    from <= p.head && p.purged >= TABLES ==>
      && (forall e :: e in PageEvents(p.pages).0 ==>
            from <= e.block <= p.head && exists view :: FairView(o, db.cursor, last, view) && SeenIn(e, view))
      && (Completes(o, db, p) ==>
            && FairView(o, db.cursor, last, p.chain) && p.head < |p.chain|
            && PageEvents(p.pages).0 == Between(p.chain, from, p.head + 1))
  }

  /** What holds between polls: below the window the tables are those of the last chain read. */
  ghost predicate Settled(o: Options, db: Db, last: Chain) {
    match db.cursor
    case None => Purge(db.tables, o.startBlock) == Empty
    case Some(h) =>
      && o.startBlock <= h < |last| && WellFormed(last) && UniqueKeys(last)
      && FromBlock(o, db.cursor) <= h + 1
      && Purge(db.tables, FromBlock(o, db.cursor)) == Rebuild(last, o.startBlock, FromBlock(o, db.cursor))
  }

  // ----- stretches of a chain ------------------------------------------------------------------

  lemma {:induction false} BetweenConcat(chain: Chain, lo: nat, mid: nat, hi: nat)
    requires lo <= mid <= hi <= |chain|
    ensures Between(chain, lo, hi) == Between(chain, lo, mid) + Between(chain, mid, hi)
    decreases hi
  {
    if mid < hi {
      BetweenConcat(chain, lo, mid, hi - 1);
      var tail := Decoded(chain[hi - 1]);
      assert Between(chain, lo, mid) + (Between(chain, mid, hi - 1) + tail)
             == Between(chain, lo, mid) + Between(chain, mid, hi - 1) + tail;
    } else {
      assert Between(chain, lo, mid) + [] == Between(chain, lo, mid);
    }
  }

  lemma {:induction false} BetweenAgrees(a: Chain, b: Chain, lo: nat, hi: nat)
    requires lo <= hi <= |a| && hi <= |b| && forall i :: lo <= i < hi ==> a[i] == b[i]
    ensures Between(a, lo, hi) == Between(b, lo, hi)
    decreases hi - lo
  {
    if lo < hi {
      BetweenAgrees(a, b, lo, hi - 1);
    }
  }

  lemma {:induction false} BetweenBlocks(chain: Chain, lo: nat, hi: nat)
    requires lo <= hi <= |chain| && WellFormed(chain)
    ensures AllFrom(Between(chain, lo, hi), lo) && AllBelow(Between(chain, lo, hi), hi)
    decreases hi - lo
  {
    if lo < hi {
      BetweenBlocks(chain, lo, hi - 1);
    }
  }

  lemma {:induction false} InBetween(chain: Chain, lo: nat, hi: nat, e: Event)
    requires lo <= e.block < hi <= |chain| && e in Decoded(chain[e.block])
    ensures e in Between(chain, lo, hi)
    decreases hi - lo
  {
    hide Decoded;
    if e.block < hi - 1 {
      InBetween(chain, lo, hi - 1, e);
    }
  }

  lemma EmitsConcat(a: seq<Event>, b: seq<Event>, k: Key)
    ensures Emits(a + b, k) <==> Emits(a, k) || Emits(b, k)
  {
    if Emits(a, k) {
      var i :| 0 <= i < |a| && KeyOf(a[i]) == Some(k);
      assert KeyOf((a + b)[i]) == Some(k);
    }
    if Emits(b, k) {
      var i :| 0 <= i < |b| && KeyOf(b[i]) == Some(k);
      assert KeyOf((a + b)[|a| + i]) == Some(k);
    }
  }

  lemma UniqueAcross(a: seq<Event>, b: seq<Event>, k: Key, e: Event)
    requires UniqueIn(a + b) && Emits(a, k) && e in b
    ensures KeyOf(e) != Some(k)
  {
    var i :| 0 <= i < |a| && KeyOf(a[i]) == Some(k);
    var j :| 0 <= j < |b| && b[j] == e;
    assert (a + b)[i] == a[i] && (a + b)[|a| + j] == e;
  }

  /** A key emitted below `mid` on a chain with unique keys is not emitted from `mid` on. */
  lemma NotTwice(chain: Chain, lo: nat, mid: nat, k: Key, e: Event)
    requires lo <= mid <= e.block < |chain| && UniqueKeys(chain) && Emits(Between(chain, lo, mid), k)
    requires e in Decoded(chain[e.block])
    ensures KeyOf(e) != Some(k)
  {
    BetweenConcat(chain, 0, lo, mid);
    BetweenConcat(chain, 0, mid, |chain|);
    EmitsConcat(Between(chain, 0, lo), Between(chain, lo, mid), k);
    InBetween(chain, mid, |chain|, e);
    UniqueAcross(Between(chain, 0, mid), Between(chain, mid, |chain|), k, e);
  }

  // ----- what a purge undoes -------------------------------------------------------------------

  lemma PurgeRow(t: Tables, from: nat, k: Key)
    ensures RowAt(Purge(t, from), k) == if k in t.rows && t.rows[k].block < from then Some(t.rows[k]) else None
  {
  }

  /** The tables without the rows whose keys the events name. */
  function Without(t: Tables, es: seq<Event>): Tables {
    t.(rows := map k | k in t.rows && !Emits(es, k) :: t.rows[k])
  }

  /** Purging what was applied from `from` on brings back all but the older rows it overwrote. */
  lemma PurgeForgets(t: Tables, from: nat, es: seq<Event>)
    requires Purge(t, from) == t && AllFrom(es, from)
    ensures Purge(ApplyAll(t, es), from) == Without(t, es)
  {
    var u := ApplyAll(t, es);
    forall k ensures RowAt(Purge(u, from), k) == RowAt(Without(t, es), k) {
      RowsAfter(t, es, k);
      RowAfterCases(RowAt(t, k), es, k);
      PurgeRow(u, from, k);
      PurgeRow(t, from, k);
      assert RowAt(u, k) == RowAfter(RowAt(t, k), es, k);
    }
    LogsAfter(t, es);
    LogsBefore(es, from);
    BeforeConcat(t.rejections, Rejections(es), from);
    BeforeConcat(t.frozen, FrozenRows(es), from);
    assert Purge(u, from).rejections == t.rejections + [] && Purge(u, from).frozen == t.frozen + [];
    SameTables(Purge(u, from), Without(t, es));
  }

  /**
   * Purging forgets exactly what was applied from `from` on, provided no key of those events
   * has a row below: the tables purged, filled and purged again are the tables purged.
   */
  lemma PurgeUndoes(t: Tables, from: nat, es: seq<Event>)
    requires Purge(t, from) == t
    requires AllFrom(es, from)
    requires forall k :: k in t.rows ==> !Emits(es, k)
    ensures Purge(ApplyAll(t, es), from) == t
  {
    PurgeForgets(t, from, es);
    assert Without(t, es).rows == t.rows;
  }

  lemma PurgeTwice(t: Tables, from: nat)
    ensures Purge(Purge(t, from), from) == Purge(t, from)
  {
    BeforeTwice(t.rejections, from);
    BeforeTwice(t.frozen, from);
    assert Purge(Purge(t, from), from).rows == Purge(t, from).rows;
  }

  /** A purge that died half-way is finished by the next one. */
  lemma PurgeFinishes(t: Tables, from: nat, n: nat)
    ensures Purge(PurgeFirst(t, from, n), from) == Purge(t, from)
    ensures n >= TABLES ==> PurgeFirst(t, from, n) == Purge(t, from)
  {
    BeforeTwice(t.rejections, from);
    BeforeTwice(t.frozen, from);
    assert Purge(PurgeFirst(t, from, n), from).rows == Purge(t, from).rows;
    if n >= TABLES {
      assert forall k: Key :: TableIndex(k) < n;
      assert PurgeFirst(t, from, n).rows == Purge(t, from).rows;
    }
  }

  /** Tables built from a chain with unique keys lose nothing below `from` and everything above. */
  lemma PurgeRebuild(chain: Chain, lo: nat, from: nat, hi: nat)
    requires lo <= from <= hi <= |chain| && WellFormed(chain) && UniqueKeys(chain)
    ensures Purge(Rebuild(chain, lo, hi), from) == Rebuild(chain, lo, from)
  {
    var low, high := Between(chain, lo, from), Between(chain, from, hi);
    BetweenConcat(chain, lo, from, hi);
    ApplyAllConcat(Empty, low, high);
    BetweenBlocks(chain, lo, from);
    BetweenBlocks(chain, from, hi);
    var t := Rebuild(chain, lo, from);
    RebuildBelow(low, from);
    forall k | k in t.rows ensures !Emits(high, k) {
      RowsAfter(Empty, low, k);
      RowAfterCases(None, low, k);
      BetweenConcat(chain, 0, from, |chain|);
      BetweenConcat(chain, 0, lo, from);
      EmitsConcat(Between(chain, 0, lo), low, k);
      BetweenConcat(chain, from, hi, |chain|);
      if Emits(high, k) {
        var i :| 0 <= i < |high| && KeyOf(high[i]) == Some(k);
        UniqueAcross(Between(chain, 0, from), Between(chain, from, |chain|), k, high[i]);
      }
    }
    PurgeUndoes(t, from, high);
  }

  /** A purge leaves tables built from older blocks alone. */
  lemma RebuildBelow(es: seq<Event>, from: nat)
    requires AllBelow(es, from)
    ensures Purge(ApplyAll(Empty, es), from) == ApplyAll(Empty, es)
  {
    var t := ApplyAll(Empty, es);
    forall k ensures RowAt(Purge(t, from), k) == RowAt(t, k) {
      RowsAfter(Empty, es, k);
      RowAfterCases(None, es, k);
      PurgeRow(t, from, k);
    }
    LogsAfter(Empty, es);
    LogsBefore(es, from);
    assert t.rejections == [] + Rejections(es) == Rejections(es);
    assert t.frozen == [] + FrozenRows(es) == FrozenRows(es);
    SameTables(Purge(t, from), t);
  }

  // ----- one poll ------------------------------------------------------------------------------

  /** The window of a settled database holds nothing of the final blocks. */
  lemma WindowIsNew(o: Options, db: Db, last: Chain, view: Chain)
    requires Settled(o, db, last) && FairView(o, db.cursor, last, view)
    ensures var from := FromBlock(o, db.cursor);
            && o.startBlock <= from
            && (db.cursor.Some? && o.startBlock < from ==>
                  && from <= |last| && from <= |view|
                  && Between(last, o.startBlock, from) == Between(view, o.startBlock, from))
  {
    var from := FromBlock(o, db.cursor);
    if db.cursor.Some? && o.startBlock < from {
      assert from == db.cursor.value - o.reorgDepth + 1;
      assert from - 1 < |view| && from - 1 < |last|;
      forall i | o.startBlock <= i < from ensures last[i] == view[i] {
        assert i + o.reorgDepth <= db.cursor.value;
      }
      BetweenAgrees(last, view, o.startBlock, from);
    }
  }

  /** The keys that survive the purge are none of those a poll may still be told of. */
  lemma KeptKeysAreOld(o: Options, db: Db, last: Chain, es: seq<Event>)
    requires Settled(o, db, last)
    requires forall e :: e in es ==>
               FromBlock(o, db.cursor) <= e.block &&
               exists view :: FairView(o, db.cursor, last, view) && SeenIn(e, view)
    ensures forall k :: k in Purge(db.tables, FromBlock(o, db.cursor)).rows ==> !Emits(es, k)
  {
    var from := FromBlock(o, db.cursor);
    var t := Purge(db.tables, from);
    forall k | k in t.rows ensures !Emits(es, k) {
      if Emits(es, k) {
        var i :| 0 <= i < |es| && KeyOf(es[i]) == Some(k);
        var e := es[i];
        assert e in es;
        var view :| FairView(o, db.cursor, last, view) && SeenIn(e, view);
        WindowIsNew(o, db, last, view);
        RowsAfter(Empty, Between(last, o.startBlock, from), k);
        RowAfterCases(None, Between(last, o.startBlock, from), k);
        NotTwice(view, o.startBlock, from, k, e);
      }
    }
  }

  /** A poll that does not complete leaves the database settled: what it did is forgotten by the next purge. */
  lemma FailedPollSettled(o: Options, db: Db, last: Chain, p: Poll)
    requires Settled(o, db, last) && FairPoll(o, db, last, p) && !Completes(o, db, p)
    ensures Settled(o, PollSpec(o, db, p), last) && PollSpec(o, db, p).cursor == db.cursor
  {
    hide Rebuild, UniqueKeys, WellFormed, FairView;
    var from := FromBlock(o, db.cursor);
    if from <= p.head {
      if p.purged < TABLES {
        PurgeFinishes(db.tables, from, p.purged);
      } else {
        var es := PageEvents(p.pages).0;
        KeptKeysAreOld(o, db, last, es);
        PurgeTwice(db.tables, from);
        PurgeUndoes(Purge(db.tables, from), from, es);
      }
    }
  }

  /** A poll that completes leaves exactly the tables of the chain it read, rebuilt from scratch. */
  lemma CompletedPollExact(o: Options, db: Db, last: Chain, p: Poll)
    requires Settled(o, db, last) && FairPoll(o, db, last, p) && Completes(o, db, p)
    ensures var db' := PollSpec(o, db, p);
            && o.startBlock <= p.head < |p.chain|
            && db' == Db(Rebuild(p.chain, o.startBlock, p.head + 1), Some(p.head))
            && Settled(o, db', p.chain)
  {
    hide PollSpec, FairPoll, FairView, Rebuild, Purge, WellFormed, UniqueKeys, Settled, Completes, Between, ApplyAll, PageEvents, FromBlock;
    WindowRebuilt(o, db, last, p);
    CompletedDb(o, db, last, p);
    NextWindow(o, p.head);
    RebuiltMore(p.chain, o.startBlock, FromBlock(o, db.cursor), p.head + 1);
    PurgeRebuild(p.chain, o.startBlock, FromBlock(o, Some(p.head)), p.head + 1);
    RebuiltIsSettled(o, p.chain, p.head);
  }

  lemma RebuiltIsSettled(o: Options, chain: Chain, head: nat)
    requires o.startBlock <= head < |chain| && WellFormed(chain) && UniqueKeys(chain)
    requires o.startBlock <= FromBlock(o, Some(head)) <= head + 1
    requires Purge(Rebuild(chain, o.startBlock, head + 1), FromBlock(o, Some(head))) == Rebuild(chain, o.startBlock, FromBlock(o, Some(head)))
    ensures Settled(o, Db(Rebuild(chain, o.startBlock, head + 1), Some(head)), chain)
  {
    hide Purge, Rebuild, WellFormed, UniqueKeys;
  }

  /** Below the window the purged tables are already those of the chain about to be read. */
  lemma WindowRebuilt(o: Options, db: Db, last: Chain, p: Poll)
    requires Settled(o, db, last) && FairPoll(o, db, last, p) && Completes(o, db, p)
    ensures var from := FromBlock(o, db.cursor);
            && o.startBlock <= from <= p.head < |p.chain| && WellFormed(p.chain) && UniqueKeys(p.chain)
            && Purge(db.tables, from) == Rebuild(p.chain, o.startBlock, from)
  {
    hide Purge, WellFormed, UniqueKeys, PageEvents, ApplyAll;
    WindowIsNew(o, db, last, p.chain);
    NothingBetween(p.chain, o.startBlock);
    if db.cursor.Some? {
      NothingBetween(last, o.startBlock);
    }
  }

  lemma NothingBetween(chain: Chain, lo: nat)
    requires lo <= |chain|
    ensures Between(chain, lo, lo) == [] && ApplyAll(Empty, []) == Empty
  {
  }

  lemma CompletedDb(o: Options, db: Db, last: Chain, p: Poll)
    requires FairPoll(o, db, last, p) && Completes(o, db, p) && p.head < |p.chain|
    ensures var from := FromBlock(o, db.cursor);
            PollSpec(o, db, p) == Db(ApplyAll(Purge(db.tables, from), Between(p.chain, from, p.head + 1)), Some(p.head))
  {
    hide Purge, ApplyAll, Between;
  }

  lemma RebuiltMore(chain: Chain, lo: nat, mid: nat, hi: nat)
    requires lo <= mid <= hi <= |chain|
    ensures ApplyAll(Rebuild(chain, lo, mid), Between(chain, mid, hi)) == Rebuild(chain, lo, hi)
  {
    hide Between, ApplyAll;
    BetweenConcat(chain, lo, mid, hi);
    ApplyAllConcat(Empty, Between(chain, lo, mid), Between(chain, mid, hi));
  }

  lemma NextWindow(o: Options, head: nat)
    requires o.startBlock <= head
    ensures o.startBlock <= FromBlock(o, Some(head)) <= head + 1
  {
  }

  /** No poll, failed or not, touches a row of a block deeper than the reorg depth, unless its key is emitted again. */
  lemma DeepRowsStay(o: Options, db: Db, p: Poll, k: Key)
    requires db.cursor.Some? && k in db.tables.rows && db.tables.rows[k].block + o.reorgDepth <= db.cursor.value
    requires !Emits(PageEvents(p.pages).0, k)
    ensures RowAt(PollSpec(o, db, p).tables, k) == RowAt(db.tables, k)
  {
    hide PageEvents, Emits, ApplyAll;
    var from := FromBlock(o, db.cursor);
    var es := PageEvents(p.pages).0;
    PurgeRow(db.tables, from, k);
    RowsAfter(Purge(db.tables, from), es, k);
    RowAfterCases(RowAt(Purge(db.tables, from), k), es, k);
  }

  // ----- any number of polls -------------------------------------------------------------------

  /** The chain read by the last completed poll. */
  function LastChain(o: Options, db: Db, last: Chain, p: Poll): Chain {
    if Completes(o, db, p) then p.chain else last
  }

  ghost predicate FairRun(o: Options, db: Db, last: Chain, polls: seq<Poll>)
    decreases |polls|
  {
    polls == [] ||
    (FairPoll(o, db, last, polls[0])
     && FairRun(o, PollSpec(o, db, polls[0]), LastChain(o, db, last, polls[0]), polls[1..]))
  }

  function RunPolls(o: Options, db: Db, polls: seq<Poll>): Db
    decreases |polls|
  {
    if polls == [] then db else RunPolls(o, PollSpec(o, db, polls[0]), polls[1..])
  }

  function ChainAfter(o: Options, db: Db, last: Chain, polls: seq<Poll>): Chain
    decreases |polls|
  {
    if polls == [] then last
    else ChainAfter(o, PollSpec(o, db, polls[0]), LastChain(o, db, last, polls[0]), polls[1..])
  }

  lemma {:induction false} RunSettled(o: Options, db: Db, last: Chain, polls: seq<Poll>)
    requires Settled(o, db, last) && FairRun(o, db, last, polls)
    ensures Settled(o, RunPolls(o, db, polls), ChainAfter(o, db, last, polls))
    decreases |polls|
  {
    hide Settled, PollSpec, FairPoll, Completes;
    if polls != [] {
      if Completes(o, db, polls[0]) {
        CompletedPollExact(o, db, last, polls[0]);
      } else {
        FailedPollSettled(o, db, last, polls[0]);
      }
      RunSettled(o, PollSpec(o, db, polls[0]), LastChain(o, db, last, polls[0]), polls[1..]);
    }
  }

  lemma {:induction false} FairRunSplit(o: Options, db: Db, last: Chain, polls: seq<Poll>, p: Poll)
    requires FairRun(o, db, last, polls + [p])
    ensures FairRun(o, db, last, polls)
    ensures FairPoll(o, RunPolls(o, db, polls), ChainAfter(o, db, last, polls), p)
    ensures RunPolls(o, db, polls + [p]) == PollSpec(o, RunPolls(o, db, polls), p)
    decreases |polls|
  {
    hide PollSpec, FairPoll, Completes;
    if polls != [] {
      assert (polls + [p])[1..] == polls[1..] + [p];
      FairRunSplit(o, PollSpec(o, db, polls[0]), LastChain(o, db, last, polls[0]), polls[1..], p);
    } else {
      assert (polls + [p])[1..] == [];
    }
  }

  /**
   * Through any mix of failed polls, restarts, shorter heads and forks: after every poll that
   * sets the cursor the tables are those of applying, once and in order, every event of the chain
   * it read from `startBlock` to the head it reported.
   */
  lemma TablesFollowChain(o: Options, polls: seq<Poll>, p: Poll)
    requires FairRun(o, Db(Empty, None), [], polls + [p])
    requires Completes(o, RunPolls(o, Db(Empty, None), polls), p)
    ensures o.startBlock <= p.head < |p.chain|
    ensures RunPolls(o, Db(Empty, None), polls + [p]) ==
            Db(Rebuild(p.chain, o.startBlock, p.head + 1), Some(p.head))
  {
    var db0 := Db(Empty, None);
    assert Purge(Empty, o.startBlock) == Empty;
    FairRunSplit(o, db0, [], polls, p);
    RunSettled(o, db0, [], polls);
    CompletedPollExact(o, RunPolls(o, db0, polls), ChainAfter(o, db0, [], polls), p);
  }

  /**
   * Row by row: after every poll that sets the cursor, each event of the chain it read, from
   * `startBlock` to the head, is in the table of its kind with its own fields, every keyed row is one
   * of them, and the two logs list theirs in order.
   */
  lemma EveryEventStored(o: Options, polls: seq<Poll>, p: Poll)
    requires FairRun(o, Db(Empty, None), [], polls + [p])
    requires Completes(o, RunPolls(o, Db(Empty, None), polls), p)
    ensures o.startBlock <= p.head < |p.chain|
    ensures HoldExactly(RunPolls(o, Db(Empty, None), polls + [p]).tables, Between(p.chain, o.startBlock, p.head + 1))
  {
    hide HoldExactly, FairPoll, FairView, PollSpec, Completes;
    TablesFollowChain(o, polls, p);
    var db := RunPolls(o, Db(Empty, None), polls);
    FairRunSplit(o, Db(Empty, None), [], polls, p);
    ReadIsUnique(o, db, ChainAfter(o, Db(Empty, None), [], polls), p);
    hide *;
    WindowOwnKeys(p.chain, o.startBlock, p.head + 1);
    BuiltHoldExactly(Between(p.chain, o.startBlock, p.head + 1));
    RebuildIs(p.chain, o.startBlock, p.head + 1);
  }

  lemma RebuildIs(chain: Chain, lo: nat, hi: nat)
    requires lo <= hi <= |chain|
    ensures Rebuild(chain, lo, hi) == ApplyAll(Empty, Between(chain, lo, hi))
  {
  }

  lemma ReadIsUnique(o: Options, db: Db, last: Chain, p: Poll)
    requires FairPoll(o, db, last, p) && Completes(o, db, p)
    ensures UniqueKeys(p.chain)
  {
    hide UniqueKeys, WellFormed;
  }

  /** Within a stretch of a chain with unique keys no two events share a key. */
  lemma WindowOwnKeys(chain: Chain, lo: nat, hi: nat)
    requires lo <= hi <= |chain| && UniqueKeys(chain)
    ensures OwnKeys(Between(chain, lo, hi))
  {
    BetweenConcat(chain, 0, lo, |chain|);
    BetweenConcat(chain, lo, hi, |chain|);
    var a, b, c := Between(chain, 0, lo), Between(chain, lo, hi), Between(chain, hi, |chain|);
    var all := a + (b + c);
    forall i, j, k | 0 <= i < j < |b| && KeyIs(k, b[i]) ensures !KeyIs(k, b[j]) {
      assert all[|a| + i] == b[i] && all[|a| + j] == b[j];
      KeyOfIs(k, b[i]);
      KeyOfIs(k, b[j]);
    }
  }

  // ----- what a key emitted twice would do -----------------------------------------------------

  /** Polls that do not complete, each told of nothing below its window. */
  ghost predicate AllFail(o: Options, db: Db, polls: seq<Poll>)
    decreases |polls|
  {
    polls == [] ||
    (!Completes(o, db, polls[0]) && AllFrom(PageEvents(polls[0].pages).0, FromBlock(o, db.cursor))
     && AllFail(o, PollSpec(o, db, polls[0]), polls[1..]))
  }

  /** The events one poll gets to apply. */
  function AppliedBy(o: Options, db: Db, p: Poll): seq<Event> {
    if FromBlock(o, db.cursor) <= p.head && p.purged >= TABLES then PageEvents(p.pages).0 else []
  }

  function Applied(o: Options, db: Db, polls: seq<Poll>): seq<Event>
    decreases |polls|
  {
    if polls == [] then [] else AppliedBy(o, db, polls[0]) + Applied(o, PollSpec(o, db, polls[0]), polls[1..])
  }

  lemma WithoutBoth(t: Tables, a: seq<Event>, b: seq<Event>)
    ensures Without(Without(t, a), b) == Without(t, a + b)
  {
    forall k ensures RowAt(Without(Without(t, a), b), k) == RowAt(Without(t, a + b), k) {
      EmitsConcat(a, b, k);
    }
    SameTables(Without(Without(t, a), b), Without(t, a + b));
  }

  /** A failed poll leaves, below the window, all but the rows its events overwrote. */
  lemma FailedPollKeeps(o: Options, db: Db, p: Poll)
    requires !Completes(o, db, p) && AllFrom(PageEvents(p.pages).0, FromBlock(o, db.cursor))
    ensures PollSpec(o, db, p).cursor == db.cursor
    ensures var from := FromBlock(o, db.cursor);
            Purge(PollSpec(o, db, p).tables, from) == Without(Purge(db.tables, from), AppliedBy(o, db, p))
  {
    hide Purge, PageEvents, PurgeFirst, Without;
    var from := FromBlock(o, db.cursor);
    var t := Purge(db.tables, from);
    WithoutNothing(t);
    if from <= p.head {
      if p.purged < TABLES {
        PurgeFinishes(db.tables, from, p.purged);
      } else {
        PurgeTwice(db.tables, from);
        PurgeForgets(t, from, PageEvents(p.pages).0);
      }
    }
  }

  lemma WithoutNothing(t: Tables)
    ensures Without(t, []) == t
  {
    assert Without(t, []).rows == t.rows;
  }

  lemma {:induction false} FailedPollsKeep(o: Options, db: Db, polls: seq<Poll>, t: Tables, over: seq<Event>)
    requires AllFail(o, db, polls) && Purge(db.tables, FromBlock(o, db.cursor)) == Without(t, over)
    ensures RunPolls(o, db, polls).cursor == db.cursor
    ensures Purge(RunPolls(o, db, polls).tables, FromBlock(o, db.cursor)) == Without(t, over + Applied(o, db, polls))
    decreases |polls|
  {
    hide Purge, PollSpec, Without, Completes, FromBlock, AppliedBy;
    if polls == [] {
      assert over + [] == over;
    } else {
      var p := polls[0];
      FailedPollKeeps(o, db, p);
      WithoutBoth(t, over, AppliedBy(o, db, p));
      FailedPollsKeep(o, PollSpec(o, db, p), polls[1..], t, over + AppliedBy(o, db, p));
      assert over + AppliedBy(o, db, p) + Applied(o, PollSpec(o, db, p), polls[1..]) == over + Applied(o, db, polls);
    }
  }

  lemma {:induction false} RunPollsSnoc(o: Options, db: Db, polls: seq<Poll>, p: Poll)
    ensures RunPolls(o, db, polls + [p]) == PollSpec(o, RunPolls(o, db, polls), p)
    decreases |polls|
  {
    hide PollSpec;
    if polls == [] {
      assert ([p])[1..] == [];
    } else {
      assert (polls + [p])[1..] == polls[1..] + [p];
      RunPollsSnoc(o, PollSpec(o, db, polls[0]), polls[1..], p);
    }
  }

  /**
   * Without unique keys, a poll that completes after a good one and any number of failed ones is
   * right exactly when no row goes missing: every key of the blocks below the window that the old
   * chain, or one of the failed polls, gave again inside it is emitted inside the window of the new
   * chain too. (Otherwise its older row was overwritten, then purged.)
   */
  lemma RescanExactly(o: Options, previous: Chain, h: nat, failed: seq<Poll>, p: Poll)
    requires o.startBlock <= h < |previous| && WellFormed(previous) && WellFormed(p.chain)
    requires var db, from := Db(Rebuild(previous, o.startBlock, h + 1), Some(h)), FromBlock(o, Some(h));
             && AllFail(o, db, failed) && Completes(o, RunPolls(o, db, failed), p)
             && from <= p.head < |p.chain| && PageEvents(p.pages).0 == Between(p.chain, from, p.head + 1)
    requires forall b :: 0 <= b < FromBlock(o, Some(h)) ==> b < |p.chain| && b < |previous| && previous[b] == p.chain[b]
    ensures o.startBlock <= FromBlock(o, Some(h)) <= h + 1
    ensures var db, from := Db(Rebuild(previous, o.startBlock, h + 1), Some(h)), FromBlock(o, Some(h));
            RunPolls(o, db, failed + [p]).tables == Rebuild(p.chain, o.startBlock, p.head + 1)
            <==> NothingMissing(Between(previous, o.startBlock, from),
                                Between(previous, from, h + 1) + Applied(o, db, failed),
                                Between(p.chain, from, p.head + 1))
  {
    hide WellFormed, AllFail, Rebuild, RunPolls, PageEvents, Completes, Applied, NothingMissing, Without, ApplyAll, Purge, Between;
    NextWindow(o, h);
    var db, from := Db(Rebuild(previous, o.startBlock, h + 1), Some(h)), FromBlock(o, Some(h));
    var low, lost, gained := Between(previous, o.startBlock, from), Between(previous, from, h + 1), Between(p.chain, from, p.head + 1);
    BetweenAgrees(previous, p.chain, o.startBlock, from);
    WindowsAre(previous, o.startBlock, from, h + 1);
    WindowsAre(p.chain, o.startBlock, from, p.head + 1);
    RescannedTables(o, db, h, low, lost, failed, p);
    GainedExactly(low, lost + Applied(o, db, failed), gained);
  }

  lemma WindowsAre(chain: Chain, lo: nat, from: nat, hi: nat)
    requires lo <= from <= hi <= |chain| && WellFormed(chain)
    ensures Rebuild(chain, lo, hi) == ApplyAll(Empty, Between(chain, lo, from) + Between(chain, from, hi))
    ensures AllBelow(Between(chain, lo, from), from) && AllFrom(Between(chain, from, hi), from)
  {
    BetweenConcat(chain, lo, from, hi);
    BetweenBlocks(chain, lo, from);
    BetweenBlocks(chain, from, hi);
  }

  /** Every key emitted below the window and again inside it is among those gained. */
  ghost predicate NothingMissing(low: seq<Event>, over: seq<Event>, gained: seq<Event>) {
    forall k :: Emits(low, k) && Emits(over, k) ==> Emits(gained, k)
  }

  /** The tables after the failed polls and the completed one. */
  lemma RescannedTables(o: Options, db: Db, h: nat, low: seq<Event>, lost: seq<Event>, failed: seq<Poll>, p: Poll)
    requires db == Db(ApplyAll(Empty, low + lost), Some(h)) && AllFail(o, db, failed)
    requires AllBelow(low, FromBlock(o, Some(h))) && AllFrom(lost, FromBlock(o, Some(h)))
    requires Completes(o, RunPolls(o, db, failed), p)
    ensures RunPolls(o, db, failed + [p]).tables ==
            ApplyAll(Without(ApplyAll(Empty, low), lost + Applied(o, db, failed)), PageEvents(p.pages).0)
  {
    hide Purge, ApplyAll, AllFail, PageEvents, RunPolls, Without, Applied;
    var from := FromBlock(o, Some(h));
    RunPollsSnoc(o, db, failed, p);
    ApplyAllConcat(Empty, low, lost);
    RebuildBelow(low, from);
    PurgeForgets(ApplyAll(Empty, low), from, lost);
    FailedPollsKeep(o, db, failed, ApplyAll(Empty, low), lost);
  }

  /** What was lost below the window is made good exactly by being emitted again above it. */
  lemma GainedExactly(low: seq<Event>, over: seq<Event>, gained: seq<Event>)
    ensures ApplyAll(Without(ApplyAll(Empty, low), over), gained) == ApplyAll(Empty, low + gained)
            <==> NothingMissing(low, over, gained)
  {
    hide ApplyAll, Without, Emits;
    var a := ApplyAll(Without(ApplyAll(Empty, low), over), gained);
    var b := ApplyAll(Empty, low + gained);
    forall k
      ensures RowAt(a, k) == RowAt(b, k) <==> (Emits(low, k) && Emits(over, k) ==> Emits(gained, k))
    {
      RowExactly(low, over, gained, k);
    }
    ApplyAllConcat(Empty, low, gained);
    LogsAfter(ApplyAll(Empty, low), gained);
    LogsAfter(Without(ApplyAll(Empty, low), over), gained);
    WithoutKeepsLogs(ApplyAll(Empty, low), over);
    if forall k :: RowAt(a, k) == RowAt(b, k) {
      SameTables(a, b);
    }
  }

  lemma WithoutKeepsLogs(t: Tables, es: seq<Event>)
    ensures Without(t, es).rejections == t.rejections && Without(t, es).frozen == t.frozen
  {
  }

  lemma RowExactly(low: seq<Event>, over: seq<Event>, gained: seq<Event>, k: Key)
    ensures var a := ApplyAll(Without(ApplyAll(Empty, low), over), gained);
            var b := ApplyAll(Empty, low + gained);
            RowAt(a, k) == RowAt(b, k) <==> (Emits(low, k) && Emits(over, k) ==> Emits(gained, k))
  {
    hide Emits;
    var t := ApplyAll(Empty, low);
    ApplyAllConcat(Empty, low, gained);
    RowsAfter(Empty, low, k);
    RowsAfter(t, gained, k);
    RowsAfter(Without(t, over), gained, k);
    RowAfterCases(None, low, k);
    RowAfterCases(RowAt(t, k), gained, k);
    RowAfterCases(RowAt(Without(t, over), k), gained, k);
  }

  /** Such a run exists: a genesis set in block 0 and again in block 1, whose block 1 is then replaced by an empty one. */
  lemma RescanCanLoseRow()
    ensures var first, again := GenesisSet(1, 1, 7, 0, 0), GenesisSet(1, 1, 9, 1, 1);
            var o := Options(0, 1);
            var fork: Chain := [[Some(first)], [Some(again)]];
            var chain: Chain := [[Some(first)], []];
            var db := PollSpec(o, Db(Empty, None), Poll(1, TABLES, [Page([Some(first), Some(again)], false)], fork));
            && db.tables == Rebuild(fork, 0, 2)
            && PollSpec(o, db, Poll(1, TABLES, [Page([], false)], chain)).tables == Empty
            && GenesisKey(1, 1) in Rebuild(chain, 0, 2).rows
  {
    var first, again := GenesisSet(1, 1, 7, 0, 0), GenesisSet(1, 1, 9, 1, 1);
    OneByOne(first, again);
    SetTwice(first, again);
    assert Purge(Empty, 0) == Empty;
  }

  /**
   * It is enough that a failed poll was told of the key: the second genesis is seen on a page of a
   * poll that then loses its connection, on a fork that no completed poll ever reads.
   */
  lemma FailedPollCanLoseRow()
    ensures var first, again := GenesisSet(1, 1, 7, 0, 0), GenesisSet(1, 1, 9, 1, 1);
            var o := Options(0, 1);
            var chain: Chain := [[Some(first)], []];
            var db := PollSpec(o, Db(Empty, None), Poll(1, TABLES, [Page([Some(first)], false)], chain));
            var torn := PollSpec(o, db, Poll(1, TABLES, [Page([Some(again)], true), Lost], []));
            && db == Db(Rebuild(chain, 0, 2), Some(1))
            && torn.cursor == Some(1)
            && PollSpec(o, torn, Poll(1, TABLES, [Page([], false)], chain)) == Db(Empty, Some(1))
            && GenesisKey(1, 1) in Rebuild(chain, 0, 2).rows
  {
    var first, again := GenesisSet(1, 1, 7, 0, 0), GenesisSet(1, 1, 9, 1, 1);
    OneByOne(first, again);
    SetTwice(first, again);
    TornPages(first, again);
    assert Purge(Empty, 0) == Empty;
    hide PageEvents, Purge, ApplyAll, Decoded, Between;
    SetAgain(ApplyAll(Empty, [first]), first, again);
  }

  lemma TornPages(first: Event, again: Event)
    ensures PageEvents([Page([Some(first)], false)]) == ([first], true) && PageEvents([Page([], false)]) == ([], true)
    ensures PageEvents([Page([Some(again)], true), Lost]) == ([again] + [], false)
  {
    assert [Some(first)][1..] == [] && [Some(again)][1..] == [];
    assert Decoded([Some(first)]) == [first] && Decoded([Some(again)]) == [again];
    var pages := [Page([Some(again)], true), Lost];
    assert pages[1..] == [Lost];
    assert PageEvents([Lost]) == ([], false);
  }

  /** A genesis kept by the purge, overwritten, and purged away. */
  lemma SetAgain(t: Tables, first: Event, again: Event)
    requires first.GenesisSet? && again.GenesisSet? && KeyOf(first) == KeyOf(again) && first.block == 0 && again.block == 1
    requires t == ApplyAll(Empty, [first])
    ensures Purge(ApplyAll(Purge(t, 1), [again] + []), 1) == Empty
  {
    SetTwice(first, again);
    var k := KeyOf(first).value;
    assert [again] + [] == [again] && [again][1..] == [] && [first][1..] == [];
    assert ApplyAll(Empty, [first]) == ApplyAll(Apply(Empty, first), [first][1..]);
    assert t.rows == map[k := RowOf(first)];
    assert Purge(t, 1) == t;
    assert ApplyAll(t, [again]) == ApplyAll(Apply(t, again), [again][1..]);
    assert Apply(t, again).rows == map[k := RowOf(again)];
  }

  /** The blocks and pages of the example, decoded. */
  lemma OneByOne(first: Event, again: Event)
    ensures Decoded([]) == [] && Decoded([Some(first), Some(again)]) == [first, again]
    ensures Between([[Some(first)], [Some(again)]], 0, 2) == [first, again]
    ensures Between([[Some(first)], []], 0, 2) == [first]
  {
    assert [Some(first)][1..] == [] && [Some(again)][1..] == [] && [Some(first), Some(again)][1..] == [Some(again)];
    assert Decoded([Some(first)]) == [first] && Decoded([Some(again)]) == [again];
    var fork: Chain := [[Some(first)], [Some(again)]];
    assert Between(fork, 0, 1) == Between(fork, 0, 0) + Decoded(fork[0]);
    var chain: Chain := [[Some(first)], []];
    assert Between(chain, 0, 1) == Between(chain, 0, 0) + Decoded(chain[0]);
  }

  /** The second row overwrites the first, and the purge takes it away. */
  lemma SetTwice(first: Event, again: Event)
    requires first.GenesisSet? && again.GenesisSet? && KeyOf(first) == KeyOf(again) && first.block == 0 && again.block == 1
    ensures Purge(ApplyAll(Empty, [first, again]), 1) == Empty
    ensures ApplyAll(Empty, [first]) == Apply(Empty, first) && KeyOf(first).value in Apply(Empty, first).rows
    ensures ApplyAll(Empty, []) == Empty
  {
    var k := KeyOf(first).value;
    assert [first, again][1..] == [again] && [again][1..] == [] && [first][1..] == [];
    assert ApplyAll(Apply(Empty, first), [again]) == Apply(Apply(Empty, first), again);
    assert ApplyAll(Empty, [first, again]) == ApplyAll(Apply(Empty, first), [again]);
    assert Apply(Apply(Empty, first), again).rows == map[k := RowOf(again)];
  }

  // ----- the object ----------------------------------------------------------------------------

  /** One DELETE of the purge: table number `n`. */
  function PurgeOne(t: Tables, from: nat, n: nat): Tables {
    if n == 3 then t.(rejections := EventStore.Before(t.rejections, from))
    else if n == 6 then t.(frozen := EventStore.Before(t.frozen, from))
    else t.(rows := map k | k in t.rows && (TableIndex(k) == n ==> t.rows[k].block < from) :: t.rows[k])
  }

  lemma PurgeNext(t: Tables, from: nat, n: nat)
    ensures PurgeOne(PurgeFirst(t, from, n), from, n) == PurgeFirst(t, from, n + 1)
    ensures PurgeFirst(t, from, 0) == t
  {
    assert PurgeOne(PurgeFirst(t, from, n), from, n).rows == PurgeFirst(t, from, n + 1).rows;
    assert PurgeFirst(t, from, 0).rows == t.rows;
  }

  /** What the pages from the i-th on hold. */
  lemma PagesLeft(pages: seq<Page>, i: nat)
    requires i <= |pages|
    ensures PageEvents(pages[i..]) ==
            if i == |pages| || pages[i].Lost? then ([], false)
            else if !pages[i].more then (Decoded(pages[i].events), true)
            else (Decoded(pages[i].events) + PageEvents(pages[i + 1..]).0, PageEvents(pages[i + 1..]).1)
  {
    hide Decoded;
    if i < |pages| {
      assert pages[i..][1..] == pages[i + 1..];
    }
  }

  lemma NothingApplied(t: Tables)
    ensures ApplyAll(t, []) == t
  {
  }

  /** `IndexerDb` with the follow loop's one poll as a method on it. */
  class IndexerDb {
    var tables: Tables
    var cursor: Option<nat>

    constructor ()
      ensures tables == Empty && cursor == None
    {
      tables := Empty;
      cursor := None;
    }

    method PurgeFromBlock(from: nat)
      modifies this`tables
      ensures tables == Purge(old(tables), from)
    {
      PurgeNext(tables, from, 0);
      for n := 0 to TABLES
        invariant tables == PurgeFirst(old(tables), from, n)
      {
        PurgeNext(old(tables), from, n);
        tables := PurgeOne(tables, from, n);
      }
      PurgeFinishes(old(tables), from, TABLES);
    }

    method ApplyEvent(e: Event)
      modifies this`tables
      ensures tables == Apply(old(tables), e)
    {
      tables := Apply(tables, e);
    }

    /** The inner loop over one page; `applied` counts what decoded. */
    method ApplyPage(raws: seq<Option<Event>>) returns (applied: nat)
      modifies this`tables
      ensures tables == ApplyAll(old(tables), Decoded(raws)) && applied == |Decoded(raws)|
    {
      applied := 0;
      for i := 0 to |raws|
        invariant ApplyAll(tables, Decoded(raws[i..])) == ApplyAll(old(tables), Decoded(raws))
        invariant applied + |Decoded(raws[i..])| == |Decoded(raws)|
      {
        assert raws[i..][1..] == raws[i + 1..];
        if raws[i].Some? {
          assert Decoded(raws[i..]) == [raws[i].value] + Decoded(raws[i + 1..]);
          assert Decoded(raws[i..])[1..] == Decoded(raws[i + 1..]);
          ApplyEvent(raws[i].value);
          applied := applied + 1;
        } else {
          assert Decoded(raws[i..]) == Decoded(raws[i + 1..]);
        }
      }
    }

    /** `pollOnce`: an error is a lost page. The result is `eventsApplied`. */
    method PollOnce(o: Options, head: nat, pages: seq<Page>) returns (r: Result<nat>)
      modifies this
      ensures Db(tables, cursor) == PollSpec(o, old(Db(tables, cursor)), Poll(head, TABLES, pages, []))
      ensures r.Ok? <==> FromBlock(o, old(cursor)) > head || PageEvents(pages).1
      ensures r.Ok? ==> r.value == if FromBlock(o, old(cursor)) > head then 0 else |PageEvents(pages).0|
    {
      hide Decoded, PurgeFirst, FromBlock, PageEvents, ApplyAll, Purge;
      var from := FromBlock(o, cursor);
      if from > head { return Ok(0); }
      PurgeFromBlock(from);
      ghost var start := tables;
      NothingApplied(start);
      assert pages[0..] == pages;
      var applied := 0;
      var i := 0;
      ghost var done: seq<Event> := [];
      while true
        invariant 0 <= i <= |pages| && cursor == old(cursor)
        invariant PageEvents(pages).0 == done + PageEvents(pages[i..]).0
        invariant PageEvents(pages).1 == PageEvents(pages[i..]).1
        invariant tables == ApplyAll(start, done) && applied == |done|
        decreases |pages| - i
      {
        PagesLeft(pages, i);
        if i == |pages| || pages[i].Lost? {
          assert done + [] == done;
          return Err("getEvents failed");
        }
        var page := pages[i];
        ghost var here := Decoded(page.events);
        ApplyAllConcat(start, done, here);
        var n := ApplyPage(page.events);
        applied := applied + n;
        if page.more {
          assert done + (here + PageEvents(pages[i + 1..]).0) == (done + here) + PageEvents(pages[i + 1..]).0;
        }
        done := done + here;
        i := i + 1;
        if !page.more { break; }
      }
      cursor := Some(head);
      r := Ok(applied);
    }
  }
}
