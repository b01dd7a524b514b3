/**
 * The triple-buffered seqlock of client/src/sim/snapshot.ts as a state machine: one
 * publisher and any number of readers interleave one shared-memory access at a time
 * (sequential consistency, unbounded SEQ). Ring objects are constructed before the first publish;
 * module `RingConstruction` adds the constructor's own steps.
 *
 * The encoder may store the words of a snapshot, and the decoder may load them, in any
 * order: the fixed orders of the code are among these.
 */
module SnapshotRing {
  import opened SnapshotCodec
  import opened Wrappers

  const SLOT_COUNT := 3
  const MAX_ATTEMPTS := 8

  /** What `encodeSnapshot` stores, address by address. */
  function Encoded(s: Snapshot): map<nat, int> {
    map a: nat | a < SNAPSHOT_WORDS && WordAt(s, a).Some? :: WordAt(s, a).value
  }

  /** Program counter of `publish`: the step about to be taken. */
  datatype Publisher =
    | Idle
    | Writing(target: nat, snap: Snapshot, todo: set<nat>)
    | StoreTic(target: nat, snap: Snapshot)
    | StorePublished(target: nat)
    | AddSeq

  /**
   * Program counter of one reader inside `readPair` (`pair`) or `readLatest`. `cur` and `prev`
   * hold the words loaded so far; `pub` is auxiliary: the number of the publication that the
   * loaded PUBLISHED word designates.
   */
  datatype ReaderPc =
    | Out
    | LoadSeq(pair: bool, attempt: nat)
    | LoadIndex(pair: bool, attempt: nat, seq0: nat)
    | Reading(pair: bool, attempt: nat, seq0: nat, index: nat, pub: nat, cur: map<nat, int>, prev: map<nat, int>)

  /** One non-null result, with the SEQ its attempt started from. */
  datatype Observation = Observation(pair: bool, seq0: nat, pub: nat, cur: map<nat, int>, prev: map<nat, int>)

  datatype Reader = Reader(pc: ReaderPc, log: seq<Observation>)

  /** Header, slots and the processes. `history` is auxiliary: every snapshot handed to `publish` so far. */
  datatype State = State(
    seqNo: nat, published: int, tic: int, slots: seq<seq<int>>,
    publisher: Publisher, readers: seq<Reader>, history: seq<Snapshot>)

  datatype Action =
    | BeginPublish(snap: Snapshot)
    | WriteWord(a: nat)
    | EndWrites
    | PutTic
    | PutPublished
    | PutSeq
    | CallRead(r: nat, pair: bool)
    | GetSeq(r: nat)
    | GetIndex(r: nat)
    | GetWord(r: nat, previous: bool, a: nat)
    | Recheck(r: nat)

  function Init(readers: nat): State {
    State(0, -1, 0, seq(SLOT_COUNT, _ => seq(SNAPSHOT_WORDS, _ => 0)),
          Idle, seq(readers, _ => Reader(Out, [])), [])
  }

  /** The decoder, having loaded the words `got`, may load the word at `a` next. */
  predicate Wanted(got: map<nat, int>, a: nat) {
    || a < 3
    || PLAYER <= a < MOBJS - 1
    || (1 in got && MOBJS <= a < MOBJS + MOBJ_WORDS * got[1])
    || (2 in got && SECTORS <= a < SECTORS + SECTOR_WORDS * got[2])
  }

  /** Nothing the decoder wants is missing. */
  predicate Complete(got: map<nat, int>) {
    && 1 in got && 2 in got
    && forall a: nat {:trigger a in got} :: a < SNAPSHOT_WORDS && Wanted(got, a) ==> a in got
  }

  predicate Enabled(s: State, act: Action) {
    match act
    case BeginPublish(_) => s.publisher.Idle?
    case WriteWord(a) => s.publisher.Writing? && a in s.publisher.todo
    case EndWrites => s.publisher.Writing? && s.publisher.todo == {}
    case PutTic => s.publisher.StoreTic?
    case PutPublished => s.publisher.StorePublished?
    case PutSeq => s.publisher.AddSeq?
    case CallRead(r, _) => r < |s.readers| && s.readers[r].pc.Out?
    case GetSeq(r) => r < |s.readers| && s.readers[r].pc.LoadSeq?
    case GetIndex(r) => r < |s.readers| && s.readers[r].pc.LoadIndex?
    case GetWord(r, previous, a) =>
      && r < |s.readers| && s.readers[r].pc.Reading?
      && (previous ==> s.readers[r].pc.pair)
      && Wanted(if previous then s.readers[r].pc.prev else s.readers[r].pc.cur, a)
    case Recheck(r) =>
      && r < |s.readers| && s.readers[r].pc.Reading?
      && Complete(s.readers[r].pc.cur)
      && (s.readers[r].pc.pair ==> Complete(s.readers[r].pc.prev))
  }

  /** How many publications have stored PUBLISHED. */
  function PubCount(s: State): nat {
    s.seqNo + if s.publisher.AddSeq? then 1 else 0
  }

  /** `(index + SLOT_COUNT - 1) % SLOT_COUNT`. */
  function Before(index: nat): nat {
    (index + SLOT_COUNT - 1) % SLOT_COUNT
  }

  /** `slots[i][a]`, 0 where JavaScript would read `undefined` (`NoReadOutsideSlots`: it never does). */
  function Load(slots: seq<seq<int>>, i: nat, a: nat): int {
    if i < |slots| && a < |slots[i]| then slots[i][a] else 0
  }

  /** `slots[i][a] = v`; a store outside a typed array is dropped. */
  function Store(slots: seq<seq<int>>, i: nat, a: nat, v: int): seq<seq<int>> {
    if i < |slots| && a < |slots[i]| then slots[i := slots[i][a := v]] else slots
  }

  function PublisherStep(s: State, act: Action): State
    requires Enabled(s, act)
  {
    match act
    case BeginPublish(snap) =>
      s.(publisher := Writing((s.published + 1 + SLOT_COUNT) % SLOT_COUNT, snap, Encoded(snap).Keys),
         history := s.history + [snap])
    case WriteWord(a) =>
      var Writing(t, snap, todo) := s.publisher;
      s.(slots := Store(s.slots, t, a, if a in Encoded(snap) then Encoded(snap)[a] else 0),
         publisher := Writing(t, snap, todo - {a}))
    case EndWrites => s.(publisher := StoreTic(s.publisher.target, s.publisher.snap))
    case PutTic => s.(tic := ToInt32(s.publisher.snap.tic), publisher := StorePublished(s.publisher.target))
    case PutPublished => s.(published := s.publisher.target, publisher := AddSeq)
    case PutSeq => s.(seqNo := s.seqNo + 1, publisher := Idle)
    case _ => s
  }

  function ReaderStep(s: State, act: Action): Reader
    requires Enabled(s, act) && !IsPublisherAction(act)
  {
    var Reader(pc, log) := s.readers[act.r];
    match act
    case CallRead(_, pair) => Reader(LoadSeq(pair, 0), log)
    case GetSeq(_) => Reader(LoadIndex(pc.pair, pc.attempt, s.seqNo), log)
    case GetIndex(_) =>
      if s.published < 0 || (pc.pair && pc.seq0 < 2) then Reader(Out, log)
      else Reader(Reading(pc.pair, pc.attempt, pc.seq0, s.published, PubCount(s), map[], map[]), log)
    case GetWord(_, previous, a) =>
      if previous then Reader(pc.(prev := pc.prev[a := Load(s.slots, Before(pc.index), a)]), log)
      else Reader(pc.(cur := pc.cur[a := Load(s.slots, pc.index, a)]), log)
    case Recheck(_) =>
      if s.seqNo == pc.seq0 then Reader(Out, log + [Observation(pc.pair, pc.seq0, pc.pub, pc.cur, pc.prev)])
      else if pc.attempt + 1 < MAX_ATTEMPTS then Reader(LoadSeq(pc.pair, pc.attempt + 1), log)
      else Reader(Out, log)
  }

  predicate IsPublisherAction(act: Action) {
    act.BeginPublish? || act.WriteWord? || act.EndWrites? || act.PutTic? || act.PutPublished? || act.PutSeq?
  }

  function Step(s: State, act: Action): State
    requires Enabled(s, act)
  {
    if IsPublisherAction(act) then PublisherStep(s, act)
    else s.(readers := s.readers[act.r := ReaderStep(s, act)])
  }

  /** `acts` can be taken one after the other from `s`. */
  ghost predicate CanRun(s: State, acts: seq<Action>)
    decreases |acts|
  {
    acts == [] || (Enabled(s, acts[0]) && CanRun(Step(s, acts[0]), acts[1..]))
  }

  ghost function Run(s: State, acts: seq<Action>): State
    requires CanRun(s, acts)
    decreases |acts|
  {
    if acts == [] then s else Run(Step(s, acts[0]), acts[1..])
  }

  // ----- the invariant -----------------------------------------------------------------------

  /** The slot carries every word of the publication. */
  ghost predicate Carries(slot: seq<int>, words: map<nat, int>) {
    forall a {:trigger words[a]} {:trigger a in words} :: a in words ==> a < |slot| && slot[a] == words[a]
  }

  /** The loaded words are what the slot holds. */
  ghost predicate CopyOf(got: map<nat, int>, slot: seq<int>) {
    forall a {:trigger got[a]} {:trigger a in got} :: a in got ==> a < |slot| && got[a] == slot[a]
  }

  /** Loaded counts always index inside a slot, torn or not. */
  predicate CountsInRange(got: map<nat, int>) {
    && (1 in got ==> 0 <= got[1] <= MAX_MOBJS)
    && (2 in got ==> 0 <= got[2] <= MAX_SECTORS)
  }

  predicate SlotsOk(s: State) {
    && |s.slots| == SLOT_COUNT
    && forall i :: 0 <= i < SLOT_COUNT ==> ValidSlot(s.slots[i])
  }

  /** The slot that publication number `n` (counted from 1) goes to. */
  function SlotOf(n: nat): nat
    requires n >= 1
  {
    (n - 1) % SLOT_COUNT
  }

  ghost predicate Intact(s: State, n: nat)
    requires SlotsOk(s) && 1 <= n <= |s.history|
  {
    Carries(s.slots[SlotOf(n)], Encoded(s.history[n - 1]))
  }

  /** The newest publications, less the one whose slot `publish` is reusing. */
  function Kept(s: State): nat {
    if s.publisher.Idle? || s.publisher.AddSeq? then 2 else 1
  }

  ghost predicate PublisherOk(s: State)
    requires SlotsOk(s)
  {
    && |s.history| == s.seqNo + (if s.publisher.Idle? then 0 else 1)
    && s.published == (if PubCount(s) == 0 then -1 else SlotOf(PubCount(s)))
    && (forall n: nat :: 1 <= n <= PubCount(s) <= n + Kept(s) ==> Intact(s, n))
    && match s.publisher
       case Writing(target, snap, todo) =>
         && target == SlotOf(s.seqNo + 1) && snap == s.history[s.seqNo]
         && todo <= Encoded(snap).Keys
         && WrittenExcept(s.slots[target], Encoded(snap), todo)
       case StoreTic(target, snap) =>
         target == SlotOf(s.seqNo + 1) && snap == s.history[s.seqNo] && Intact(s, s.seqNo + 1)
       case StorePublished(target) =>
         target == SlotOf(s.seqNo + 1) && Intact(s, s.seqNo + 1) && TicOf(s, s.seqNo + 1)
       case AddSeq => TicOf(s, s.seqNo + 1)
       case Idle => s.seqNo > 0 ==> TicOf(s, s.seqNo)
  }

  ghost predicate WrittenExcept(slot: seq<int>, words: map<nat, int>, todo: set<nat>) {
    forall a {:trigger words[a]} {:trigger a in words} :: a in words && a !in todo ==> a < |slot| && slot[a] == words[a]
  }

  predicate TicOf(s: State, n: nat)
    requires 1 <= n <= |s.history|
  {
    s.tic == ToInt32(s.history[n - 1].tic)
  }

  function LastPub(log: seq<Observation>): nat {
    if log == [] then 0 else log[|log| - 1].pub
  }

  ghost predicate PcOk(s: State, pc: ReaderPc, log: seq<Observation>)
    requires SlotsOk(s)
  {
    match pc
    case Out => true
    case LoadSeq(_, _) => true
    case LoadIndex(_, _, seq0) => seq0 <= s.seqNo
    case Reading(pair, _, seq0, index, pub, cur, prev) =>
      && seq0 <= s.seqNo && seq0 <= pub <= PubCount(s)
      && 1 <= pub && index == SlotOf(pub) && (pair ==> seq0 >= 2)
      && LastPub(log) <= pub
      && CountsInRange(cur) && CountsInRange(prev)
      && (seq0 == s.seqNo ==>
            && (pub == seq0 + 1 ==> s.publisher.AddSeq?)
            && CopyOf(cur, s.slots[index])
            && CopyOf(prev, s.slots[Before(index)]))
  }

  /** The loaded words agree with publication number `n`. */
  ghost predicate Shows(got: map<nat, int>, history: seq<Snapshot>, n: nat) {
    && 1 <= n <= |history|
    && Complete(got)
    && forall a {:trigger got[a]} ::
         a in got && a in Encoded(history[n - 1]) ==> got[a] == Encoded(history[n - 1])[a]
  }

  /** A whole publication, at least as new as the last one completed when the attempt began. */
  ghost predicate Good(o: Observation, history: seq<Snapshot>) {
    && o.seq0 <= o.pub
    && Shows(o.cur, history, o.pub)
    && (o.pair ==> o.pub >= 2 && Shows(o.prev, history, o.pub - 1))
  }

  ghost predicate LogOk(s: State, log: seq<Observation>) {
    && (forall i :: 0 <= i < |log| ==> Good(log[i], s.history))
    && (forall i, j :: 0 <= i < j < |log| ==> log[i].pub <= log[j].pub)
    && LastPub(log) <= PubCount(s)
  }

  ghost predicate ReaderOk(s: State, rd: Reader)
    requires SlotsOk(s)
  {
    PcOk(s, rd.pc, rd.log) && LogOk(s, rd.log)
  }

  ghost predicate Inv(s: State) {
    && SlotsOk(s)
    && PublisherOk(s)
    && forall r :: 0 <= r < |s.readers| ==> ReaderOk(s, s.readers[r])
  }

  lemma InitInv(readers: nat)
    ensures Inv(Init(readers))
  {
  }

  lemma SlotsDiffer(n: nat)
    requires n >= 2
    ensures SlotOf(n + 1) != SlotOf(n) && SlotOf(n + 1) != SlotOf(n - 1) && SlotOf(n) != SlotOf(n - 1)
    ensures Before(SlotOf(n)) == SlotOf(n - 1)
  {
  }

  lemma EncodedCounts(s: Snapshot)
    ensures 1 in Encoded(s) && Encoded(s)[1] == MobjCount(s)
    ensures 2 in Encoded(s) && Encoded(s)[2] == SectorCount(s)
  {
    assert WordAt(s, 1) == Some(MobjCount(s));
    assert WordAt(s, 2) == Some(SectorCount(s));
  }

  /** What a reader copied from the slot of an intact publication is that publication. */
  lemma CopyShows(s: State, got: map<nat, int>, n: nat)
    requires SlotsOk(s) && 1 <= n <= |s.history| && Intact(s, n)
    requires Complete(got) && CopyOf(got, s.slots[SlotOf(n)])
    ensures Shows(got, s.history, n)
  {
  }

  /** While SEQ stands, both slots a reader is copying are those of whole publications. */
  lemma ReadSlotsIntact(s: State, pub: nat)
    requires SlotsOk(s) && PublisherOk(s) && 1 <= pub && s.seqNo <= pub <= PubCount(s)
    ensures pub <= |s.history| && Intact(s, pub)
    ensures s.seqNo >= 2 ==> Intact(s, pub - 1) && Before(SlotOf(pub)) == SlotOf(pub - 1)
  {
    if s.seqNo >= 2 {
      SlotsDiffer(pub);
    }
  }

  /** The recheck of SEQ succeeds only on whole publications. */
  lemma RecheckGood(s: State, pc: ReaderPc, log: seq<Observation>)
    requires SlotsOk(s) && PublisherOk(s) && PcOk(s, pc, log)
    requires pc.Reading? && s.seqNo == pc.seq0 && Complete(pc.cur) && (pc.pair ==> Complete(pc.prev))
    ensures Good(Observation(pc.pair, pc.seq0, pc.pub, pc.cur, pc.prev), s.history)
  {
    hide PublisherOk, Complete, CopyOf, Shows, Intact, Encoded, LastPub, CountsInRange;
    ReadSlotsIntact(s, pc.pub);
    CopyShows(s, pc.cur, pc.pub);
    if pc.pair {
      CopyShows(s, pc.prev, pc.pub - 1);
    }
  }

  lemma GetWordOk(s: State, r: nat, previous: bool, a: nat)
    requires Inv(s) && Enabled(s, GetWord(r, previous, a))
    ensures PcOk(s, ReaderStep(s, GetWord(r, previous, a)).pc, s.readers[r].log)
  {
    assert ReaderOk(s, s.readers[r]);
    var pc := s.readers[r].pc;
    assert ValidSlot(s.slots[pc.index]) && ValidSlot(s.slots[Before(pc.index)]);
    assert a < SNAPSHOT_WORDS;
  }

  lemma LogGrows(s: State, log: seq<Observation>, o: Observation)
    requires LogOk(s, log) && Good(o, s.history) && LastPub(log) <= o.pub <= PubCount(s)
    ensures LogOk(s, log + [o])
  {
    forall i, j | 0 <= i < j < |log + [o]| ensures (log + [o])[i].pub <= (log + [o])[j].pub {
      assert log[i].pub <= LastPub(log);
    }
  }

  /** A reader's own step keeps that reader's part of the invariant. */
  lemma ReaderStepOk(s: State, act: Action)
    requires Inv(s) && Enabled(s, act) && !IsPublisherAction(act)
    ensures ReaderOk(s, ReaderStep(s, act))
  {
    assert ReaderOk(s, s.readers[act.r]);
    match act
    case GetWord(r, previous, a) => GetWordOk(s, r, previous, a);
    case Recheck(r) =>
      var pc := s.readers[r].pc;
      if s.seqNo == pc.seq0 {
        RecheckGood(s, pc, s.readers[r].log);
        LogGrows(s, s.readers[r].log, Observation(pc.pair, pc.seq0, pc.pub, pc.cur, pc.prev));
      }
    case _ =>
  }

  lemma BeginPublishOk(s: State, snap: Snapshot)
    requires Inv(s) && s.publisher.Idle?
    ensures PublisherOk(PublisherStep(s, BeginPublish(snap)))
  {
    var t := PublisherStep(s, BeginPublish(snap));
    forall n: nat | 1 <= n <= PubCount(t) <= n + 1 ensures Intact(t, n) {
      assert Intact(s, n);
    }
    assert WrittenExcept(t.slots[t.publisher.target], Encoded(snap), Encoded(snap).Keys);
  }

  lemma WriteKeepsValid(slot: seq<int>, snap: Snapshot, a: nat)
    requires ValidSlot(slot) && a in Encoded(snap)
    ensures ValidSlot(slot[a := Encoded(snap)[a]])
  {
    EncodedCounts(snap);
  }

  lemma WriteWordOk(s: State, a: nat)
    requires Inv(s) && s.publisher.Writing? && a in s.publisher.todo
    ensures SlotsOk(PublisherStep(s, WriteWord(a))) && PublisherOk(PublisherStep(s, WriteWord(a)))
  {
    var t := PublisherStep(s, WriteWord(a));
    var Writing(target, snap, todo) := s.publisher;
    WriteKeepsValid(s.slots[target], snap, a);
    forall n: nat | 1 <= n <= PubCount(t) <= n + 1 ensures Intact(t, n) {
      assert Intact(s, n);
      assert SlotOf(n) != target && t.slots[SlotOf(n)] == s.slots[SlotOf(n)];
    }
    assert WrittenExcept(t.slots[target], Encoded(snap), todo - {a});
  }

  lemma EndWritesOk(s: State)
    requires Inv(s) && s.publisher.Writing? && s.publisher.todo == {}
    ensures PublisherOk(PublisherStep(s, EndWrites))
  {
    var t := PublisherStep(s, EndWrites);
    assert Intact(t, s.seqNo + 1);
    forall n: nat | 1 <= n <= PubCount(t) <= n + 1 ensures Intact(t, n) {
      assert Intact(s, n);
    }
  }

  lemma StoresOk(s: State, act: Action)
    requires Inv(s) && Enabled(s, act) && (act.PutTic? || act.PutPublished? || act.PutSeq?)
    ensures PublisherOk(PublisherStep(s, act))
  {
    var t := PublisherStep(s, act);
    forall n: nat | 1 <= n <= PubCount(t) <= n + Kept(t) ensures Intact(t, n) {
      assert Intact(s, n);
    }
  }

  /** The publisher's steps keep its own part of the invariant. */
  lemma PublisherStepOk(s: State, act: Action)
    requires Inv(s) && Enabled(s, act) && IsPublisherAction(act)
    ensures SlotsOk(Step(s, act)) && PublisherOk(Step(s, act))
  {
    match act
    case BeginPublish(snap) => BeginPublishOk(s, snap);
    case WriteWord(a) => WriteWordOk(s, a);
    case EndWrites => EndWritesOk(s);
    case _ => StoresOk(s, act);
  }

  /** While SEQ stands where a reader's attempt began, no publisher step touches the two slots it reads. */
  lemma PublisherSparesReader(s: State, act: Action, r: nat)
    requires Inv(s) && Enabled(s, act) && IsPublisherAction(act) && r < |s.readers|
    requires SlotsOk(Step(s, act))
    ensures PcOk(Step(s, act), s.readers[r].pc, s.readers[r].log)
  {
    hide LogOk, Encoded, Intact, WrittenExcept, CountsInRange, Carries;
    assert ReaderOk(s, s.readers[r]);
    var t := Step(s, act);
    var pc := s.readers[r].pc;
    if act.WriteWord? && pc.Reading? && pc.seq0 == s.seqNo {
      assert pc.pub == s.seqNo;
      assert t.slots[pc.index] == s.slots[pc.index];
      if pc.pub >= 2 {
        SlotsDiffer(pc.pub);
      }
      assert t.slots[Before(pc.index)] == s.slots[Before(pc.index)];
    }
  }

  lemma LogStaysOk(s: State, act: Action, log: seq<Observation>)
    requires Inv(s) && Enabled(s, act) && IsPublisherAction(act) && LogOk(s, log)
    ensures LogOk(Step(s, act), log)
  {
    var t := Step(s, act);
    assert forall n :: 0 <= n < |s.history| ==> t.history[n] == s.history[n];
    forall i | 0 <= i < |log| ensures Good(log[i], t.history) {
      assert Good(log[i], s.history);
    }
  }

  lemma PublisherActionInv(s: State, act: Action)
    requires Inv(s) && Enabled(s, act) && IsPublisherAction(act)
    ensures Inv(Step(s, act))
  {
    var t := Step(s, act);
    PublisherStepOk(s, act);
    forall r | 0 <= r < |t.readers| ensures ReaderOk(t, t.readers[r]) {
      assert ReaderOk(s, s.readers[r]);
      PublisherSparesReader(s, act, r);
      LogStaysOk(s, act, s.readers[r].log);
    }
  }

  lemma SharedUnchanged(s: State, readers: seq<Reader>)
    requires Inv(s)
    ensures PublisherOk(s.(readers := readers))
  {
    var t := s.(readers := readers);
    forall n: nat | 1 <= n <= PubCount(t) <= n + Kept(t) ensures Intact(t, n) {
      assert Intact(s, n);
    }
  }

  lemma ReaderActionInv(s: State, act: Action)
    requires Inv(s) && Enabled(s, act) && !IsPublisherAction(act)
    ensures Inv(Step(s, act))
  {
    var t := Step(s, act);
    ReaderStepOk(s, act);
    SharedUnchanged(s, t.readers);
    forall r | 0 <= r < |t.readers| ensures ReaderOk(t, t.readers[r]) {
      assert r != act.r ==> ReaderOk(s, s.readers[r]);
    }
  }

  /** Every atomic step of every process keeps the invariant. */
  lemma StepInv(s: State, act: Action)
    requires Inv(s) && Enabled(s, act)
    ensures Inv(Step(s, act))
  {
    if IsPublisherAction(act) {
      PublisherActionInv(s, act);
    } else {
      ReaderActionInv(s, act);
    }
  }

  lemma {:induction false} RunInv(s: State, acts: seq<Action>)
    requires Inv(s) && CanRun(s, acts)
    ensures Inv(Run(s, acts))
    decreases |acts|
  {
    if acts != [] {
      StepInv(s, acts[0]);
      RunInv(Step(s, acts[0]), acts[1..]);
    }
  }

  // ----- what holds over every run -----------------------------------------------------------

  /** The array the decoder works on, holes included. */
  function Words(got: map<nat, int>): seq<int> {
    seq(SNAPSHOT_WORDS, a requires 0 <= a => if a in got then got[a] else 0)
  }

  /** The slot `s` was encoded into, with the reader's own words wherever `s` has none. */
  function Filled(s: Snapshot, got: map<nat, int>): seq<int> {
    seq(SNAPSHOT_WORDS, a requires 0 <= a =>
      if a in Encoded(s) then Encoded(s)[a] else if a in got then got[a] else 0)
  }

  /** Decoding the words loaded gives `s`, as far as the layout can carry it. */
  predicate DecodesTo(got: map<nat, int>, s: Snapshot) {
    ValidSlot(Words(got)) && Decode(Words(got)) == Canon(s)
  }

  /** Words that show a publication decode to that publication, never to a mix. */
  lemma ShowsDecodes(got: map<nat, int>, history: seq<Snapshot>, n: nat)
    requires Shows(got, history, n)
    ensures DecodesTo(got, history[n - 1])
  {
    var s := history[n - 1];
    var src := Filled(s, got);
    assert Holds(src, s);
    DecodeOfHolds(src, s);
    EncodedCounts(s);
    HoldsIsValid(src, s);
    forall a: nat | a < SNAPSHOT_WORDS && Reads(src[1], src[2], a)
      ensures Words(got)[a] == src[a]
    {
      assert Wanted(got, a) && a in got;
    }
    DecodeLocal(Words(got), src);
  }

  /** What one result means, once decoded. */
  ghost predicate Whole(o: Observation, history: seq<Snapshot>) {
    && o.seq0 <= o.pub <= |history| && 1 <= o.pub
    && DecodesTo(o.cur, history[o.pub - 1])
    && (o.pair ==> o.pub >= 2 && DecodesTo(o.prev, history[o.pub - 2]))
  }

  lemma GoodIsWhole(o: Observation, history: seq<Snapshot>)
    requires Good(o, history)
    ensures Whole(o, history)
  {
    hide Decode, Canon;
    assert DecodesTo(o.cur, history[o.pub - 1]) by {
      ShowsDecodes(o.cur, history, o.pub);
    }
    assert o.pair ==> DecodesTo(o.prev, history[o.pub - 2]) by {
      if o.pair {
        ShowsDecodes(o.prev, history, o.pub - 1);
      }
    }
  }

  /**
   * In every interleaving, whatever `readPair` returns is two whole snapshots published one
   * right after the other, the newer one no older than the last publication completed when the
   * attempt loaded SEQ; `readLatest` returns one such snapshot.
   */
  lemma ReadsAreWhole(readers: nat, acts: seq<Action>, r: nat, i: nat)
    requires CanRun(Init(readers), acts)
    requires var s := Run(Init(readers), acts); r < |s.readers| && i < |s.readers[r].log|
    ensures var s := Run(Init(readers), acts); Whole(s.readers[r].log[i], s.history)
  {
    InitInv(readers);
    RunInv(Init(readers), acts);
    var s := Run(Init(readers), acts);
    assert ReaderOk(s, s.readers[r]);
    GoodIsWhole(s.readers[r].log[i], s.history);
  }

  /** One reader never goes back to an older publication, `readPair` and `readLatest` mixed at will. */
  lemma ReadsNeverGoBack(readers: nat, acts: seq<Action>, r: nat, i: nat, j: nat)
    requires CanRun(Init(readers), acts)
    requires var s := Run(Init(readers), acts); r < |s.readers| && i <= j < |s.readers[r].log|
    ensures var log := Run(Init(readers), acts).readers[r].log; log[i].pub <= log[j].pub
  {
    InitInv(readers);
    RunInv(Init(readers), acts);
    var s := Run(Init(readers), acts);
    assert ReaderOk(s, s.readers[r]);
  }

  /** Even an attempt that will be thrown away never loads a word outside its slot. */
  lemma NoReadOutsideSlots(readers: nat, acts: seq<Action>, r: nat, previous: bool, a: nat)
    requires CanRun(Init(readers), acts)
    requires Enabled(Run(Init(readers), acts), GetWord(r, previous, a))
    ensures var s := Run(Init(readers), acts);
            var i := s.readers[r].pc.index;
            var slot := if previous then Before(i) else i;
            slot < |s.slots| && a < |s.slots[slot]|
  {
    InitInv(readers);
    RunInv(Init(readers), acts);
    var s := Run(Init(readers), acts);
    assert ReaderOk(s, s.readers[r]);
  }

  ghost predicate Avoids(acts: seq<Action>, avoided: Action) {
    forall i :: 0 <= i < |acts| ==> acts[i] != avoided
  }

  lemma {:induction false} SameAttempt(s: State, acts: seq<Action>, r: nat, q: nat)
    requires CanRun(s, acts) && Avoids(acts, GetSeq(r)) && r < |s.readers|
    requires s.readers[r].pc.LoadIndex? || s.readers[r].pc.Reading? ==> s.readers[r].pc.seq0 == q
    ensures var t := Run(s, acts);
            && r < |t.readers|
            && (t.readers[r].pc.LoadIndex? || t.readers[r].pc.Reading? ==> t.readers[r].pc.seq0 == q)
    decreases |acts|
  {
    if acts != [] {
      SameAttempt(Step(s, acts[0]), acts[1..], r, q);
    }
  }

  /**
   * Freshness: if reader `r` loads SEQ in state `s` and its recheck later succeeds without `r`
   * having loaded SEQ again, the result is at least as new as the last of the `s.seqNo`
   * publications completed at that moment.
   */
  lemma ReadIsFresh(s: State, r: nat, acts: seq<Action>)
    requires Inv(s) && Enabled(s, GetSeq(r)) && Avoids(acts, GetSeq(r))
    requires CanRun(Step(s, GetSeq(r)), acts)
    requires var t := Run(Step(s, GetSeq(r)), acts); Enabled(t, Recheck(r)) && t.seqNo == t.readers[r].pc.seq0
    ensures var t := Run(Step(s, GetSeq(r)), acts);
            var log := Step(t, Recheck(r)).readers[r].log;
            |log| == |t.readers[r].log| + 1 && log[|log| - 1].pub >= s.seqNo == t.seqNo
  {
    var s1 := Step(s, GetSeq(r));
    StepInv(s, GetSeq(r));
    RunInv(s1, acts);
    SameAttempt(s1, acts, r, s.seqNo);
    var t := Run(s1, acts);
    assert ReaderOk(t, t.readers[r]);
  }

  /** Attempt number `k < 8` of a call made when SEQ was `q` started after at least `k` more publications. */
  predicate Retried(s: State, r: nat, pair: bool, q: nat) {
    r < |s.readers| && q <= s.seqNo
    && match s.readers[r].pc
       case Out => true
       case LoadSeq(p, k) => p == pair && k < MAX_ATTEMPTS && q + k <= s.seqNo
       case LoadIndex(p, k, seq0) => p == pair && k < MAX_ATTEMPTS && q + k <= seq0 <= s.seqNo
       case Reading(p, k, seq0, _, _, _, _) => p == pair && k < MAX_ATTEMPTS && q + k <= seq0 <= s.seqNo
  }

  ghost predicate NoCall(acts: seq<Action>, r: nat) {
    forall i :: 0 <= i < |acts| ==> !(acts[i].CallRead? && acts[i].r == r)
  }

  lemma {:induction false} RetriedRun(s: State, acts: seq<Action>, r: nat, pair: bool, q: nat)
    requires CanRun(s, acts) && NoCall(acts, r) && Retried(s, r, pair, q)
    ensures Retried(Run(s, acts), r, pair, q)
    decreases |acts|
  {
    if acts != [] {
      RetriedRun(Step(s, acts[0]), acts[1..], r, pair, q);
    }
  }

  /** The step of reader `r` ends its call with nothing to show. */
  predicate EndsEmpty(s: State, act: Action, r: nat)
    requires Enabled(s, act)
  {
    && r < |s.readers| && !s.readers[r].pc.Out?
    && var t := Step(s, act);
       r < |t.readers| && t.readers[r].pc.Out? && t.readers[r].log == s.readers[r].log
  }

  /** The attempt has loaded SEQ, and PUBLISHED now says there is too little to return. */
  predicate TooEarly(s: State, r: nat)
    requires r < |s.readers| && s.readers[r].pc.LoadIndex?
  {
    PubCount(s) == 0 || (s.readers[r].pc.pair && s.readers[r].pc.seq0 < 2)
  }

  /** The last of eight attempts, and SEQ has moved once more. */
  predicate EighthFailure(s: State, r: nat)
    requires r < |s.readers| && s.readers[r].pc.Reading?
  {
    s.readers[r].pc.attempt == 7 && s.seqNo != s.readers[r].pc.seq0
  }

  /**
   * Over every run, a call ends without a result exactly at a load of PUBLISHED that finds nothing
   * published (for a pair, with fewer than two completed when the attempt loaded SEQ), or at the
   * eighth failed recheck, and that only after eight more publications.
   */
  lemma EmptyExactly(s: State, r: nat, pair: bool, acts: seq<Action>, act: Action)
    requires Inv(s) && Enabled(s, CallRead(r, pair)) && NoCall(acts, r)
    requires CanRun(Step(s, CallRead(r, pair)), acts)
    requires var t := Run(Step(s, CallRead(r, pair)), acts); Enabled(t, act) && r < |t.readers|
    ensures var t := Run(Step(s, CallRead(r, pair)), acts);
            && (EndsEmpty(t, act, r) <==>
                  || (act == GetIndex(r) && TooEarly(t, r))
                  || (act == Recheck(r) && EighthFailure(t, r)))
            && (act == Recheck(r) && EighthFailure(t, r) ==> t.seqNo >= s.seqNo + 8)
            && (act == GetIndex(r) ==> t.readers[r].pc.pair == pair && t.readers[r].pc.seq0 >= s.seqNo)
  {
    var s1 := Step(s, CallRead(r, pair));
    StepInv(s, CallRead(r, pair));
    RunInv(s1, acts);
    RetriedRun(s1, acts, r, pair, s.seqNo);
    var t := Run(s1, acts);
    hide CanRun, Run, Inv, Step, EndsEmpty, TooEarly, EighthFailure;
    EmptyStep(t, act, r, pair, s.seqNo);
    LoadIndexFacts(t, act, r, pair, s.seqNo);
  }

  lemma LoadIndexFacts(s: State, act: Action, r: nat, pair: bool, q: nat)
    requires Retried(s, r, pair, q) && Enabled(s, act)
    ensures act == GetIndex(r) ==> s.readers[r].pc.pair == pair && s.readers[r].pc.seq0 >= q
  {
  }

  lemma EmptyStep(s: State, act: Action, r: nat, pair: bool, q: nat)
    requires Inv(s) && Retried(s, r, pair, q) && Enabled(s, act)
    ensures EndsEmpty(s, act, r) <==>
              || (act == GetIndex(r) && TooEarly(s, r))
              || (act == Recheck(r) && EighthFailure(s, r))
    ensures act == Recheck(r) && EighthFailure(s, r) ==> s.seqNo >= q + 8
  {
    assert ReaderOk(s, s.readers[r]);
    hide Complete, Wanted, Intact, Encoded, LogOk, CopyOf, CountsInRange, PcOk;
  }

  /**
   * A read gives up only when it is outrun: if a call made in state `s` ends at a failed
   * recheck, the publisher completed at least `MAX_ATTEMPTS` publications since.
   */
  lemma GivesUpOnlyWhenOutrun(s: State, r: nat, pair: bool, acts: seq<Action>)
    requires Enabled(s, CallRead(r, pair)) && NoCall(acts, r)
    requires CanRun(Step(s, CallRead(r, pair)), acts)
    requires var t := Run(Step(s, CallRead(r, pair)), acts);
             Enabled(t, Recheck(r)) && t.seqNo != t.readers[r].pc.seq0 && Step(t, Recheck(r)).readers[r].pc.Out?
    ensures Run(Step(s, CallRead(r, pair)), acts).seqNo >= s.seqNo + MAX_ATTEMPTS
  {
    RetriedRun(Step(s, CallRead(r, pair)), acts, r, pair, s.seqNo);
  }

  // ----- a call the publisher leaves alone -----------------------------------------------------

  ghost predicate NoPublisher(acts: seq<Action>) {
    forall i :: 0 <= i < |acts| ==> !IsPublisherAction(acts[i])
  }

  /** There is something to return. */
  predicate CanAnswer(s: State, pair: bool) {
    if pair then s.seqNo >= 2 else PubCount(s) >= 1
  }

  /** Where an undisturbed call of reader `r` made in state `s` may stand. */
  predicate Undisturbed(s: State, t: State, r: nat, pair: bool) {
    && r < |s.readers| && r < |t.readers|
    && t.(readers := s.readers) == s
    && var log := s.readers[r].log;
       var Reader(pc, log') := t.readers[r];
       match pc
       case LoadSeq(p, k) => p == pair && k == 0 && log' == log
       case LoadIndex(p, k, seq0) => p == pair && k == 0 && seq0 == s.seqNo && log' == log
       case Reading(p, k, seq0, _, pub, _, _) =>
         p == pair && k == 0 && seq0 == s.seqNo && pub == PubCount(s) && log' == log && CanAnswer(s, pair)
       case Out =>
         if CanAnswer(s, pair)
         then |log'| == |log| + 1 && log'[..|log|] == log
              && log'[|log|].pub == PubCount(s) && log'[|log|].pair == pair && log'[|log|].seq0 == s.seqNo
         else log' == log
  }

  lemma UndisturbedStep(s: State, t: State, act: Action, r: nat, pair: bool)
    requires Inv(s) && Undisturbed(s, t, r, pair) && Enabled(t, act)
    requires !IsPublisherAction(act) && !(act.CallRead? && act.r == r)
    ensures Undisturbed(s, Step(t, act), r, pair)
  {
    hide Complete, Wanted, Intact, Encoded, ReaderOk;
  }

  lemma {:induction false} UndisturbedRun(s: State, t: State, acts: seq<Action>, r: nat, pair: bool)
    requires Inv(s) && Undisturbed(s, t, r, pair) && CanRun(t, acts) && NoPublisher(acts) && NoCall(acts, r)
    ensures Undisturbed(s, Run(t, acts), r, pair)
    decreases |acts|
  {
    hide Inv, Step, Enabled, Undisturbed;
    if acts != [] {
      UndisturbedStep(s, t, acts[0], r, pair);
      UndisturbedRun(s, Step(t, acts[0]), acts[1..], r, pair);
    }
  }

  /**
   * A call during which the publisher takes no step, once it has ended, has logged exactly one
   * result, whole, of the newest publication; or nothing when there is too little to return.
   */
  lemma QuietCallAnswers(s: State, r: nat, pair: bool, acts: seq<Action>)
    requires Inv(s) && Enabled(s, CallRead(r, pair)) && NoPublisher(acts) && NoCall(acts, r)
    requires CanRun(Step(s, CallRead(r, pair)), acts)
    requires var t := Run(Step(s, CallRead(r, pair)), acts); r < |t.readers| && t.readers[r].pc.Out?
    ensures var log, log' := s.readers[r].log, Run(Step(s, CallRead(r, pair)), acts).readers[r].log;
            if CanAnswer(s, pair)
            then |log'| == |log| + 1 && log'[..|log|] == log && log'[|log|].pair == pair
                 && log'[|log|].pub == PubCount(s) && Whole(log'[|log|], s.history)
            else log' == log
  {
    var s1 := Step(s, CallRead(r, pair));
    StepInv(s, CallRead(r, pair));
    RunInv(s1, acts);
    UndisturbedRun(s, s1, acts, r, pair);
    var t := Run(s1, acts);
    assert ReaderOk(t, t.readers[r]);
    if CanAnswer(s, pair) {
      hide CanRun, Run, Whole;
      GoodIsWhole(t.readers[r].log[|s.readers[r].log|], s.history);
    }
  }

  function Missing(got: map<nat, int>): set<nat> {
    set a: nat | a < SNAPSHOT_WORDS && a !in got
  }

  function Got(s: State, r: nat, previous: bool): map<nat, int>
    requires r < |s.readers| && s.readers[r].pc.Reading?
  {
    if previous then s.readers[r].pc.prev else s.readers[r].pc.cur
  }

  /** One more word loaded by reader `r`, and nothing else changed. */
  lemma LoadOne(s: State, r: nat, previous: bool, a: nat)
    requires Inv(s) && Enabled(s, GetWord(r, previous, a)) && a !in Got(s, r, previous) && a < SNAPSHOT_WORDS
    ensures var t := Step(s, GetWord(r, previous, a));
            && Inv(t) && r < |t.readers| && t.readers[r].pc.Reading? && t.readers[r].pc.pair == s.readers[r].pc.pair
            && Missing(Got(t, r, previous)) < Missing(Got(s, r, previous))
            && Got(t, r, !previous) == Got(s, r, !previous)
  {
    StepInv(s, GetWord(r, previous, a));
    hide Inv;
    assert a in Missing(Got(s, r, previous));
  }

  /** A word the decoder still wants. */
  lemma StillWanted(got: map<nat, int>) returns (a: nat)
    requires !Complete(got)
    ensures Wanted(got, a) && a !in got && a < SNAPSHOT_WORDS
  {
    if 1 !in got {
      a := 1;
    } else if 2 !in got {
      a := 2;
    } else {
      a :| a < SNAPSHOT_WORDS && Wanted(got, a) && a !in got;
    }
  }

  /** Reader `r` alone can load whatever its decoder wants. */
  lemma {:induction false} LoadAll(s: State, r: nat, previous: bool) returns (acts: seq<Action>)
    requires Inv(s) && r < |s.readers| && s.readers[r].pc.Reading? && (previous ==> s.readers[r].pc.pair)
    ensures CanRun(s, acts) && NoPublisher(acts) && NoCall(acts, r)
    ensures var t := Run(s, acts);
            && Inv(t) && r < |t.readers| && t.readers[r].pc.Reading? && t.readers[r].pc.pair == s.readers[r].pc.pair
            && Complete(Got(t, r, previous)) && Got(t, r, !previous) == Got(s, r, !previous)
    decreases Missing(Got(s, r, previous))
  {
    hide Inv, Complete, Wanted, Missing, Step, Got, NoPublisher, NoCall, Enabled;
    if Complete(Got(s, r, previous)) {
      acts := [];
      NoActs(r);
    } else {
      var a := StillWanted(Got(s, r, previous));
      CanLoad(s, r, previous, a);
      LoadOne(s, r, previous, a);
      var rest := LoadAll(Step(s, GetWord(r, previous, a)), r, previous);
      acts := [GetWord(r, previous, a)] + rest;
      OwnAct(GetWord(r, previous, a), rest, r);
      assert acts[1..] == rest;
    }
  }

  lemma CanLoad(s: State, r: nat, previous: bool, a: nat)
    requires r < |s.readers| && s.readers[r].pc.Reading? && (previous ==> s.readers[r].pc.pair)
    requires Wanted(Got(s, r, previous), a)
    ensures Enabled(s, GetWord(r, previous, a))
  {
    hide Wanted;
  }

  lemma NoActs(r: nat)
    ensures NoPublisher([]) && NoCall([], r)
  {
  }

  lemma OwnAct(act: Action, rest: seq<Action>, r: nat)
    requires NoPublisher(rest) && NoCall(rest, r) && !IsPublisherAction(act) && !act.CallRead?
    ensures NoPublisher([act] + rest) && NoCall([act] + rest, r)
  {
  }

  lemma OwnActs(a: seq<Action>, b: seq<Action>, r: nat)
    requires NoPublisher(a) && NoCall(a, r) && NoPublisher(b) && NoCall(b, r)
    ensures NoPublisher(a + b) && NoCall(a + b, r)
  {
  }

  lemma {:induction false} RunJoin(s: State, a: seq<Action>, b: seq<Action>)
    requires CanRun(s, a) && CanRun(Run(s, a), b)
    ensures CanRun(s, a + b) && Run(s, a + b) == Run(Run(s, a), b)
    decreases |a|
  {
    hide Step, Enabled;
    if a == [] {
      assert a + b == b;
    } else {
      assert (a + b)[1..] == a[1..] + b;
      RunJoin(Step(s, a[0]), a[1..], b);
    }
  }

  lemma RunOne(s: State, act: Action)
    requires Enabled(s, act)
    ensures CanRun(s, [act]) && Run(s, [act]) == Step(s, act)
  {
    hide Step, Enabled;
    assert [act][1..] == [];
  }

  /** Such a call can always be brought to its end, by its reader alone. */
  lemma QuietCallEnds(s: State, r: nat, pair: bool) returns (acts: seq<Action>)
    requires Inv(s) && Enabled(s, CallRead(r, pair))
    ensures NoPublisher(acts) && NoCall(acts, r) && CanRun(Step(s, CallRead(r, pair)), acts)
    ensures var t := Run(Step(s, CallRead(r, pair)), acts); r < |t.readers| && t.readers[r].pc.Out?
  {
    FirstSteps(s, r, pair);
    hide Inv, Step, Enabled, Undisturbed, NoPublisher, NoCall;
    var s1 := Step(s, CallRead(r, pair));
    var s2 := Step(s1, GetSeq(r));
    var s3 := Step(s2, GetIndex(r));
    RunOne(s1, GetSeq(r));
    RunOne(s2, GetIndex(r));
    RunJoin(s1, [GetSeq(r)], [GetIndex(r)]);
    acts := [GetSeq(r)] + [GetIndex(r)];
    NoActs(r);
    OwnAct(GetIndex(r), [], r);
    OwnAct(GetSeq(r), [GetIndex(r)], r);
    assert [GetIndex(r)] + [] == [GetIndex(r)];
    if s3.readers[r].pc.Reading? {
      var rest := QuietReading(s, s3, r, pair);
      RunJoin(s1, acts, rest);
      OwnActs(acts, rest, r);
      acts := acts + rest;
    }
  }

  lemma FirstSteps(s: State, r: nat, pair: bool)
    requires Inv(s) && Enabled(s, CallRead(r, pair))
    ensures var s1 := Step(s, CallRead(r, pair));
            && Inv(s1) && Enabled(s1, GetSeq(r))
            && var s2 := Step(s1, GetSeq(r));
               && Inv(s2) && Enabled(s2, GetIndex(r))
               && var s3 := Step(s2, GetIndex(r));
                  && Inv(s3) && Undisturbed(s, s3, r, pair) && r < |s3.readers|
                  && (s3.readers[r].pc.Reading? || s3.readers[r].pc.Out?)
  {
    var s1 := Step(s, CallRead(r, pair));
    StepInv(s, CallRead(r, pair));
    var s2 := Step(s1, GetSeq(r));
    StepInv(s1, GetSeq(r));
    StepInv(s2, GetIndex(r));
    hide Inv;
    UndisturbedStep(s, s1, GetSeq(r), r, pair);
    UndisturbedStep(s, s2, GetIndex(r), r, pair);
  }

  /** The rest of it, from the first load on. */
  lemma QuietReading(s0: State, s: State, r: nat, pair: bool) returns (acts: seq<Action>)
    requires Inv(s0) && Inv(s) && Undisturbed(s0, s, r, pair) && r < |s.readers| && s.readers[r].pc.Reading?
    ensures NoPublisher(acts) && NoCall(acts, r) && CanRun(s, acts)
    ensures var t := Run(s, acts); r < |t.readers| && t.readers[r].pc.Out?
  {
    PairKept(s0, s, r, pair);
    hide Inv, Undisturbed, NoPublisher, NoCall, Complete, Step, Enabled;
    var a := LoadAll(s, r, false);
    UndisturbedRun(s0, s, a, r, pair);
    var t := Run(s, a);
    var b := [];
    NoActs(r);
    if pair {
      b := LoadAll(t, r, true);
      UndisturbedRun(s0, t, b, r, pair);
    }
    var u := Run(t, b);
    RunJoin(s, a, b);
    OwnActs(a, b, r);
    LastRecheck(s0, u, r, pair);
    RunOne(u, Recheck(r));
    RunJoin(s, a + b, [Recheck(r)]);
    OwnAct(Recheck(r), [], r);
    assert [Recheck(r)] + [] == [Recheck(r)];
    OwnActs(a + b, [Recheck(r)], r);
    acts := a + b + [Recheck(r)];
  }

  lemma PairKept(s0: State, s: State, r: nat, pair: bool)
    requires Undisturbed(s0, s, r, pair) && s.readers[r].pc.Reading?
    ensures s.readers[r].pc.pair == pair
  {
  }

  /** With everything loaded, an undisturbed recheck succeeds. */
  lemma LastRecheck(s0: State, s: State, r: nat, pair: bool)
    requires Undisturbed(s0, s, r, pair) && s.readers[r].pc.Reading?
    requires Complete(s.readers[r].pc.cur) && (pair ==> Complete(s.readers[r].pc.prev))
    ensures Enabled(s, Recheck(r)) && Step(s, Recheck(r)).readers[r].pc.Out?
  {
    hide Complete;
  }
}
