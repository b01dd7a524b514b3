/**
 * More ring objects over one buffer: the constructor of client/src/sim/snapshot.ts and
 * `pushTiccmd` beside the machine of `SnapshotRing`, again one shared-memory access at a time.
 * The first object has been constructed; any number of further ones are being constructed while
 * the publisher, the readers and the input side run.
 */
module RingConstruction {
  import opened SnapshotCodec
  import opened SnapshotRing

  /** The access a constructor makes next. */
  datatype Builder = GetsSeq | GetsTic | PutsPublished | PutsInputHead | Done

  /** `pushed` is auxiliary: the tics recorded by `pushTiccmd` so far. */
  datatype World = World(ring: State, inputHead: int, pushed: seq<nat>, builders: seq<Builder>)

  datatype Move =
    | Ring(act: Action)
    | Push(tic: nat)
    | Build(k: nat)

  function Fresh(readers: nat, builders: nat): World {
    World(Init(readers), -1, [], seq(builders, _ => GetsSeq))
  }

  predicate CanMove(w: World, m: Move) {
    match m
    case Ring(act) => Enabled(w.ring, act)
    case Push(_) => true
    case Build(k) => k < |w.builders| && !w.builders[k].Done?
  }

  /** The constructor takes a buffer whose SEQ and TIC it loads as 0 for a fresh one. */
  function Built(w: World, k: nat): World
    requires CanMove(w, Build(k))
  {
    match w.builders[k]
    case GetsSeq => w.(builders := w.builders[k := if w.ring.seqNo == 0 then GetsTic else Done])
    case GetsTic => w.(builders := w.builders[k := if w.ring.tic == 0 then PutsPublished else Done])
    case PutsPublished => w.(ring := w.ring.(published := -1), builders := w.builders[k := PutsInputHead])
    case _ => w.(inputHead := -1, builders := w.builders[k := Done])
  }

  function Moved(w: World, m: Move): World
    requires CanMove(w, m)
  {
    match m
    case Ring(act) => w.(ring := Step(w.ring, act))
    case Push(tic) => w.(inputHead := tic, pushed := w.pushed + [tic])
    case Build(k) => Built(w, k)
  }

  ghost predicate CanGo(w: World, moves: seq<Move>)
    decreases |moves|
  {
    moves == [] || (CanMove(w, moves[0]) && CanGo(Moved(w, moves[0]), moves[1..]))
  }

  ghost function Gone(w: World, moves: seq<Move>): World
    requires CanGo(w, moves)
    decreases |moves|
  {
    if moves == [] then w else Gone(Moved(w, moves[0]), moves[1..])
  }

  /** Nothing published and no recorded input is denied: what `readLatest` and `readTiccmd` rely on. */
  ghost predicate Unharmed(w: World) {
    Inv(w.ring) && w.inputHead == if w.pushed == [] then -1 else w.pushed[|w.pushed| - 1]
  }

  // ----- one store -----------------------------------------------------------------------------

  /** The next access of the constructor is a store that comes too late. */
  predicate TooLate(w: World, k: nat)
    requires k < |w.builders|
  {
    || (w.builders[k].PutsPublished? && PubCount(w.ring) > 0)
    || (w.builders[k].PutsInputHead? && w.pushed != [])
  }

  /**
   * An access of a constructor changes nothing that anyone else sees exactly when it is not a
   * store of PUBLISHED after some publication has stored it, nor one of INPUT_HEAD after an input
   * has been recorded; and what it then changes is lost for good.
   */
  lemma AccessHarmlessExactly(w: World, k: nat)
    requires Unharmed(w) && CanMove(w, Build(k))
    ensures !TooLate(w, k) <==> Built(w, k) == w.(builders := Built(w, k).builders)
    ensures !TooLate(w, k) <==> Unharmed(Built(w, k))
  {
    var t := Built(w, k);
    if w.builders[k].PutsPublished? {
      if PubCount(w.ring) > 0 {
        assert !PublisherOk(t.ring);
      } else {
        assert w.ring.(published := -1) == w.ring;
      }
    }
  }

  // ----- whole runs ----------------------------------------------------------------------------

  /** No constructor on the run stores too late. */
  ghost predicate Timely(w: World, moves: seq<Move>)
    requires CanGo(w, moves)
    decreases |moves|
  {
    moves == [] || ((moves[0].Build? ==> !TooLate(w, moves[0].k)) && Timely(Moved(w, moves[0]), moves[1..]))
  }

  /** Everything stays intact at every moment of the run. */
  ghost predicate AlwaysIntact(w: World, moves: seq<Move>)
    requires CanGo(w, moves)
    decreases |moves|
  {
    Unharmed(w) && (moves == [] || AlwaysIntact(Moved(w, moves[0]), moves[1..]))
  }

  /** What the publisher and the readers do on the run. */
  function RingActions(moves: seq<Move>): seq<Action> {
    if moves == [] then []
    else (if moves[0].Ring? then [moves[0].act] else []) + RingActions(moves[1..])
  }

  lemma OthersKeepUnharmed(w: World, m: Move)
    requires Unharmed(w) && CanMove(w, m) && !m.Build?
    ensures Unharmed(Moved(w, m))
  {
    if m.Ring? {
      StepInv(w.ring, m.act);
    }
  }

  /**
   * A run keeps everything intact exactly when every constructor on it is timely; and then the
   * publisher and the readers run as if no constructor were there.
   */
  lemma {:induction false} TimelyExactly(w: World, moves: seq<Move>)
    requires Unharmed(w) && CanGo(w, moves)
    ensures Timely(w, moves) <==> AlwaysIntact(w, moves)
    ensures Timely(w, moves) ==>
              CanRun(w.ring, RingActions(moves)) && Gone(w, moves).ring == Run(w.ring, RingActions(moves))
    decreases |moves|
  {
    hide Unharmed, Step, Enabled;
    if moves != [] {
      var m := moves[0];
      var next := Moved(w, m);
      if m.Build? {
        AccessHarmlessExactly(w, m.k);
        if !TooLate(w, m.k) {
          TimelyExactly(next, moves[1..]);
        } else {
          assert !AlwaysIntact(next, moves[1..]);
        }
      } else {
        OthersKeepUnharmed(w, m);
        TimelyExactly(next, moves[1..]);
      }
      if m.Ring? {
        assert RingActions(moves)[1..] == RingActions(moves[1..]);
      } else {
        assert RingActions(moves) == RingActions(moves[1..]);
      }
    }
  }

  lemma FreshUnharmed(readers: nat, builders: nat)
    ensures Unharmed(Fresh(readers, builders))
  {
    InitInv(readers);
  }

  /** With timely constructors every read is still whole. */
  lemma ReadsAreWholeBesideBuilders(readers: nat, builders: nat, moves: seq<Move>, r: nat, i: nat)
    requires CanGo(Fresh(readers, builders), moves) && Timely(Fresh(readers, builders), moves)
    requires var s := Gone(Fresh(readers, builders), moves).ring; r < |s.readers| && i < |s.readers[r].log|
    ensures var s := Gone(Fresh(readers, builders), moves).ring; Whole(s.readers[r].log[i], s.history)
  {
    FreshUnharmed(readers, builders);
    TimelyExactly(Fresh(readers, builders), moves);
    hide Whole, CanRun, Run, Timely, AlwaysIntact;
    ReadsAreWhole(readers, RingActions(moves), r, i);
  }

  // ----- when a further object may be constructed at all ---------------------------------------

  predicate NotStarted(w: World) {
    forall k :: 0 <= k < |w.builders| ==> w.builders[k].GetsSeq? || w.builders[k].Done?
  }

  lemma {:induction false} SafeOncePublished(w: World, moves: seq<Move>)
    requires Unharmed(w) && NotStarted(w) && w.ring.seqNo > 0 && CanGo(w, moves)
    ensures Timely(w, moves)
    decreases |moves|
  {
    if moves != [] {
      var m := moves[0];
      if m.Build? {
        AccessHarmlessExactly(w, m.k);
      } else {
        OthersKeepUnharmed(w, m);
      }
      hide Unharmed;
      SafeOncePublished(Moved(w, m), moves[1..]);
    }
  }

  /** Steps the publisher still has to take in this publication. */
  function Work(p: Publisher): nat {
    match p
    case Writing(_, _, todo) => 4 + |todo|
    case StoreTic(_, _) => 3
    case StorePublished(_) => 2
    case AddSeq => 1
    case Idle => 0
  }

  /** TIC once the publication under way has stored it. */
  function TicToBe(s: State): int {
    if s.publisher.Writing? || s.publisher.StoreTic? then ToInt32(s.publisher.snap.tic) else s.tic
  }

  /** The publisher's next step. */
  lemma NextStep(s: State) returns (act: Action)
    requires Inv(s) && !s.publisher.Idle?
    ensures Enabled(s, act) && IsPublisherAction(act) && Inv(Step(s, act))
    ensures var t := Step(s, act);
            && Work(t.publisher) == Work(s.publisher) - 1 && TicToBe(t) == TicToBe(s) && t.history == s.history
            && t.seqNo == s.seqNo + if s.publisher.AddSeq? then 1 else 0
  {
    match s.publisher
    case Writing(_, _, todo) =>
      if todo == {} {
        act := EndWrites;
      } else {
        var a :| a in todo;
        act := WriteWord(a);
        assert |todo - {a}| == |todo| - 1;
      }
      StepInv(s, act);
    case StoreTic(_, _) => act := PutTic; StepInv(s, act);
    case StorePublished(_) => act := PutPublished; StepInv(s, act);
    case AddSeq => act := PutSeq; StepInv(s, act);
  }

  /** The publisher can always go on alone, down to any amount of work left. */
  lemma {:induction false} Drive(w: World, goal: nat) returns (moves: seq<Move>)
    requires Unharmed(w) && goal <= Work(w.ring.publisher)
    ensures CanGo(w, moves) && Timely(w, moves)
    ensures var t := Gone(w, moves);
            && Unharmed(t) && Work(t.ring.publisher) == goal && t == w.(ring := t.ring)
            && t.ring.history == w.ring.history && TicToBe(t.ring) == TicToBe(w.ring)
            && t.ring.seqNo == w.ring.seqNo + if goal == 0 && !w.ring.publisher.Idle? then 1 else 0
    decreases Work(w.ring.publisher)
  {
    if Work(w.ring.publisher) == goal {
      moves := [];
    } else {
      var act := NextStep(w.ring);
      hide Step, Inv, Enabled, TicToBe;
      var next := Moved(w, Ring(act));
      var rest := Drive(next, goal);
      moves := [Ring(act)] + rest;
      GoOne(w, Ring(act), rest);
    }
  }

  lemma GoOne(w: World, m: Move, rest: seq<Move>)
    requires CanMove(w, m) && CanGo(Moved(w, m), rest)
    ensures CanGo(w, [m] + rest) && Gone(w, [m] + rest) == Gone(Moved(w, m), rest)
    ensures Timely(w, [m] + rest) <==> (m.Build? ==> !TooLate(w, m.k)) && Timely(Moved(w, m), rest)
  {
    hide CanMove, Moved, TooLate;
    assert ([m] + rest)[1..] == rest;
  }

  lemma {:induction false} GoJoin(w: World, a: seq<Move>, b: seq<Move>)
    requires CanGo(w, a) && CanGo(Gone(w, a), b)
    ensures CanGo(w, a + b) && Gone(w, a + b) == Gone(Gone(w, a), b)
    ensures Timely(w, a + b) <==> Timely(w, a) && Timely(Gone(w, a), b)
    decreases |a|
  {
    hide CanMove, Moved, TooLate;
    if a == [] {
      assert a + b == b;
    } else {
      assert (a + b)[1..] == a[1..] + b;
      GoJoin(Moved(w, a[0]), a[1..], b);
    }
  }

  /** Publish `snap` from rest, down to `goal` steps before the end. */
  lemma PublishTo(w: World, snap: Snapshot, goal: nat) returns (moves: seq<Move>)
    requires Unharmed(w) && w.ring.publisher.Idle? && goal <= 4
    ensures CanGo(w, moves) && Timely(w, moves)
    ensures var t := Gone(w, moves);
            && Unharmed(t) && Work(t.ring.publisher) == goal && t == w.(ring := t.ring)
            && t.ring.history == w.ring.history + [snap] && TicToBe(t.ring) == ToInt32(snap.tic)
            && t.ring.seqNo == w.ring.seqNo + if goal == 0 then 1 else 0
  {
    var begin := Ring(BeginPublish(snap));
    OthersKeepUnharmed(w, begin);
    var rest := Drive(Moved(w, begin), goal);
    GoOne(w, begin, rest);
    moves := [begin] + rest;
  }

  /**
   * The constructor of one more object is safe, whatever runs beside it, exactly when some
   * publication has completed before it starts. Otherwise it can load SEQ and TIC as 0 and come
   * to its stores after a publication.
   */
  lemma SafeToConstructExactly(w: World, k: nat)
    requires Unharmed(w) && NotStarted(w) && k < |w.builders| && w.builders[k].GetsSeq?
    ensures (forall moves :: CanGo(w, moves) ==> Timely(w, moves)) <==> w.ring.seqNo > 0
  {
    if w.ring.seqNo > 0 {
      forall moves | CanGo(w, moves) ensures Timely(w, moves) {
        SafeOncePublished(w, moves);
      }
    } else {
      var moves := Overtaken(w, k);
      assert CanGo(w, moves) && !Timely(w, moves);
    }
  }

  /** Some snapshot of tic 0. */
  function TicZero(): Snapshot {
    var none := Ammo(0, 0, 0, 0);
    Snapshot(0, Player(0, 0, 0, 0, 0, 0, 0, 0, 0, 0, none, none, 0, 0, 0, 0, 0, 0), [], [], Stats(0, 0, 0, 0, 0, 0, 0))
  }

  /** SEQ is loaded at once, TIC in the middle of a publication of tic 0, and PUBLISHED stored after it. */
  lemma Overtaken(w: World, k: nat) returns (moves: seq<Move>)
    requires Unharmed(w) && k < |w.builders| && w.builders[k].GetsSeq? && w.ring.seqNo == 0
    ensures CanGo(w, moves) && !Timely(w, moves)
  {
    hide Unharmed, Timely, CanGo, Gone, Moved, CanMove;
    LooksFresh(w, k);
    var w1 := Moved(w, Build(k));
    var a := Drive(w1, 0);
    var w2 := Gone(w1, a);
    var b, c := PublishedBetween(w2, k);
    GoJoin(w1, a, b + c);
    GoOne(w, Build(k), a + (b + c));
    moves := [Build(k)] + (a + (b + c));
  }

  lemma LooksFresh(w: World, k: nat)
    requires Unharmed(w) && k < |w.builders| && w.builders[k].GetsSeq? && w.ring.seqNo == 0
    ensures CanMove(w, Build(k)) && Unharmed(Moved(w, Build(k)))
    ensures var t := Moved(w, Build(k)); |t.builders| == |w.builders| && t.builders[k].GetsTic?
  {
    AccessHarmlessExactly(w, k);
  }

  lemma PublishedBetween(w: World, k: nat) returns (b: seq<Move>, c: seq<Move>)
    requires Unharmed(w) && k < |w.builders| && w.builders[k].GetsTic? && Work(w.ring.publisher) == 0
    ensures CanGo(w, b + c) && !Timely(w, b + c)
  {
    hide Unharmed, Timely, CanGo, Gone;
    b := PublishTo(w, TicZero(), 2);
    var w1 := Gone(w, b);
    c := LastLeg(w1, k);
    GoJoin(w, b, c);
  }

  lemma LastLeg(w: World, k: nat) returns (moves: seq<Move>)
    requires Unharmed(w) && k < |w.builders| && w.builders[k].GetsTic? && w.ring.tic == 0
    requires w.ring.publisher.StorePublished?
    ensures CanGo(w, moves) && !Timely(w, moves)
  {
    var w1 := Moved(w, Build(k));
    AccessHarmlessExactly(w, k);
    hide Unharmed, Inv, Step, Enabled, Timely;
    var c := Drive(w1, 1);
    var w2 := Gone(w1, c);
    assert TooLate(w2, k);
    UntimelyStore(w2, k);
    GoJoin(w1, c, [Build(k)]);
    GoOne(w, Build(k), c + [Build(k)]);
    moves := [Build(k)] + (c + [Build(k)]);
  }

  lemma UntimelyStore(w: World, k: nat)
    requires CanMove(w, Build(k)) && TooLate(w, k)
    ensures CanGo(w, [Build(k)]) && !Timely(w, [Build(k)])
  {
    hide TooLate, Moved;
    assert [Build(k)][0] == Build(k);
  }

  // ----- three runs that lose something --------------------------------------------------------

  /**
   * A constructor that looked before the first publication, of any tic, and stores after it:
   * the ring says nothing is published although one snapshot is.
   */
  lemma LateConstructorLosesPublication(snap: Snapshot) returns (moves: seq<Move>)
    ensures CanGo(Fresh(1, 1), moves)
    ensures var s := Gone(Fresh(1, 1), moves).ring;
            s.history == [snap] && s.seqNo == 1 && s.publisher.Idle? && s.published == -1
  {
    var w := Fresh(1, 1);
    FreshUnharmed(1, 1);
    var w1 := Moved(w, Build(0));
    var w2 := Moved(w1, Build(0));
    AccessHarmlessExactly(w, 0);
    AccessHarmlessExactly(w1, 0);
    hide Unharmed, Inv, Step, Enabled;
    var a := PublishTo(w2, snap, 0);
    var w3 := Gone(w2, a);
    var w4 := Moved(w3, Build(0));
    assert CanGo(w4, []);
    GoOne(w3, Build(0), []);
    assert [Build(0)] + [] == [Build(0)];
    GoJoin(w2, a, [Build(0)]);
    GoOne(w1, Build(0), a + [Build(0)]);
    GoOne(w, Build(0), [Build(0)] + (a + [Build(0)]));
    moves := [Build(0)] + ([Build(0)] + (a + [Build(0)]));
  }

  /** A whole constructor between the two last stores of a first publication of tic 0. */
  lemma ConstructorInsidePublication(snap: Snapshot) returns (moves: seq<Move>)
    requires ToInt32(snap.tic) == 0
    ensures CanGo(Fresh(0, 1), moves)
    ensures var t := Gone(Fresh(0, 1), moves);
            t.ring.history == [snap] && t.ring.publisher.AddSeq? && t.ring.published == -1 && t.builders == [Done]
  {
    var w := Fresh(0, 1);
    FreshUnharmed(0, 1);
    hide Unharmed, Inv, Step, Enabled;
    var a := PublishTo(w, snap, 1);
    var w1 := Gone(w, a);
    var w2 := Moved(w1, Build(0));
    var w3 := Moved(w2, Build(0));
    var w4 := Moved(w3, Build(0));
    var w5 := Moved(w4, Build(0));
    assert CanGo(w5, []);
    GoOne(w4, Build(0), []);
    GoOne(w3, Build(0), [Build(0)] + []);
    GoOne(w2, Build(0), [Build(0)] + ([Build(0)] + []));
    var four := [Build(0)] + ([Build(0)] + ([Build(0)] + ([Build(0)] + [])));
    GoOne(w1, Build(0), [Build(0)] + ([Build(0)] + ([Build(0)] + [])));
    GoJoin(w, a, four);
    moves := a + four;
  }

  /** An input recorded for tic 0 on a fresh ring is forgotten by the next object over the buffer. */
  lemma ConstructorLosesInput() returns (moves: seq<Move>)
    ensures CanGo(Fresh(0, 1), moves)
    ensures var t := Gone(Fresh(0, 1), moves);
            t.pushed == [0] && t.inputHead == -1 && t.ring.publisher.Idle? && t.ring.history == []
  {
    var w := Fresh(0, 1);
    var w1 := Moved(w, Push(0));
    var w2 := Moved(w1, Build(0));
    var w3 := Moved(w2, Build(0));
    var w4 := Moved(w3, Build(0));
    var w5 := Moved(w4, Build(0));
    hide Moved, CanMove;
    assert CanGo(w5, []);
    moves := [Push(0)] + ([Build(0)] + ([Build(0)] + ([Build(0)] + ([Build(0)] + []))));
    GoOne(w4, Build(0), []);
    GoOne(w3, Build(0), [Build(0)] + []);
    GoOne(w2, Build(0), [Build(0)] + ([Build(0)] + []));
    GoOne(w1, Build(0), [Build(0)] + ([Build(0)] + ([Build(0)] + [])));
    GoOne(w, Push(0), [Build(0)] + ([Build(0)] + ([Build(0)] + ([Build(0)] + []))));
  }
}
