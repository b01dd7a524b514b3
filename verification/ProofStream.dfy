/**
 * The parsing half of client/src/chain/proof.ts: a Cairo-serde `CircuitProof` stream cut into
 * the sections the resumable verifier consumes.
 *
 * `End` says where an element of a given shape ends, from its own length prefixes alone;
 * `ParseProof` is written with it, in the source's order, and `Rebuild` puts the whole stream
 * back together from the sections.
 */
module ProofStream {
  import opened Sequences
  import opened Wrappers

  const QM31_FELTS := 4
  const HASH_FELTS := 8
  const N_TREES := 4
  const INTERACTION_CLAIM_FELTS := 44
  const PCS_CONFIG_FELTS := 5

  /** The shapes of the stream: `take(n)`, `array(e)`, a counted list, one shape after another. */
  datatype Shape =
    | Raw(n: nat)
    | Span(elemFelts: nat)
    | Many(item: Shape)
    | Then(first: Shape, second: Shape)

  const Layer := Then(Span(QM31_FELTS), Then(Span(HASH_FELTS), Raw(HASH_FELTS)))
  const Sampled := Many(Many(Span(QM31_FELTS)))
  const Commitments := Then(Span(QM31_FELTS), Then(Raw(1), Then(Raw(INTERACTION_CLAIM_FELTS),
                         Then(Raw(PCS_CONFIG_FELTS), Span(HASH_FELTS)))))
  const LastLayer := Then(Span(QM31_FELTS), Raw(1))
  /** After the sampled values: decommitments, queried values, nonce, layers, last layer, salt. */
  const Walk := Then(Layer, Then(Many(Layer), Then(LastLayer, Raw(1))))
  const Queries := Then(Many(Span(HASH_FELTS)), Then(Many(Span(1)), Then(Raw(1), Walk)))
  const CircuitProof := Then(Commitments, Then(Sampled, Queries))

  /** Where the element of shape `k` that starts at `pos` ends; `None` when the stream stops short. */
  function End(v: seq<nat>, pos: nat, k: Shape): Option<nat>
    requires pos <= |v|
    ensures End(v, pos, k).Some? ==> pos <= End(v, pos, k).value <= |v|
    decreases k, 0, 0
  {
    match k
    case Raw(n) => if pos + n <= |v| then Some(pos + n) else None
    case Span(e) => if pos < |v| && pos + 1 + v[pos] * e <= |v| then Some(pos + 1 + v[pos] * e) else None
    case Many(item) => if pos < |v| then EndMany(v, pos + 1, item, v[pos]) else None
    case Then(first, second) =>
      match End(v, pos, first)
      case Some(p) => End(v, p, second)
      case None => None
  }

  function EndMany(v: seq<nat>, pos: nat, item: Shape, n: nat): Option<nat>
    requires pos <= |v|
    ensures EndMany(v, pos, item, n).Some? ==> pos <= EndMany(v, pos, item, n).value <= |v|
    decreases item, 1, n
  {
    if n == 0 then Some(pos)
    else
      match End(v, pos, item)
      case Some(p) => EndMany(v, p, item, n - 1)
      case None => None
  }

  /** The `n` consecutive elements themselves. */
  function Items(v: seq<nat>, pos: nat, item: Shape, n: nat): Option<seq<seq<nat>>>
    requires pos <= |v|
    decreases n
  {
    if n == 0 then Some([])
    else
      match End(v, pos, item)
      case None => None
      case Some(p) =>
        match Items(v, p, item, n - 1)
        case None => None
        case Some(rest) => Some([v[pos..p]] + rest)
  }

  /** `v` and `w` hold the same felts from `pos` (in `v`) and `at` (in `w`) on, `len` of them. */
  ghost predicate Same(v: seq<nat>, pos: nat, w: seq<nat>, at: nat, len: nat) {
    pos + len <= |v| && at + len <= |w| && v[pos..pos + len] == w[at..at + len]
  }

  lemma SameParts(v: seq<nat>, pos: nat, w: seq<nat>, at: nat, len: nat, k: nat)
    requires Same(v, pos, w, at, len) && k <= len
    ensures Same(v, pos, w, at, k)
    ensures Same(v, pos + k, w, at + k, len - k)
    ensures 0 < len ==> v[pos] == w[at]
  {
    assert v[pos..pos + k] == v[pos..pos + len][..k];
    assert v[pos + k..pos + len] == v[pos..pos + len][k..];
    assert w[at..at + k] == w[at..at + len][..k];
    assert w[at + k..at + len] == w[at..at + len][k..];
    assert 0 < len ==> v[pos] == v[pos..pos + len][0] && w[at] == w[at..at + len][0];
  }

  /** An element is self-delimiting: its end depends on nothing but its own felts. */
  lemma {:induction false} EndIsLocal(v: seq<nat>, pos: nat, k: Shape, w: seq<nat>, at: nat)
    requires pos <= |v| && at <= |w| && End(v, pos, k).Some?
    requires Same(v, pos, w, at, End(v, pos, k).value - pos)
    ensures End(w, at, k) == Some(at + (End(v, pos, k).value - pos))
    decreases k, 0, 0
  {
    hide Same, EndMany;
    var len := End(v, pos, k).value - pos;
    match k
    case Raw(_) => RawIsLocal(v, pos, k, w, at);
    case Span(e) => SpanIsLocal(v, pos, e, w, at);
    case Many(item) =>
      SameParts(v, pos, w, at, len, 1);
      EndManyIsLocal(v, pos + 1, item, v[pos], w, at + 1);
    case Then(first, second) =>
      var p := End(v, pos, first).value;
      SameParts(v, pos, w, at, len, p - pos);
      EndIsLocal(v, pos, first, w, at);
      EndIsLocal(v, p, second, w, at + (p - pos));
  }

  lemma RawIsLocal(v: seq<nat>, pos: nat, k: Shape, w: seq<nat>, at: nat)
    requires k.Raw? && pos <= |v| && at <= |w| && End(v, pos, k).Some?
    requires Same(v, pos, w, at, End(v, pos, k).value - pos)
    ensures End(w, at, k) == Some(at + (End(v, pos, k).value - pos))
  {
  }

  lemma SpanIsLocal(v: seq<nat>, pos: nat, e: nat, w: seq<nat>, at: nat)
    requires pos <= |v| && at <= |w| && End(v, pos, Span(e)).Some?
    requires Same(v, pos, w, at, End(v, pos, Span(e)).value - pos)
    ensures End(w, at, Span(e)) == Some(at + (End(v, pos, Span(e)).value - pos))
  {
    SameParts(v, pos, w, at, End(v, pos, Span(e)).value - pos, 0);
  }

  lemma {:induction false} EndManyIsLocal(v: seq<nat>, pos: nat, item: Shape, n: nat, w: seq<nat>, at: nat)
    requires pos <= |v| && at <= |w| && EndMany(v, pos, item, n).Some?
    requires Same(v, pos, w, at, EndMany(v, pos, item, n).value - pos)
    ensures EndMany(w, at, item, n) == Some(at + (EndMany(v, pos, item, n).value - pos))
    decreases item, 1, n
  {
    hide End, Same;
    if n > 0 {
      var p := End(v, pos, item).value;
      SameParts(v, pos, w, at, EndMany(v, pos, item, n).value - pos, p - pos);
      EndIsLocal(v, pos, item, w, at);
      EndManyIsLocal(v, p, item, n - 1, w, at + (p - pos));
    }
  }

  /** `x` is exactly one element of shape `k`. */
  predicate Is(x: seq<nat>, k: Shape) {
    End(x, 0, k) == Some(|x|)
  }

  /** The items of a list are whole elements, and concatenating them gives the stretch back. */
  lemma {:induction false} ItemsAre(v: seq<nat>, pos: nat, item: Shape, n: nat)
    requires pos <= |v|
    ensures Items(v, pos, item, n).Some? <==> EndMany(v, pos, item, n).Some?
    ensures Items(v, pos, item, n).Some? ==>
              var xs := Items(v, pos, item, n).value;
              && |xs| == n
              && Flatten(xs) == v[pos..EndMany(v, pos, item, n).value]
              && forall i :: 0 <= i < n ==> Is(xs[i], item)
    decreases n
  {
    hide End;
    if n > 0 && End(v, pos, item).Some? {
      var p := End(v, pos, item).value;
      ItemsAre(v, p, item, n - 1);
      FirstItemIs(v, pos, item);
      if Items(v, p, item, n - 1).Some? {
        var rest, e := Items(v, p, item, n - 1).value, EndMany(v, pos, item, n).value;
        hide Is, Items;
        FlattenCons(v[pos..p], rest);
        assert v[pos..p] + v[p..e] == v[pos..e];
      }
    }
  }

  lemma FlattenCons(x: seq<nat>, rest: seq<seq<nat>>)
    ensures Flatten([x] + rest) == x + Flatten(rest)
  {
    assert ([x] + rest)[1..] == rest;
  }

  /** An element cut out of its stream is an element on its own. */
  lemma FirstItemIs(v: seq<nat>, pos: nat, item: Shape)
    requires pos <= |v| && End(v, pos, item).Some?
    ensures Is(v[pos..End(v, pos, item).value], item)
  {
    hide End;
    var x := v[pos..End(v, pos, item).value];
    assert x[0..|x|] == x;
    EndIsLocal(v, pos, item, x, 0);
  }

  /** Whole elements laid end to end are read back one by one. */
  lemma {:induction false} ItemsOfFlatten(v: seq<nat>, pos: nat, item: Shape, xs: seq<seq<nat>>)
    requires pos + |Flatten(xs)| <= |v| && v[pos..pos + |Flatten(xs)|] == Flatten(xs)
    requires forall i :: 0 <= i < |xs| ==> Is(xs[i], item)
    ensures Items(v, pos, item, |xs|) == Some(xs)
    ensures EndMany(v, pos, item, |xs|) == Some(pos + |Flatten(xs)|)
    decreases |xs|
  {
    hide End, Is;
    if xs != [] {
      var x, rest := xs[0], Flatten(xs[1..]);
      var stretch := v[pos..pos + |Flatten(xs)|];
      assert v[pos..pos + |x|] == stretch[..|x|] == x == x[0..0 + |x|];
      assert v[pos + |x|..pos + |x| + |rest|] == stretch[|x|..] == rest;
      ItemPlaced(v, pos, item, x);
      assert forall i :: 0 <= i < |xs| - 1 ==> xs[1..][i] == xs[i + 1];
      hide Is, Flatten;
      ItemsOfFlatten(v, pos + |x|, item, xs[1..]);
      assert [x] + xs[1..] == xs;
    }
  }

  /** An element found in a stream ends there as it does on its own. */
  lemma ItemPlaced(v: seq<nat>, pos: nat, item: Shape, x: seq<nat>)
    requires Is(x, item) && pos + |x| <= |v| && v[pos..pos + |x|] == x
    ensures End(v, pos, item) == Some(pos + |x|)
  {
    hide End;
    assert x[0..|x|] == x;
    EndIsLocal(x, 0, item, v, pos);
  }

  // ----- the sections ------------------------------------------------------------------------

  datatype ProofSections = ProofSections(
    head: seq<nat>,
    sampled: seq<nat>,
    queriedValues: seq<seq<nat>>,
    decommitments: seq<seq<nat>>,
    layers: seq<seq<nat>>,
    pcsConfig: seq<nat>)

  function Truncated(e: Option<nat>): Result<nat> {
    match e
    case Some(p) => Ok(p)
    case None => Err("truncated proof stream")
  }

  /** `slice(-HASH_FELTS)`. */
  function Commitment(layer: seq<nat>): (r: seq<nat>)
    requires |layer| >= HASH_FELTS
    ensures |r| == HASH_FELTS
  {
    layer[|layer| - HASH_FELTS..]
  }

  function CommitmentsOf(layers: seq<seq<nat>>): seq<nat>
    requires forall l :: l in layers ==> |l| >= HASH_FELTS
  {
    if layers == [] then [] else Commitment(layers[0]) + CommitmentsOf(layers[1..])
  }

  lemma LayerIsLong(l: seq<nat>)
    requires Is(l, Layer)
    ensures |l| >= HASH_FELTS
  {
  }

  lemma LayersAreLong(layers: seq<seq<nat>>)
    requires forall i :: 0 <= i < |layers| ==> Is(layers[i], Layer)
    ensures forall l :: l in layers ==> |l| >= HASH_FELTS
  {
    forall l | l in layers ensures |l| >= HASH_FELTS {
      var i :| 0 <= i < |layers| && layers[i] == l;
      LayerIsLong(l);
    }
  }

  lemma {:induction false} CommitmentsLength(layers: seq<seq<nat>>)
    requires forall l :: l in layers ==> |l| >= HASH_FELTS
    ensures |CommitmentsOf(layers)| == HASH_FELTS * |layers|
  {
    if layers != [] {
      CommitmentsLength(layers[1..]);
    }
  }

  /** The transcript-bound part of the FRI walk: every commitment, the inner count, the last layer. */
  function FriHead(layers: seq<seq<nat>>, lastLayer: seq<nat>): seq<nat>
    requires |layers| >= 1 && forall l :: l in layers ==> |l| >= HASH_FELTS
  {
    Commitment(layers[0]) + [|layers| - 1] + CommitmentsOf(layers[1..]) + lastLayer
  }

  /** Where each field of a stream ends, in stream order. */
  datatype Cuts = Cuts(claim: nat, pow: nat, interaction: nat, pcs: nat, commitments: nat, sampled: nat,
                       decommitments: nat, queried: nat, nonce: nat, firstLayer: nat, innerLayers: nat,
                       lastLayer: nat, salt: nat)

  predicate Ordered(c: Cuts, n: nat) {
    && c.claim <= c.pow <= c.interaction <= c.pcs <= c.commitments <= c.sampled <= c.decommitments
    && c.decommitments <= c.queried <= c.nonce <= c.firstLayer <= c.innerLayers <= c.lastLayer <= c.salt <= n
    && c.nonce == c.queried + 1
  }

  /** The counted parts of the stream. */
  ghost predicate AreCuts(v: seq<nat>, c: Cuts)
    requires Ordered(c, |v|)
  {
    && End(v, 0, Commitments) == Some(c.commitments)
    && End(v, c.sampled, Many(Span(HASH_FELTS))) == Some(c.decommitments)
    && End(v, c.decommitments, Many(Span(1))) == Some(c.queried)
    && End(v, c.nonce, Layer) == Some(c.firstLayer)
    && End(v, c.firstLayer, Many(Layer)) == Some(c.innerLayers)
  }

  /** Up to and including the sampled values. */
  function PrefixCuts(v: seq<nat>): (r: Result<(nat, nat, nat, nat, nat, nat)>)
    ensures r.Ok? ==> r.value.0 <= r.value.1 <= r.value.2 <= r.value.3 <= r.value.4 <= r.value.5 <= |v|
  {
    var claim :- Truncated(End(v, 0, Span(QM31_FELTS)));
    var pow :- Truncated(End(v, claim, Raw(1)));
    var interaction :- Truncated(End(v, pow, Raw(INTERACTION_CLAIM_FELTS)));
    var pcs :- Truncated(End(v, interaction, Raw(PCS_CONFIG_FELTS)));
    var commitments :- Truncated(End(v, pcs, Span(HASH_FELTS)));
    var sampled :- Truncated(End(v, commitments, Sampled));
    Ok((claim, pow, interaction, pcs, commitments, sampled))
  }

  /** The Merkle decommitments, the queried values and the proof-of-work nonce. */
  function QueryCuts(v: seq<nat>, sampled: nat): (r: Result<(nat, nat, nat)>)
    requires sampled <= |v|
    ensures r.Ok? ==> sampled <= r.value.0 <= r.value.1 < r.value.2 <= |v| && r.value.2 == r.value.1 + 1
  {
    var decommitments :- Truncated(End(v, sampled, Many(Span(HASH_FELTS))));
    var queried :- Truncated(End(v, decommitments, Many(Span(1))));
    var nonce :- Truncated(End(v, queried, Raw(1)));
    Ok((decommitments, queried, nonce))
  }

  /** The FRI walk and the salt. */
  function WalkCuts(v: seq<nat>, nonce: nat): (r: Result<(nat, nat, nat, nat)>)
    requires nonce <= |v|
    ensures r.Ok? ==> nonce <= r.value.0 <= r.value.1 <= r.value.2 <= r.value.3 <= |v|
  {
    var firstLayer :- Truncated(End(v, nonce, Layer));
    var innerLayers :- Truncated(End(v, firstLayer, Many(Layer)));
    var lastLayer :- Truncated(End(v, innerLayers, LastLayer));
    var salt :- Truncated(End(v, lastLayer, Raw(1)));
    Ok((firstLayer, innerLayers, lastLayer, salt))
  }

  function CutsOf(v: seq<nat>): (r: Result<Cuts>)
    ensures r.Ok? ==> Ordered(r.value, |v|)
  {
    var p :- PrefixCuts(v);
    var q :- QueryCuts(v, p.5);
    var w :- WalkCuts(v, q.2);
    Ok(Cuts(p.0, p.1, p.2, p.3, p.4, p.5, q.0, q.1, q.2, w.0, w.1, w.2, w.3))
  }

  lemma CutsAre(v: seq<nat>)
    requires CutsOf(v).Ok?
    ensures AreCuts(v, CutsOf(v).value)
  {
    hide End;
    var c := CutsOf(v).value;
    PrefixEnds(v, c.claim, c.pow, c.interaction, c.pcs, c.commitments);
  }

  lemma PrefixEnds(v: seq<nat>, claim: nat, pow: nat, interaction: nat, pcs: nat, commitments: nat)
    requires End(v, 0, Span(QM31_FELTS)) == Some(claim)
    requires End(v, claim, Raw(1)) == Some(pow)
    requires End(v, pow, Raw(INTERACTION_CLAIM_FELTS)) == Some(interaction)
    requires End(v, interaction, Raw(PCS_CONFIG_FELTS)) == Some(pcs)
    requires End(v, pcs, Span(HASH_FELTS)) == Some(commitments)
    ensures End(v, 0, Commitments) == Some(commitments)
  {
    hide End;
    CommitmentsEnd(v);
  }

  function AndThen(v: seq<nat>, p: Option<nat>, k: Shape): Option<nat>
    requires p.Some? ==> p.value <= |v|
  {
    if p.Some? then End(v, p.value, k) else None
  }

  lemma ThenEnds(v: seq<nat>, pos: nat, a: Shape, b: Shape)
    requires pos <= |v|
    ensures End(v, pos, Then(a, b)) == AndThen(v, End(v, pos, a), b)
  {
  }

  lemma CommitmentsEnd(v: seq<nat>)
    ensures End(v, 0, Commitments) ==
            AndThen(v, AndThen(v, AndThen(v, AndThen(v, End(v, 0, Span(QM31_FELTS)), Raw(1)),
                    Raw(INTERACTION_CLAIM_FELTS)), Raw(PCS_CONFIG_FELTS)), Span(HASH_FELTS))
  {
    hide End;
    var c3 := Then(Raw(PCS_CONFIG_FELTS), Span(HASH_FELTS));
    var c2 := Then(Raw(INTERACTION_CLAIM_FELTS), c3);
    var p1 := End(v, 0, Span(QM31_FELTS));
    ThenEnds(v, 0, Span(QM31_FELTS), Then(Raw(1), c2));
    if p1.Some? {
      ThenEnds(v, p1.value, Raw(1), c2);
      var p2 := End(v, p1.value, Raw(1));
      if p2.Some? {
        ThenEnds(v, p2.value, Raw(INTERACTION_CLAIM_FELTS), c3);
        var p3 := End(v, p2.value, Raw(INTERACTION_CLAIM_FELTS));
        if p3.Some? {
          ThenEnds(v, p3.value, Raw(PCS_CONFIG_FELTS), Span(HASH_FELTS));
        }
      }
    }
  }

  lemma WalkEnds(v: seq<nat>, pos: nat)
    requires pos <= |v|
    ensures End(v, pos, Walk) ==
            AndThen(v, AndThen(v, AndThen(v, End(v, pos, Layer), Many(Layer)), LastLayer), Raw(1))
  {
    hide End;
    ThenEnds(v, pos, Layer, Then(Many(Layer), Then(LastLayer, Raw(1))));
    var p1 := End(v, pos, Layer);
    if p1.Some? {
      ThenEnds(v, p1.value, Many(Layer), Then(LastLayer, Raw(1)));
      var p2 := End(v, p1.value, Many(Layer));
      if p2.Some? {
        ThenEnds(v, p2.value, LastLayer, Raw(1));
      }
    }
  }

  lemma QueriesEnd(v: seq<nat>, pos: nat)
    requires pos <= |v|
    ensures End(v, pos, Queries) ==
            AndThen(v, AndThen(v, AndThen(v, End(v, pos, Many(Span(HASH_FELTS))), Many(Span(1))), Raw(1)), Walk)
  {
    hide End;
    ThenEnds(v, pos, Many(Span(HASH_FELTS)), Then(Many(Span(1)), Then(Raw(1), Walk)));
    var p1 := End(v, pos, Many(Span(HASH_FELTS)));
    if p1.Some? {
      ThenEnds(v, p1.value, Many(Span(1)), Then(Raw(1), Walk));
      var p2 := End(v, p1.value, Many(Span(1)));
      if p2.Some? {
        ThenEnds(v, p2.value, Raw(1), Walk);
      }
    }
  }

  /** The cuts exist exactly when the stream starts with a circuit proof, and the last one is its end. */
  lemma CutsExactly(v: seq<nat>)
    ensures CutsOf(v).Ok? <==> End(v, 0, CircuitProof).Some?
    ensures CutsOf(v).Ok? ==> End(v, 0, CircuitProof) == Some(CutsOf(v).value.salt)
  {
    hide End;
    ThenEnds(v, 0, Commitments, Then(Sampled, Queries));
    CommitmentsEnd(v);
    var p1 := End(v, 0, Commitments);
    if p1.Some? {
      ThenEnds(v, p1.value, Sampled, Queries);
      var p2 := End(v, p1.value, Sampled);
      if p2.Some? {
        QueriesEnd(v, p2.value);
        var p3 := AndThen(v, AndThen(v, End(v, p2.value, Many(Span(HASH_FELTS))), Many(Span(1))), Raw(1));
        if p3.Some? {
          WalkEnds(v, p3.value);
        }
      }
    }
  }

  /** The items of the counted list at `pos`, when there is one. */
  function ListAt(v: seq<nat>, pos: nat, item: Shape): seq<seq<nat>>
    requires pos <= |v|
  {
    if pos < |v| then
      match Items(v, pos + 1, item, v[pos])
      case Some(xs) => xs
      case None => []
    else []
  }

  lemma ListAtIs(v: seq<nat>, pos: nat, item: Shape)
    requires pos <= |v| && End(v, pos, Many(item)).Some?
    ensures pos < |v| && |ListAt(v, pos, item)| == v[pos]
    ensures v[pos..End(v, pos, Many(item)).value] == [|ListAt(v, pos, item)|] + Flatten(ListAt(v, pos, item))
    ensures forall i :: 0 <= i < |ListAt(v, pos, item)| ==> Is(ListAt(v, pos, item)[i], item)
  {
    ItemsAre(v, pos + 1, item, v[pos]);
  }

  function LayersAt(v: seq<nat>, nonce: nat, firstLayer: nat): (layers: seq<seq<nat>>)
    requires nonce <= firstLayer <= |v| && End(v, nonce, Layer) == Some(firstLayer)
    requires End(v, firstLayer, Many(Layer)).Some?
    ensures |layers| >= 1
    ensures forall i :: 0 <= i < |layers| ==> Is(layers[i], Layer)
    ensures forall l :: l in layers ==> |l| >= HASH_FELTS
  {
    LayersFacts(v, nonce, firstLayer);
    [v[nonce..firstLayer]] + ListAt(v, firstLayer, Layer)
  }

  lemma LayersFacts(v: seq<nat>, nonce: nat, firstLayer: nat)
    requires nonce <= firstLayer <= |v| && End(v, nonce, Layer) == Some(firstLayer)
    requires End(v, firstLayer, Many(Layer)).Some?
    ensures var layers := [v[nonce..firstLayer]] + ListAt(v, firstLayer, Layer);
            && (forall i :: 0 <= i < |layers| ==> Is(layers[i], Layer))
            && (forall l :: l in layers ==> |l| >= HASH_FELTS)
  {
    hide End, ListAt, Is;
    ListAtIs(v, firstLayer, Layer);
    FirstItemIs(v, nonce, Layer);
    LayersAreLong([v[nonce..firstLayer]] + ListAt(v, firstLayer, Layer));
  }

  /** `parseProof`: the stream cut at its own length prefixes, or the error the source throws. */
  function ParseProof(v: seq<nat>): Result<ProofSections> {
    var c :- CutsOf(v);
    var decommitments := ListAt(v, c.sampled, Span(HASH_FELTS));
    var queriedValues := ListAt(v, c.decommitments, Span(1));
    if c.salt != |v| then Err("trailing proof data")
    else if |decommitments| != N_TREES || |queriedValues| != N_TREES then Err("expected 4 Merkle trees")
    else
      CutsAre(v);
      var layers := LayersAt(v, c.nonce, c.firstLayer);
      Ok(ProofSections(
           HeadOf(v, c, layers), v[c.commitments..c.sampled], queriedValues, decommitments, layers,
           v[c.interaction..c.pcs]))
  }

  /** Everything `begin` mixes into the transcript, in order. */
  function HeadOf(v: seq<nat>, c: Cuts, layers: seq<seq<nat>>): seq<nat>
    requires Ordered(c, |v|) && |layers| >= 1 && forall l :: l in layers ==> |l| >= HASH_FELTS
  {
    v[..c.claim] + v[c.claim..c.pow] + v[c.pow..c.interaction] + v[c.interaction..c.pcs]
    + v[c.pcs..c.commitments] + v[c.commitments..c.sampled] + v[c.queried..c.nonce]
    + FriHead(layers, v[c.innerLayers..c.lastLayer]) + v[c.lastLayer..c.salt]
  }

  /**
   * The stream put back together from its sections. Everything but the Merkle sections and the
   * bodies of the FRI layers is in the head; its own length prefixes and the section sizes say where.
   */
  function Rebuild(sec: ProofSections): Option<seq<nat>> {
    match End(sec.head, 0, Commitments)
    case None => None
    case Some(c) =>
      var nonce := c + |sec.sampled|;
      var last := nonce + 1 + HASH_FELTS * |sec.layers| + 1;
      if sec.layers == [] || last > |sec.head| then None
      else
        Some(sec.head[..nonce]
             + [|sec.decommitments|] + Flatten(sec.decommitments)
             + [|sec.queriedValues|] + Flatten(sec.queriedValues)
             + sec.head[nonce..nonce + 1]
             + sec.layers[0] + [|sec.layers| - 1] + Flatten(sec.layers[1..])
             + sec.head[last..])
  }

  lemma HeadParts(v: seq<nat>, c: Cuts, layers: seq<seq<nat>>)
    requires Ordered(c, |v|) && c.salt == |v|
    requires |layers| >= 1 && forall l :: l in layers ==> |l| >= HASH_FELTS
    ensures var head := HeadOf(v, c, layers);
            var last := c.sampled + 1 + HASH_FELTS * |layers| + 1;
            && last <= |head|
            && head[..c.sampled] == v[..c.sampled]
            && head[c.sampled..c.sampled + 1] == v[c.queried..c.nonce]
            && head[last..] == v[c.innerLayers..]
  {
    hide CommitmentsOf, Commitment, HeadOf;
    CommitmentsLength(layers[1..]);
    var middle := Commitment(layers[0]) + [|layers| - 1] + CommitmentsOf(layers[1..]);
    HeadIs(v, c, layers, middle);
    Spliced(v[..c.sampled], v[c.queried..c.nonce], middle, v[c.innerLayers..]);
  }

  lemma HeadIs(v: seq<nat>, c: Cuts, layers: seq<seq<nat>>, middle: seq<nat>)
    requires Ordered(c, |v|) && c.salt == |v|
    requires |layers| >= 1 && forall l :: l in layers ==> |l| >= HASH_FELTS
    requires middle == Commitment(layers[0]) + [|layers| - 1] + CommitmentsOf(layers[1..])
    ensures HeadOf(v, c, layers) == v[..c.sampled] + v[c.queried..c.nonce] + middle + v[c.innerLayers..]
  {
    HeadFront(v, c);
    hide CommitmentsOf, Commitment;
    var nonce, last, salt := v[c.queried..c.nonce], v[c.innerLayers..c.lastLayer], v[c.lastLayer..c.salt];
    assert last + salt == v[c.innerLayers..];
    assert FriHead(layers, last) == middle + last;
    Associate(v[..c.sampled], nonce, middle, last, salt);
  }

  lemma Associate(a: seq<nat>, b: seq<nat>, m: seq<nat>, y: seq<nat>, z: seq<nat>)
    ensures a + b + (m + y) + z == a + b + m + (y + z)
  {
  }

  lemma HeadFront(v: seq<nat>, c: Cuts)
    requires Ordered(c, |v|)
    ensures v[..c.claim] + v[c.claim..c.pow] + v[c.pow..c.interaction] + v[c.interaction..c.pcs]
            + v[c.pcs..c.commitments] + v[c.commitments..c.sampled] == v[..c.sampled]
  {
    SliceJoin(v, c.claim, c.pow);
    SliceJoin(v, c.pow, c.interaction);
    SliceJoin(v, c.interaction, c.pcs);
    SliceJoin(v, c.pcs, c.commitments);
    SliceJoin(v, c.commitments, c.sampled);
  }

  /** One more stretch after a prefix. */
  lemma SliceJoin(v: seq<nat>, a: nat, b: nat)
    requires a <= b <= |v|
    ensures v[..a] + v[a..b] == v[..b]
  {
  }

  lemma Spliced(a: seq<nat>, b: seq<nat>, m: seq<nat>, z: seq<nat>)
    ensures var s := a + b + m + z;
            && s[..|a|] == a && s[|a|..|a| + |b|] == b && s[|a| + |b| + |m|..] == z
  {
  }

  lemma Adjacent(v: seq<nat>, a: nat, b: nat, c: nat)
    requires a <= b <= c <= |v|
    ensures v[a..b] + v[b..c] == v[a..c]
  {
  }

  /** The pieces of a stream, some of them found elsewhere, in order. */
  lemma Laid(v: seq<nat>, front: seq<nat>, a: nat, b: nat, c: nat, mid: seq<nat>, d: nat, layer: seq<nat>, e: nat, f: nat,
             back: seq<nat>)
    requires a <= b <= c <= d <= e <= f <= |v|
    requires front == v[..a] && mid == v[c..d] && layer == v[d..e] && back == v[f..]
    ensures front + v[a..b] + v[b..c] + mid + layer + v[e..f] + back == v
  {
    SliceJoin(v, a, b);
    SliceJoin(v, b, c);
    SliceJoin(v, c, d);
    SliceJoin(v, d, e);
    SliceJoin(v, e, f);
    assert v[..f] + v[f..] == v;
  }

  lemma ParsedFields(v: seq<nat>)
    requires ParseProof(v).Ok?
    ensures CutsOf(v).Ok?
    ensures var sec, c := ParseProof(v).value, CutsOf(v).value;
            && Ordered(c, |v|) && AreCuts(v, c) && c.salt == |v|
            && sec.decommitments == ListAt(v, c.sampled, Span(HASH_FELTS))
            && sec.queriedValues == ListAt(v, c.decommitments, Span(1))
            && |sec.decommitments| == |sec.queriedValues| == N_TREES
            && sec.sampled == v[c.commitments..c.sampled]
            && sec.layers == [v[c.nonce..c.firstLayer]] + ListAt(v, c.firstLayer, Layer)
            && (forall l :: l in sec.layers ==> |l| >= HASH_FELTS)
            && (forall i :: 0 <= i < |sec.layers| ==> Is(sec.layers[i], Layer))
            && sec.head == HeadOf(v, c, sec.layers)
  {
    hide End, ListAt, CutsOf, HeadOf;
    CutsAre(v);
  }

  lemma Regroup(a: seq<nat>, x: seq<nat>, y: seq<nat>, z: seq<nat>, w: seq<nat>, p: seq<nat>, l: seq<nat>,
                m: seq<nat>, k: seq<nat>, t: seq<nat>)
    ensures a + (x + y) + (z + w) + p + l + (m + k) + t == a + x + y + z + w + p + l + m + k + t
  {
  }

  lemma RebuildIs(sec: ProofSections, commitments: nat, trees: seq<nat>, queried: seq<nat>, inner: seq<nat>)
    requires End(sec.head, 0, Commitments) == Some(commitments) && sec.layers != []
    requires commitments + |sec.sampled| + 1 + HASH_FELTS * |sec.layers| + 1 <= |sec.head|
    requires trees == [|sec.decommitments|] + Flatten(sec.decommitments)
    requires queried == [|sec.queriedValues|] + Flatten(sec.queriedValues)
    requires inner == [|sec.layers| - 1] + Flatten(sec.layers[1..])
    ensures var nonce := commitments + |sec.sampled|;
            var last := nonce + 1 + HASH_FELTS * |sec.layers| + 1;
            Rebuild(sec) == Some(sec.head[..nonce] + trees + queried + sec.head[nonce..nonce + 1]
                                 + sec.layers[0] + inner + sec.head[last..])
  {
    hide End, Flatten;
    var nonce := commitments + |sec.sampled|;
    var last := nonce + 1 + HASH_FELTS * |sec.layers| + 1;
    Regroup(sec.head[..nonce], [|sec.decommitments|], Flatten(sec.decommitments),
            [|sec.queriedValues|], Flatten(sec.queriedValues), sec.head[nonce..nonce + 1],
            sec.layers[0], [|sec.layers| - 1], Flatten(sec.layers[1..]), sec.head[last..]);
  }

  lemma HeadCommitments(v: seq<nat>, head: seq<nat>, c: Cuts)
    requires Ordered(c, |v|) && AreCuts(v, c) && c.sampled <= |head| && head[..c.sampled] == v[..c.sampled]
    ensures End(head, 0, Commitments) == Some(c.commitments)
  {
    hide End;
    assert head[0..c.commitments] == head[..c.sampled][..c.commitments] == v[..c.sampled][..c.commitments] == v[0..c.commitments];
    EndIsLocal(v, 0, Commitments, head, 0);
  }

  /** `parseProof` loses nothing: the sections determine the whole stream. */
  lemma ParseLosesNothing(v: seq<nat>)
    requires ParseProof(v).Ok?
    ensures Rebuild(ParseProof(v).value) == Some(v)
  {
    hide End, CutsOf, ListAt, HeadOf, Flatten, ParseProof, Rebuild, AreCuts, Is;
    ParsedFields(v);
    SectionsRebuild(v, ParseProof(v).value, CutsOf(v).value);
  }

  /** The three lists of a stream, count first. */
  lemma ListsLaid(v: seq<nat>, c: Cuts)
    requires Ordered(c, |v|) && AreCuts(v, c)
    ensures v[c.sampled..c.decommitments] == [|ListAt(v, c.sampled, Span(HASH_FELTS))|] + Flatten(ListAt(v, c.sampled, Span(HASH_FELTS)))
    ensures v[c.decommitments..c.queried] == [|ListAt(v, c.decommitments, Span(1))|] + Flatten(ListAt(v, c.decommitments, Span(1)))
    ensures v[c.firstLayer..c.innerLayers] == [|ListAt(v, c.firstLayer, Layer)|] + Flatten(ListAt(v, c.firstLayer, Layer))
  {
    hide End, ListAt, Flatten;
    ListAtIs(v, c.sampled, Span(HASH_FELTS));
    ListAtIs(v, c.decommitments, Span(1));
    ListAtIs(v, c.firstLayer, Layer);
  }

  /** Sections cut out of a stream put it together again. */
  lemma SectionsRebuild(v: seq<nat>, sec: ProofSections, c: Cuts)
    requires Ordered(c, |v|) && AreCuts(v, c) && c.salt == |v|
    requires sec.decommitments == ListAt(v, c.sampled, Span(HASH_FELTS)) && sec.queriedValues == ListAt(v, c.decommitments, Span(1))
    requires sec.sampled == v[c.commitments..c.sampled]
    requires sec.layers == [v[c.nonce..c.firstLayer]] + ListAt(v, c.firstLayer, Layer)
    requires forall l :: l in sec.layers ==> |l| >= HASH_FELTS
    requires sec.head == HeadOf(v, c, sec.layers)
    ensures Rebuild(sec) == Some(v)
  {
    hide End, ListAt, HeadOf, Flatten, Rebuild, Commitment, AreCuts;
    HeadParts(v, c, sec.layers);
    HeadCommitments(v, sec.head, c);
    ListsLaid(v, c);
    assert sec.layers[1..] == ListAt(v, c.firstLayer, Layer);
    Assembled(v, sec, c);
  }

  lemma Assembled(v: seq<nat>, sec: ProofSections, c: Cuts)
    requires Ordered(c, |v|) && End(sec.head, 0, Commitments) == Some(c.commitments)
    requires |sec.sampled| == c.sampled - c.commitments && sec.layers != [] && sec.layers[0] == v[c.nonce..c.firstLayer]
    requires var last := c.sampled + 1 + HASH_FELTS * |sec.layers| + 1;
             && last <= |sec.head| && sec.head[..c.sampled] == v[..c.sampled]
             && sec.head[c.sampled..c.sampled + 1] == v[c.queried..c.nonce] && sec.head[last..] == v[c.innerLayers..]
    requires v[c.sampled..c.decommitments] == [|sec.decommitments|] + Flatten(sec.decommitments)
    requires v[c.decommitments..c.queried] == [|sec.queriedValues|] + Flatten(sec.queriedValues)
    requires v[c.firstLayer..c.innerLayers] == [|sec.layers| - 1] + Flatten(sec.layers[1..])
    ensures Rebuild(sec) == Some(v)
  {
    hide End, Flatten, Rebuild;
    RebuildIs(sec, c.commitments, v[c.sampled..c.decommitments], v[c.decommitments..c.queried], v[c.firstLayer..c.innerLayers]);
    Laid(v, sec.head[..c.sampled], c.sampled, c.decommitments, c.queried, sec.head[c.sampled..c.sampled + 1], c.nonce,
         sec.layers[0], c.firstLayer, c.innerLayers, sec.head[c.sampled + 1 + HASH_FELTS * |sec.layers| + 1..]);
  }

  /** A stream that is one circuit proof, nothing after it, with four trees on both sides. */
  predicate WellFormed(v: seq<nat>) {
    && Is(v, CircuitProof)
    && var trees := End(v, 0, Then(Commitments, Sampled));
       && trees.Some? && trees.value < |v| && v[trees.value] == N_TREES
       && var queried := End(v, trees.value, Many(Span(HASH_FELTS)));
          queried.Some? && queried.value < |v| && v[queried.value] == N_TREES
  }

  /** `parseProof` accepts exactly the well-formed streams. */
  lemma ParsesExactly(v: seq<nat>)
    ensures ParseProof(v).Ok? <==> WellFormed(v)
  {
    hide End, CutsOf, ListAt, HeadOf, LayersAt;
    CutsExactly(v);
    if CutsOf(v).Ok? {
      var c := CutsOf(v).value;
      CutsAre(v);
      ListAtIs(v, c.sampled, Span(HASH_FELTS));
      ListAtIs(v, c.decommitments, Span(1));
      SampledEnd(v);
    }
  }

  lemma SampledEnd(v: seq<nat>)
    requires CutsOf(v).Ok?
    ensures End(v, 0, Then(Commitments, Sampled)) == Some(CutsOf(v).value.sampled)
  {
    hide End;
    CutsAre(v);
    ThenEnds(v, 0, Commitments, Sampled);
  }

  /** So two streams with the same sections are the same stream. */
  lemma ParseInjective(v: seq<nat>, w: seq<nat>)
    requires ParseProof(v).Ok? && ParseProof(v) == ParseProof(w)
    ensures v == w
  {
    ParseLosesNothing(v);
    ParseLosesNothing(w);
  }

  // ----- the cursor --------------------------------------------------------------------------

  /** `Stream`: a cursor over the felts; every read returns exactly the felts it moves past. */
  class Stream {
    const v: seq<nat>
    var pos: nat

    constructor (values: seq<nat>)
      ensures v == values && pos == 0
    {
      v := values;
      pos := 0;
    }

    /** `r` is the element of shape `k` at `from`, and the cursor stands after it. */
    ghost predicate Moved(from: nat, k: Shape, r: Result<seq<nat>>)
      requires from <= |v|
      reads this
    {
      match End(v, from, k)
      case Some(p) => r == Ok(v[from..p]) && pos == p
      case None => r == Err("truncated proof stream") && pos <= |v|
    }

    method Take(n: nat) returns (r: Result<seq<nat>>)
      requires pos <= |v|
      modifies this
      ensures Moved(old(pos), Raw(n), r)
    {
      if pos + n > |v| { return Err("truncated proof stream"); }
      r := Ok(v[pos..pos + n]);
      pos := pos + n;
    }

    method U() returns (r: Result<nat>)
      requires pos <= |v|
      modifies this
      ensures if old(pos) < |v| then r == Ok(v[old(pos)]) && pos == old(pos) + 1
              else r == Err("truncated proof stream") && pos == old(pos)
    {
      if pos == |v| { return Err("truncated proof stream"); }
      r := Ok(v[pos]);
      pos := pos + 1;
    }

    method Array(elemFelts: nat) returns (r: Result<seq<nat>>)
      requires pos <= |v|
      modifies this
      ensures Moved(old(pos), Span(elemFelts), r)
    {
      ghost var from := pos;
      var n :- U();
      var items :- Take(n * elemFelts);
      r := Ok([n] + items);
      assert [n] + items == v[from..pos];
    }

    method LayerProof() returns (r: Result<seq<nat>>)
      requires pos <= |v|
      modifies this
      ensures Moved(old(pos), Layer, r)
    {
      ghost var from := pos;
      ThenEnds(v, from, Span(QM31_FELTS), Then(Span(HASH_FELTS), Raw(HASH_FELTS)));
      var friWitness :- Array(QM31_FELTS);
      ghost var p := pos;
      ThenEnds(v, p, Span(HASH_FELTS), Raw(HASH_FELTS));
      var decommitment :- Array(HASH_FELTS);
      ghost var q := pos;
      var commitment :- Take(HASH_FELTS);
      r := Ok(friWitness + decommitment + commitment);
      assert v[from..p] + v[p..q] + v[q..pos] == v[from..pos];
    }

    /** `for (…) list.push(s.array(e))`, after its count. */
    method Arrays(n: nat, elemFelts: nat) returns (r: Result<seq<seq<nat>>>)
      requires pos <= |v|
      modifies this
      ensures match Items(v, old(pos), Span(elemFelts), n)
              case Some(xs) => r == Ok(xs) && Some(pos) == EndMany(v, old(pos), Span(elemFelts), n)
              case None => r == Err("truncated proof stream") && pos <= |v|
    {
      hide End;
      ghost var from := pos;
      var list: seq<seq<nat>> := [];
      PushedNil(Items(v, from, Span(elemFelts), n));
      for i := 0 to n
        invariant pos <= |v|
        invariant EndMany(v, pos, Span(elemFelts), n - i) == EndMany(v, from, Span(elemFelts), n)
        invariant Items(v, from, Span(elemFelts), n) == Pushed(list, Items(v, pos, Span(elemFelts), n - i))
      {
        ghost var before := list;
        var x :- Array(elemFelts);
        list := list + [x];
        PushedOne(before, x, Items(v, pos, Span(elemFelts), n - i - 1));
      }
      ItemsAre(v, from, Span(elemFelts), n);
      assert list + [] == list;
      r := Ok(list);
    }

    /** The same loop over FRI layers. */
    method Layers(n: nat) returns (r: Result<seq<seq<nat>>>)
      requires pos <= |v|
      modifies this
      ensures match Items(v, old(pos), Layer, n)
              case Some(xs) => r == Ok(xs) && Some(pos) == EndMany(v, old(pos), Layer, n)
              case None => r == Err("truncated proof stream") && pos <= |v|
    {
      hide End;
      ghost var from := pos;
      var list: seq<seq<nat>> := [];
      PushedNil(Items(v, from, Layer, n));
      for i := 0 to n
        invariant pos <= |v|
        invariant EndMany(v, pos, Layer, n - i) == EndMany(v, from, Layer, n)
        invariant Items(v, from, Layer, n) == Pushed(list, Items(v, pos, Layer, n - i))
      {
        ghost var before := list;
        var x :- LayerProof();
        list := list + [x];
        PushedOne(before, x, Items(v, pos, Layer, n - i - 1));
      }
      ItemsAre(v, from, Layer, n);
      assert list + [] == list;
      r := Ok(list);
    }

    /** The two nested loops that walk the sampled values without keeping them. */
    method SkipSampled() returns (r: Result<()>)
      requires pos <= |v|
      modifies this
      ensures match End(v, old(pos), Sampled)
              case Some(p) => r == Ok(()) && pos == p
              case None => r == Err("truncated proof stream") && pos <= |v|
    {
      ghost var from := pos;
      var nTrees :- U();
      for t := 0 to nTrees
        invariant pos <= |v|
        invariant EndMany(v, pos, Many(Span(QM31_FELTS)), nTrees - t) == End(v, from, Sampled)
      {
        ghost var tree := pos;
        var nCols :- U();
        for c := 0 to nCols
          invariant pos <= |v|
          invariant EndMany(v, pos, Span(QM31_FELTS), nCols - c) == End(v, tree, Many(Span(QM31_FELTS)))
        {
          var _ :- Array(QM31_FELTS);
        }
      }
      r := Ok(());
    }
  }

  function Pushed(list: seq<seq<nat>>, rest: Option<seq<seq<nat>>>): Option<seq<seq<nat>>> {
    match rest
    case Some(xs) => Some(list + xs)
    case None => None
  }

  lemma PushedNil(rest: Option<seq<seq<nat>>>)
    ensures Pushed([], rest) == rest
  {
    if rest.Some? {
      assert [] + rest.value == rest.value;
    }
  }

  lemma PushedOne(list: seq<seq<nat>>, x: seq<nat>, rest: Option<seq<seq<nat>>>)
    ensures Pushed(list, Pushed([x], rest)) == Pushed(list + [x], rest)
  {
    if rest.Some? {
      assert list + ([x] + rest.value) == list + [x] + rest.value;
    }
  }

  datatype Prefix = Prefix(claim: seq<nat>, interactionPow: seq<nat>, interactionClaim: seq<nat>,
                           pcsConfig: seq<nat>, commitments: seq<nat>, sampled: seq<nat>)

  /** `parseProof` up to `sampled`. */
  method ParsePrefix(s: Stream) returns (r: Result<Prefix>, ghost cuts: (nat, nat, nat, nat, nat, nat))
    requires s.pos == 0
    modifies s
    ensures match PrefixCuts(s.v)
            case Ok(c) =>
              && c == cuts && s.pos == c.5
              && r == Ok(Prefix(s.v[..c.0], s.v[c.0..c.1], s.v[c.1..c.2], s.v[c.2..c.3], s.v[c.3..c.4], s.v[c.4..c.5]))
            case Err(e) => r == Err(e)
  {
    hide End;
    cuts := (0, 0, 0, 0, 0, 0);
    var claim :- s.Array(QM31_FELTS);
    ghost var c0 := s.pos;
    var interactionPow :- s.Take(1);
    ghost var c1 := s.pos;
    var interactionClaim :- s.Take(INTERACTION_CLAIM_FELTS);
    ghost var c2 := s.pos;
    var pcsConfig :- s.Take(PCS_CONFIG_FELTS);
    ghost var c3 := s.pos;
    var commitments :- s.Array(HASH_FELTS);
    var start := s.pos;
    var _ :- s.SkipSampled();
    cuts := (c0, c1, c2, c3, start, s.pos);
    r := Ok(Prefix(claim, interactionPow, interactionClaim, pcsConfig, commitments, s.v[start..s.pos]));
  }

  /** `parseProof`, the Merkle sections and the nonce. */
  method ParseQueries(s: Stream)
    returns (r: Result<(seq<seq<nat>>, seq<seq<nat>>, seq<nat>)>, ghost cuts: (nat, nat, nat))
    requires s.pos <= |s.v|
    modifies s
    ensures match QueryCuts(s.v, old(s.pos))
            case Ok(c) =>
              && c == cuts && s.pos == c.2
              && r == Ok((ListAt(s.v, old(s.pos), Span(HASH_FELTS)), ListAt(s.v, c.0, Span(1)), s.v[c.1..c.2]))
            case Err(e) => r == Err(e)
  {
    hide End, EndMany, Items;
    cuts := (0, 0, 0);
    ghost var from := s.pos;
    ManyEnds(s.v, from, Span(HASH_FELTS));
    var nDecommitments :- s.U();
    var decommitments :- s.Arrays(nDecommitments, HASH_FELTS);
    ghost var c0 := s.pos;
    ManyEnds(s.v, c0, Span(1));
    var nQueried :- s.U();
    var queriedValues :- s.Arrays(nQueried, 1);
    ghost var c1 := s.pos;
    var powNonce :- s.Take(1);
    cuts := (c0, c1, s.pos);
    r := Ok((decommitments, queriedValues, powNonce));
  }

  /** `parseProof`, the FRI layers, the last layer and the salt. */
  method ParseWalk(s: Stream)
    returns (r: Result<(seq<nat>, seq<seq<nat>>, seq<nat>, seq<nat>)>, ghost cuts: (nat, nat, nat, nat))
    requires s.pos <= |s.v|
    modifies s
    ensures match WalkCuts(s.v, old(s.pos))
            case Ok(c) =>
              && c == cuts && s.pos == c.3
              && r == Ok((s.v[old(s.pos)..c.0], ListAt(s.v, c.0, Layer), s.v[c.1..c.2], s.v[c.2..c.3]))
            case Err(e) => r == Err(e)
  {
    hide End, EndMany, Items;
    cuts := (0, 0, 0, 0);
    var firstLayer :- s.LayerProof();
    ghost var c0 := s.pos;
    ManyEnds(s.v, c0, Layer);
    var nInner :- s.U();
    var innerLayers :- s.Layers(nInner);
    ghost var c1 := s.pos;
    LastLayerEnds(s.v, c1);
    var lastLayerPoly :- s.Array(QM31_FELTS);
    ghost var middle := s.pos;
    var degree :- s.Take(1);
    Adjacent(s.v, c1, middle, s.pos);
    ghost var c2 := s.pos;
    var salt :- s.Take(1);
    cuts := (c0, c1, c2, s.pos);
    r := Ok((firstLayer, innerLayers, lastLayerPoly + degree, salt));
  }

  /** `parseProof` as the source runs it. */
  method Parse(values: seq<nat>) returns (r: Result<ProofSections>)
    ensures r == ParseProof(values)
  {
    hide End, EndMany, Items, FriHead, ListAt, PrefixCuts, QueryCuts, WalkCuts;
    var s := new Stream(values);
    ghost var p, q, w;
    var prefix: Result<Prefix>;
    prefix, p := ParsePrefix(s);
    if prefix.Err? { return Err(prefix.error); }
    var queries: Result<(seq<seq<nat>>, seq<seq<nat>>, seq<nat>)>;
    queries, q := ParseQueries(s);
    if queries.Err? { return Err(queries.error); }
    var (decommitments, queriedValues, powNonce) := queries.value;
    var walk: Result<(seq<nat>, seq<seq<nat>>, seq<nat>, seq<nat>)>;
    walk, w := ParseWalk(s);
    if walk.Err? { return Err(walk.error); }
    var (firstLayer, innerLayers, lastLayerPoly, salt) := walk.value;
    if s.pos != |values| { return Err("trailing proof data"); }
    if |decommitments| != N_TREES || |queriedValues| != N_TREES { return Err("expected 4 Merkle trees"); }
    var layers := [firstLayer] + innerLayers;
    CutsAre(values);
    assert layers == LayersAt(values, q.2, w.0);
    var Prefix(claim, interactionPow, interactionClaim, pcsConfig, commitments, sampled) := prefix.value;
    var head := claim + interactionPow + interactionClaim + pcsConfig + commitments + sampled
                + powNonce + FriHead(layers, lastLayerPoly) + salt;
    r := Ok(ProofSections(head, sampled, queriedValues, decommitments, layers, pcsConfig));
  }

  /** A counted list ends where its items do. */
  lemma ManyEnds(v: seq<nat>, pos: nat, item: Shape)
    requires pos <= |v|
    ensures End(v, pos, Many(item)) == if pos < |v| then EndMany(v, pos + 1, item, v[pos]) else None
    ensures pos < |v| ==> (Items(v, pos + 1, item, v[pos]).Some? <==> End(v, pos, Many(item)).Some?)
  {
    if pos < |v| {
      ItemsAre(v, pos + 1, item, v[pos]);
    }
  }

  lemma LastLayerEnds(v: seq<nat>, pos: nat)
    requires pos <= |v|
    ensures End(v, pos, LastLayer) == AndThen(v, End(v, pos, Span(QM31_FELTS)), Raw(1))
  {
  }
}
