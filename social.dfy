/** The social network: three bounded social attributes per actor, the four built-in
    social moves with their preconditions and effects, and the choice of a move. */
module Social {
  import opened Wrappers
  import opened Numeric

  /** The player is registered as an actor beside every NPC. */
  const Player: string := "Jugador"

  /** Names under which the network keeps its three attributes. */
  const Amistad: string := "amistad"
  const Respeto: string := "respeto"
  const Miedo: string := "miedo"

  /** One social attribute: a value in [-1, 1] for every actor adjusted so far,
      and a default for every actor never adjusted. */
  class SocialAttribute {
    const name: string
    const default: real
    var values: map<string, real>

    /** Every stored value has been clamped. */
    ghost predicate Valid()
      reads this
    {
      forall a | a in values :: -1.0 <= values[a] <= 1.0
    }

    constructor (name: string, default: real := 0.0)
      ensures Valid()
      ensures this.name == name && this.default == default && values == map[]
    {
      this.name := name;
      this.default := default;
      values := map[];
    }

    /** `get`: the stored value of an actor, or the default for one never adjusted. */
    function Get(actor: string): (v: real)
      reads this
      ensures actor !in values ==> v == default
      ensures Valid() && -1.0 <= default <= 1.0 ==> -1.0 <= v <= 1.0
    {
      if actor in values then values[actor] else default
    }

    /** `adjust`: the actor's value becomes its old value plus delta, clamped to [-1, 1];
        no other actor's entry changes. */
    method Adjust(actor: string, delta: real)
      requires Valid()
      modifies this
      ensures Valid()
      ensures values == old(values)[actor := Clamp(-1.0, 1.0, old(Get(actor)) + delta)]
      ensures -1.0 <= Get(actor) <= 1.0
    {
      var newVal := Get(actor) + delta;
      values := values[actor := Max(-1.0, Min(1.0, newVal))];
    }
  }

  /** The four built-in social moves. */
  datatype Move = Ayudar | Insultar | Chismear | Elogiar {

    /** The name the move is registered under. */
    function Name(): string {
      match this
      case Ayudar => "ayudar"
      case Insultar => "insultar"
      case Chismear => "chismear"
      case Elogiar => "elogiar"
    }
  }

  /** The catalog, in the order the network registers the moves. */
  const Catalog: seq<Move> := [Ayudar, Insultar, Chismear, Elogiar]

  /** The target's three attribute values: all that a move's precondition and effect read or write. */
  datatype Standing = Standing(amistad: real, respeto: real, miedo: real) {

    ghost predicate InRange() {
      && -1.0 <= amistad <= 1.0
      && -1.0 <= respeto <= 1.0
      && -1.0 <= miedo <= 1.0
    }
  }

  /** The precondition of each move, given the target's standing. */
  predicate Pre(m: Move, target: Standing, src: string, tgt: string) {
    match m
    case Ayudar => target.amistad > 0.2
    case Insultar => target.amistad < 0.0
    case Chismear => src != tgt
    case Elogiar => true
  }

  /** Whether a move's effect adjusts the attribute of that name at all. */
  predicate Adjusts(m: Move, attribute: string) {
    match m
    case Ayudar => attribute == Amistad || attribute == Respeto
    case Insultar => attribute == Respeto || attribute == Miedo
    case Chismear => attribute == Respeto
    case Elogiar => attribute == Respeto || attribute == Amistad
  }

  function Bound(x: real): real {
    Clamp(-1.0, 1.0, x)
  }

  /** The effect of each move on the target's standing: each attribute the move adjusts
      moves by the move's delta and is clamped again. */
  function Effect(m: Move, s: Standing): Standing {
    match m
    case Ayudar => s.(amistad := Bound(s.amistad + 0.3), respeto := Bound(s.respeto + 0.2))
    case Insultar => s.(respeto := Bound(s.respeto - 0.4), miedo := Bound(s.miedo + 0.3))
    case Chismear => s.(respeto := Bound(s.respeto - 0.1))
    case Elogiar => s.(respeto := Bound(s.respeto + 0.3), amistad := Bound(s.amistad + 0.1))
  }

  /** Every effect keeps the target's standing in range, and leaves alone each attribute it does not adjust. */
  lemma EffectInvariant(m: Move, s: Standing)
    ensures s.InRange() ==> Effect(m, s).InRange()
    ensures !Adjusts(m, Amistad) ==> Effect(m, s).amistad == s.amistad
    ensures !Adjusts(m, Respeto) ==> Effect(m, s).respeto == s.respeto
    ensures !Adjusts(m, Miedo) ==> Effect(m, s).miedo == s.miedo
  {
  }

  /** No move lowers friendship: ayudar and elogiar raise it and the other two leave it alone. */
  lemma AmistadNeverDrops(m: Move, s: Standing)
    requires s.InRange()
    ensures Effect(m, s).amistad >= s.amistad
  {
  }

  /** The target's standing after the moves of ms, applied in order. */
  function EffectAll(ms: seq<Move>, s: Standing): Standing {
    if ms == [] then s else EffectAll(ms[1..], Effect(ms[0], s))
  }

  /** Since no move lowers friendship, a target whose friendship is not negative (as every
      target of a fresh network, at the default 0.0) stays in range with friendship at least
      as high after any sequence of moves, so insultar never becomes valid against it. */
  lemma {:induction false} InsultUnreachable(ms: seq<Move>, s: Standing, src: string, tgt: string)
    requires s.InRange() && s.amistad >= 0.0
    ensures EffectAll(ms, s).InRange()
    ensures EffectAll(ms, s).amistad >= s.amistad
    ensures !Pre(Insultar, EffectAll(ms, s), src, tgt)
  {
    if ms != [] {
      EffectInvariant(ms[0], s);
      AmistadNeverDrops(ms[0], s);
      InsultUnreachable(ms[1..], Effect(ms[0], s), src, tgt);
    }
  }

  /** The list comprehension of `get_valid_moves`: the moves of ms whose precondition holds, in order. */
  function Applicable(ms: seq<Move>, target: Standing, src: string, tgt: string): seq<Move>
  {
    if ms == [] then []
    else (if Pre(ms[0], target, src, tgt) then [ms[0]] else []) + Applicable(ms[1..], target, src, tgt)
  }

  /** `a` is `b` with some elements left out and the rest kept in order: each element
      of b is either taken as the next element of a or skipped. */
  ghost predicate IsSubsequence(a: seq<Move>, b: seq<Move>)
    decreases |b|
  {
    if b == [] then a == []
    else (a != [] && a[0] == b[0] && IsSubsequence(a[1..], b[1..])) || IsSubsequence(a, b[1..])
  }

  /** The filter keeps exactly the moves whose precondition holds, as a subsequence of its input. */
  lemma {:induction false} ApplicableSpec(ms: seq<Move>, target: Standing, src: string, tgt: string)
    ensures forall m :: m in Applicable(ms, target, src, tgt) <==> m in ms && Pre(m, target, src, tgt)
    ensures IsSubsequence(Applicable(ms, target, src, tgt), ms)
  {
    if ms != [] {
      ApplicableSpec(ms[1..], target, src, tgt);
      var rest := Applicable(ms[1..], target, src, tgt);
      forall m ensures m in ms <==> m == ms[0] || m in ms[1..] {
        assert ms == [ms[0]] + ms[1..];
      }
      if Pre(ms[0], target, src, tgt) {
        assert ([ms[0]] + rest)[1..] == rest;
      } else {
        assert [] + rest == rest;
      }
    }
  }

  /** Over the catalog, the filter keeps the catalog order, and `elogiar` always comes last. */
  lemma CatalogApplicable(target: Standing, src: string, tgt: string)
    ensures Applicable(Catalog, target, src, tgt)
      == (if target.amistad > 0.2 then [Ayudar] else [])
       + (if target.amistad < 0.0 then [Insultar] else [])
       + (if src != tgt then [Chismear] else [])
       + [Elogiar]
  {
    var t := target;
    assert Applicable([Elogiar], t, src, tgt) == [Elogiar] by {
      assert [Elogiar][1..] == [];
    }
    assert Applicable([Chismear, Elogiar], t, src, tgt) == (if src != tgt then [Chismear] else []) + [Elogiar] by {
      assert [Chismear, Elogiar][1..] == [Elogiar];
    }
    assert Applicable([Insultar, Chismear, Elogiar], t, src, tgt)
      == (if t.amistad < 0.0 then [Insultar] else []) + (if src != tgt then [Chismear] else []) + [Elogiar] by {
      assert [Insultar, Chismear, Elogiar][1..] == [Chismear, Elogiar];
    }
    assert Catalog[1..] == [Insultar, Chismear, Elogiar];
  }

  /** Sum of the first k weights: `itertools.accumulate` as random.choices uses it. */
  function Cum(w: seq<nat>, k: nat): nat
    requires k <= |w|
  {
    if k == 0 then 0 else Cum(w, k - 1) + w[k - 1]
  }

  /** With every weight 1, the first k weights add up to k. */
  lemma {:induction false} CumOfOnes(w: seq<nat>, k: nat)
    requires k <= |w|
    requires forall i :: 0 <= i < |w| ==> w[i] == 1
    ensures Cum(w, k) == k
  {
    if k > 0 {
      CumOfOnes(w, k - 1);
    }
  }

  /** A fraction u in [0, 1) of a positive total stays below the total. */
  lemma ScaledBelow(u: real, total: real)
    requires 0.0 <= u < 1.0 && total > 0.0
    ensures 0.0 <= u * total < total
  {
    assert total - u * total == (1.0 - u) * total;
  }

  /** The search `random.choices` makes over the cumulative weights: the first index whose
      cumulative weight exceeds x. */
  method Bisect(w: seq<nat>, x: real) returns (k: nat)
    requires |w| > 0 && 0.0 <= x < Cum(w, |w|) as real
    ensures k < |w|
    ensures Cum(w, k) as real <= x < Cum(w, k + 1) as real
  {
    k := 0;
    var acc := w[0];
    while k < |w| - 1 && acc as real <= x
      invariant k < |w|
      invariant acc == Cum(w, k + 1)
      invariant Cum(w, k) as real <= x
    {
      k := k + 1;
      acc := acc + w[k];
    }
  }

  /** `random.choices(population, weights, k=1)` with the draw of `random()` passed in as u:
      the first index whose cumulative weight exceeds u times the total weight. */
  method WeightedIndex(w: seq<nat>, u: real) returns (k: nat)
    requires |w| > 0 && Cum(w, |w|) > 0
    requires 0.0 <= u < 1.0
    ensures k < |w|
    ensures Cum(w, k) as real <= u * (Cum(w, |w|) as real) < Cum(w, k + 1) as real
  {
    var total := Cum(w, |w|) as real;
    ScaledBelow(u, total);
    k := Bisect(w, u * total);
  }

  /** The index a uniform draw u in [0, 1) selects among n equally likely items. */
  function UniformIndex(u: real, n: nat): (k: nat)
    requires 0.0 <= u < 1.0 && n > 0
    ensures k < n
  {
    ScaledBelow(u, n as real);
    FloorBelow(u * (n as real), n);
    (u * (n as real)).Floor
  }

  /** The whole part of a real in [0, n) is an index below n. */
  lemma FloorBelow(x: real, n: nat)
    requires 0.0 <= x < n as real
    ensures 0 <= x.Floor < n
  {
    assert x.Floor as real <= x;
  }

  /** A draw whose scaled value u * n falls in [k, k + 1) selects index k. */
  lemma DrawSelects(u: real, n: nat, k: nat)
    requires 0.0 <= u < 1.0 && n > 0
    requires k as real <= u * (n as real) < (k + 1) as real
    ensures UniformIndex(u, n) == k
  {
  }

  /** The social network: the three attributes, the move catalog and the registered actors. */
  class SocialNetwork {
    const amistad: SocialAttribute
    const respeto: SocialAttribute
    const miedo: SocialAttribute
    /** The attributes by name. */
    const attributes: map<string, SocialAttribute>
    var moves: seq<Move>
    /** The NPCs plus the player. */
    const actors: set<string>

    ghost predicate Valid()
      reads this, amistad, respeto, miedo
    {
      && amistad != respeto && amistad != miedo && respeto != miedo
      && attributes == map[Amistad := amistad, Respeto := respeto, Miedo := miedo]
      && amistad.Valid() && respeto.Valid() && miedo.Valid()
      && amistad.default == 0.0 && respeto.default == 0.0 && miedo.default == 0.0
      && moves == Catalog
    }

    /** The network for a roster of NPCs: every attribute unset (so 0.0 for everyone),
        the four moves registered, and the NPCs and the player as actors. */
    constructor (npcs: seq<string>)
      ensures Valid()
      ensures fresh(amistad) && fresh(respeto) && fresh(miedo)
      ensures actors == (set a | a in npcs) + {Player}
      ensures amistad.values == map[] && respeto.values == map[] && miedo.values == map[]
    {
      amistad := new SocialAttribute(Amistad, 0.0);
      respeto := new SocialAttribute(Respeto, 0.0);
      miedo := new SocialAttribute(Miedo, 0.0);
      attributes := map[Amistad := amistad, Respeto := respeto, Miedo := miedo];
      moves := [];
      actors := (set a | a in npcs) + {Player};
      new;
      BuildMoves();
    }

    /** `_build_moves`: registers the four moves after those already there. */
    method BuildMoves()
      modifies this
      ensures moves == old(moves) + Catalog
    {
      moves := moves + [Ayudar];
      moves := moves + [Insultar];
      moves := moves + [Chismear];
      moves := moves + [Elogiar];
    }

    /** The actor's three attribute values. */
    function StandingOf(actor: string): (s: Standing)
      reads this, amistad, respeto, miedo
      ensures Valid() ==> s.InRange()
    {
      Standing(amistad.Get(actor), respeto.Get(actor), miedo.Get(actor))
    }

    /** `get_valid_moves`: nothing between unregistered actors; otherwise the registered moves
        whose precondition holds, in catalog order. */
    function ValidMoves(src: string, tgt: string): (ms: seq<Move>)
      reads this, amistad, respeto, miedo
      ensures src !in actors || tgt !in actors ==> ms == []
      ensures forall m :: m in ms <==> src in actors && tgt in actors && m in moves && Pre(m, StandingOf(tgt), src, tgt)
      ensures src in actors && tgt in actors ==> IsSubsequence(ms, moves)
      ensures Valid() && src in actors && tgt in actors ==> |ms| > 0 && ms[|ms| - 1] == Elogiar
    {
      if src !in actors || tgt !in actors then
        []
      else
        ApplicableSpec(moves, StandingOf(tgt), src, tgt);
        CatalogApplicable(StandingOf(tgt), src, tgt);
        Applicable(moves, StandingOf(tgt), src, tgt)
    }

    /** `decide_move`: None exactly when no move is valid; otherwise a valid move drawn with
        equal weights, the draw of `random()` being passed in as u. */
    method DecideMove(src: string, tgt: string, u: real) returns (choice: Option<Move>)
      requires 0.0 <= u < 1.0
      ensures choice.None? <==> ValidMoves(src, tgt) == []
      ensures choice.Some? ==> choice.value in ValidMoves(src, tgt)
      ensures choice.Some? ==> choice.value == ValidMoves(src, tgt)[UniformIndex(u, |ValidMoves(src, tgt)|)]
      ensures Valid() && src in actors && tgt in actors ==> choice.Some?
    {
      var valids := ValidMoves(src, tgt);
      if valids == [] {
        return None;
      }
      var weights: seq<nat> := [];
      for i := 0 to |valids|
        invariant |weights| == i
        invariant forall j :: 0 <= j < i ==> weights[j] == 1
      {
        weights := weights + [1];
      }
      CumOfOnes(weights, |weights|);
      var k := WeightedIndex(weights, u);
      CumOfOnes(weights, k);
      CumOfOnes(weights, k + 1);
      DrawSelects(u, |valids|, k);
      choice := Some(valids[k]);
    }

    /** The effect procedure of a move, applied to the target: each attribute the move adjusts
        takes the value `Effect` gives it; every other entry of every attribute stays as it was. */
    method ApplyEffect(m: Move, src: string, tgt: string)
      requires Valid()
      modifies amistad, respeto, miedo
      ensures Valid()
      ensures amistad.values == if Adjusts(m, Amistad)
        then old(amistad.values)[tgt := Effect(m, old(StandingOf(tgt))).amistad] else old(amistad.values)
      ensures respeto.values == if Adjusts(m, Respeto)
        then old(respeto.values)[tgt := Effect(m, old(StandingOf(tgt))).respeto] else old(respeto.values)
      ensures miedo.values == if Adjusts(m, Miedo)
        then old(miedo.values)[tgt := Effect(m, old(StandingOf(tgt))).miedo] else old(miedo.values)
      ensures StandingOf(tgt) == Effect(m, old(StandingOf(tgt)))
    {
      match m
      case Ayudar =>
        amistad.Adjust(tgt, 0.3);
        respeto.Adjust(tgt, 0.2);
      case Insultar =>
        respeto.Adjust(tgt, -0.4);
        miedo.Adjust(tgt, 0.3);
      case Chismear =>
        respeto.Adjust(tgt, -0.1);
      case Elogiar =>
        respeto.Adjust(tgt, 0.3);
        amistad.Adjust(tgt, 0.1);
    }

    /** `execute_move`: applies the move's effect, and does nothing for None. Only the target's
        entries change, so the source and every other actor keep their standing. */
    method ExecuteMove(move: Option<Move>, src: string, tgt: string)
      requires Valid()
      modifies amistad, respeto, miedo
      ensures Valid()
      ensures move.None? ==>
        (amistad.values == old(amistad.values) && respeto.values == old(respeto.values) && miedo.values == old(miedo.values))
      ensures move.Some? ==> StandingOf(tgt) == Effect(move.value, old(StandingOf(tgt)))
      ensures forall a :: a != tgt ==> StandingOf(a) == old(StandingOf(a))
    {
      if move.Some? {
        ApplyEffect(move.value, src, tgt);
      }
    }

    /** `get_attribute`: the actor's value of the named attribute, 0.0 for an unknown name. */
    function GetAttribute(name: string, actor: string): (v: real)
      requires Valid()
      reads this, amistad, respeto, miedo
      ensures name == Amistad ==> v == StandingOf(actor).amistad
      ensures name == Respeto ==> v == StandingOf(actor).respeto
      ensures name == Miedo ==> v == StandingOf(actor).miedo
      ensures name != Amistad && name != Respeto && name != Miedo ==> v == 0.0
      ensures -1.0 <= v <= 1.0
    {
      if name in attributes then attributes[name].Get(actor) else 0.0
    }
  }

  /** `ayudar` needs friendship above 0.2 and `insultar` friendship below 0, so they are never valid together. */
  lemma HelpExcludesInsult(net: SocialNetwork, src: string, tgt: string)
    ensures !(Ayudar in net.ValidMoves(src, tgt) && Insultar in net.ValidMoves(src, tgt))
  {
  }

  /** Between registered actors of a well-formed network, `chismear` is valid exactly when the two differ,
      and `elogiar` is always valid. */
  lemma GossipAndPraise(net: SocialNetwork, src: string, tgt: string)
    requires net.Valid()
    requires src in net.actors && tgt in net.actors
    ensures Chismear in net.ValidMoves(src, tgt) <==> src != tgt
    ensures Elogiar in net.ValidMoves(src, tgt)
  {
  }
}
