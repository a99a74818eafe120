/** The emotion engine: per actor, three primary emotions kept in [0, 1], moved by
    environment events (keyword rules, first match wins) and by social moves (exact names). */
module Emotion {
  import opened Numeric
  import opened Text

  const Alegria: string := "alegria"
  const Ira: string := "ira"
  const Miedo: string := "miedo"

  /** The emotions every actor has. */
  const Primary: set<string> := {Alegria, Ira, Miedo}

  /** One actor's emotions by name. */
  type Vector = map<string, real>

  /** The vector every actor starts with. */
  const Calm: Vector := map[Alegria := 0.0, Ira := 0.0, Miedo := 0.0]

  /** Exactly the three primary emotions, each in [0, 1]. */
  ghost predicate WellFormed(v: Vector) {
    v.Keys == Primary && forall e | e in v :: 0.0 <= v[e] <= 1.0
  }

  /** Every actor's vector is well formed. */
  ghost predicate AllWellFormed(m: map<string, Vector>) {
    forall a | a in m :: WellFormed(m[a])
  }

  /** Replacing one actor's vector by a well-formed one keeps every vector well formed. */
  lemma UpdateWellFormed(m: map<string, Vector>, actor: string, v: Vector)
    requires AllWellFormed(m) && WellFormed(v)
    ensures AllWellFormed(m[actor := v])
  {
  }

  /** One adjustment a rule makes: add `amount` to `emotion`. */
  datatype Adjustment = Adjustment(emotion: string, amount: real)

  /** `adjust` on one actor's vector: an unknown emotion is left alone; a known one becomes
      its old value plus amount, clamped to [0, 1]. */
  function Bump(v: Vector, a: Adjustment): Vector {
    if a.emotion in v then v[a.emotion := Clamp(0.0, 1.0, v[a.emotion] + a.amount)] else v
  }

  /** The adjustments, applied in order. */
  function React(v: Vector, rules: seq<Adjustment>): Vector
    decreases |rules|
  {
    if rules == [] then v else React(Bump(v, rules[0]), rules[1..])
  }

  lemma UpdateTwice(m: map<string, Vector>, k: string, v: Vector, w: Vector)
    ensures m[k := v][k := w] == m[k := w]
  {
  }

  /** One adjustment keeps a vector well formed. */
  lemma BumpWellFormed(v: Vector, a: Adjustment)
    requires WellFormed(v)
    ensures WellFormed(Bump(v, a))
  {
  }

  lemma ReactOne(v: Vector, a: Adjustment)
    ensures React(v, [a]) == Bump(v, a)
  {
    assert [a][1..] == [];
  }

  lemma ReactTwice(v: Vector, a: Adjustment, b: Adjustment)
    ensures React(v, [a, b]) == Bump(Bump(v, a), b)
  {
    assert [a, b][1..] == [b];
    assert React(Bump(v, a), [b]) == React(Bump(Bump(v, a), b), []);
  }

  /** Reacting never adds or removes an emotion and keeps every value in [0, 1]. */
  lemma {:induction false} ReactPreserves(v: Vector, rules: seq<Adjustment>)
    ensures React(v, rules).Keys == v.Keys
    ensures WellFormed(v) ==> WellFormed(React(v, rules))
    decreases |rules|
  {
    if rules != [] {
      ReactPreserves(Bump(v, rules[0]), rules[1..]);
    }
  }

  /** Emotions no rule names keep their value. */
  lemma {:induction false} ReactUnnamed(v: Vector, rules: seq<Adjustment>, e: string)
    requires e in v
    requires forall i :: 0 <= i < |rules| ==> rules[i].emotion != e
    ensures e in React(v, rules) && React(v, rules)[e] == v[e]
    decreases |rules|
  {
    if rules != [] {
      ReactUnnamed(Bump(v, rules[0]), rules[1..], e);
    }
  }

  /** The environment-event table of `handle_event`, on the lower-cased text: the first
      matching rule's adjustment, or none. */
  function EventRule(event: string): seq<Adjustment> {
    var e := Lower(event);
    if Contains(e, "tormenta") || Contains(e, "lluvia") then [Adjustment(Miedo, 0.3)]
    else if Contains(e, "niebla") then [Adjustment(Miedo, 0.2)]
    else if Contains(e, "festival") then [Adjustment(Alegria, 0.4)]
    else []
  }

  /** The social-move table of `handle_social_move`, matched exactly on the lower-cased name. */
  function MoveRule(moveName: string): seq<Adjustment> {
    var m := Lower(moveName);
    if m == "ayudar" then [Adjustment(Alegria, 0.3)]
    else if m == "insultar" then [Adjustment(Ira, 0.4), Adjustment(Miedo, 0.1)]
    else if m == "chismear" then [Adjustment(Ira, 0.2)]
    else if m == "elogiar" then [Adjustment(Alegria, 0.2)]
    else []
  }

  /** At most one event rule fires: an event raises a single emotion, and only fear or joy. */
  lemma EventRuleSingle(event: string)
    ensures |EventRule(event)| <= 1
    ensures forall a :: a in EventRule(event) ==> a.emotion in {Miedo, Alegria} && a.amount > 0.0
  {
  }

  /** First match wins: a storm in the middle of a festival only frightens. */
  lemma StormAtFestival()
    ensures EventRule("Tormenta en el festival") == [Adjustment(Miedo, 0.3)]
  {
    var e := Lower("Tormenta en el festival");
    assert e[..8] == "tormenta";
  }

  /** A pattern longer than the text never occurs in it. */
  lemma {:induction false} ShorterNeverContains(s: string, pat: string)
    requires |s| < |pat|
    ensures !Contains(s, pat)
    decreases |s|
  {
    if |s| > 0 {
      ShorterNeverContains(s[1..], pat);
    }
  }

  /** An event changes nothing exactly when its lower-cased text names no weather and no
      festival; such an event leaves every vector as it was. */
  lemma UnmatchedEvent(event: string, v: Vector)
    ensures EventRule(event) == [] <==>
      && !Contains(Lower(event), "tormenta")
      && !Contains(Lower(event), "lluvia")
      && !Contains(Lower(event), "niebla")
      && !Contains(Lower(event), "festival")
    ensures EventRule(event) == [] ==> React(v, EventRule(event)) == v
  {
  }

  /** Event texts match whatever their case. */
  lemma EventRuleIgnoresCase(event: string)
    ensures EventRule(Lower(event)) == EventRule(event)
  {
    LowerIdempotent(event);
  }

  /** The event "Sol" names no keyword, so it changes nothing. */
  lemma SunnyDay()
    ensures EventRule("Sol") == []
  {
    var e := Lower("Sol");
    ShorterNeverContains(e, "tormenta");
    ShorterNeverContains(e, "lluvia");
    ShorterNeverContains(e, "niebla");
    ShorterNeverContains(e, "festival");
  }

  /** Move names match whatever their case. */
  lemma MoveRuleIgnoresCase(moveName: string)
    ensures MoveRule(Lower(moveName)) == MoveRule(moveName)
  {
    LowerIdempotent(moveName);
  }

  /** A storm raises fear by 0.3 and nothing else. */
  lemma StormRule()
    ensures EventRule("tormenta") == [Adjustment(Miedo, 0.3)]
  {
    assert Lower("tormenta") == "tormenta";
  }

  /** Three storms take fear from 0 to 0.9 in exact arithmetic; a fourth is clamped at 1. */
  lemma RepeatedStorms()
    ensures var r := EventRule("tormenta");
      var v1 := React(Calm, r);
      var v2 := React(v1, r);
      var v3 := React(v2, r);
      && v1 == Calm[Miedo := 0.3]
      && v2 == Calm[Miedo := 0.6]
      && v3 == Calm[Miedo := 0.9]
      && React(v3, r) == Calm[Miedo := 1.0]
  {
    StormRule();
    var r := [Adjustment(Miedo, 0.3)];
    assert React(Calm, r) == Calm[Miedo := 0.3];
    assert React(Calm[Miedo := 0.3], r) == Calm[Miedo := 0.6];
    assert React(Calm[Miedo := 0.6], r) == Calm[Miedo := 0.9];
    assert React(Calm[Miedo := 0.9], r) == Calm[Miedo := 1.0];
  }

  /** Actor keys in first-insertion order: the order in which the engine's dictionary iterates. */
  function Distinct(s: seq<string>): seq<string>
    decreases |s|
  {
    if s == [] then []
    else
      var d := Distinct(s[..|s| - 1]);
      if s[|s| - 1] in d then d else d + [s[|s| - 1]]
  }

  ghost predicate NoDuplicates(s: seq<string>) {
    forall i, j :: 0 <= i < j < |s| ==> s[i] != s[j]
  }

  /** The iteration order holds every listed actor once. */
  lemma {:induction false} DistinctSpec(s: seq<string>)
    ensures forall a :: a in Distinct(s) <==> a in s
    ensures NoDuplicates(Distinct(s))
    decreases |s|
  {
    if s != [] {
      var init := s[..|s| - 1];
      DistinctSpec(init);
      assert s == init + [s[|s| - 1]];
    }
  }

  /** The emotion engine. */
  class EmotionEngine {
    /** Every actor's vector. */
    var emotions: map<string, Vector>
    /** The keys of `emotions` in insertion order, the order its dictionary iterates in. */
    const actors: seq<string>

    ghost predicate Valid()
      reads this
    {
      && NoDuplicates(actors)
      && (forall a :: a in emotions <==> a in actors)
      && AllWellFormed(emotions)
    }

    /** Every listed actor starts calm, and no other actor exists. */
    constructor (names: seq<string>)
      ensures Valid()
      ensures forall a :: a in emotions <==> a in names
      ensures forall a | a in emotions :: emotions[a] == Calm
      ensures actors == Distinct(names)
    {
      emotions := map a | a in names :: Calm;
      actors := Distinct(names);
      DistinctSpec(names);
    }

    /** `adjust`: for a known actor and emotion, the value becomes old plus amount clamped to [0, 1];
        otherwise nothing changes and no key is added. */
    method Adjust(actor: string, emotion: string, amount: real)
      requires Valid()
      modifies this
      ensures Valid()
      ensures actor !in old(emotions) || emotion !in old(emotions)[actor] ==> emotions == old(emotions)
      ensures actor in old(emotions) && emotion in old(emotions)[actor] ==>
        emotions == old(emotions)[actor := old(emotions)[actor][emotion := Clamp(0.0, 1.0, old(emotions)[actor][emotion] + amount)]]
      ensures actor in emotions ==> emotions == old(emotions)[actor := Bump(old(emotions)[actor], Adjustment(emotion, amount))]
    {
      if actor !in emotions || emotion !in emotions[actor] {
        return;
      }
      var v := emotions[actor];
      var val := v[emotion] + amount;
      var updated := v[emotion := Max(0.0, Min(1.0, val))];
      assert updated == Bump(v, Adjustment(emotion, amount));
      BumpWellFormed(v, Adjustment(emotion, amount));
      UpdateWellFormed(emotions, actor, updated);
      emotions := emotions[actor := updated];
    }

    /** `handle_event`: the actor's vector reacts to the first matching event rule;
        every other actor is untouched. */
    method HandleEvent(actor: string, event: string)
      requires Valid()
      modifies this
      ensures Valid()
      ensures emotions == if actor in old(emotions) then old(emotions)[actor := React(old(emotions)[actor], EventRule(event))] else old(emotions)
    {
      var e := Lower(event);
      if Contains(e, "tormenta") || Contains(e, "lluvia") {
        Adjust(actor, Miedo, 0.3);
      } else if Contains(e, "niebla") {
        Adjust(actor, Miedo, 0.2);
      } else if Contains(e, "festival") {
        Adjust(actor, Alegria, 0.4);
      }
    }

    /** `handle_social_move`: the actor's vector reacts to the move named, matched exactly
        after lower-casing; an unknown name changes nothing. */
    method HandleSocialMove(actor: string, moveName: string)
      requires Valid()
      modifies this
      ensures Valid()
      ensures emotions == if actor in old(emotions) then old(emotions)[actor := React(old(emotions)[actor], MoveRule(moveName))] else old(emotions)
    {
      var m := Lower(moveName);
      ghost var before := emotions;
      ghost var rules := MoveRule(moveName);
      ghost var after := if actor in before then before[actor := React(before[actor], rules)] else before;
      if m == "ayudar" {
        assert rules == [Adjustment(Alegria, 0.3)];
        Adjust(actor, Alegria, 0.3);
        if actor in before {
          ReactOne(before[actor], rules[0]);
        }
        assert emotions == after;
      } else if m == "insultar" {
        assert rules == [Adjustment(Ira, 0.4), Adjustment(Miedo, 0.1)];
        Adjust(actor, Ira, 0.4);
        ghost var middle := emotions;
        Adjust(actor, Miedo, 0.1);
        if actor in before {
          ReactTwice(before[actor], rules[0], rules[1]);
          var once := Bump(before[actor], rules[0]);
          assert middle == before[actor := once];
          assert emotions == middle[actor := Bump(once, rules[1])];
          UpdateTwice(before, actor, once, Bump(once, rules[1]));
        }
        assert emotions == after;
      } else if m == "chismear" {
        assert rules == [Adjustment(Ira, 0.2)];
        Adjust(actor, Ira, 0.2);
        if actor in before {
          ReactOne(before[actor], rules[0]);
        }
        assert emotions == after;
      } else if m == "elogiar" {
        assert rules == [Adjustment(Alegria, 0.2)];
        Adjust(actor, Alegria, 0.2);
        if actor in before {
          ReactOne(before[actor], rules[0]);
        }
        assert emotions == after;
      } else {
        assert rules == [];
        if actor in before {
          assert before[actor := React(before[actor], rules)] == before;
        }
        assert emotions == after;
      }
    }

    /** `get`: the actor's level of the emotion, 0.0 if either is unknown. */
    function Get(actor: string, emotion: string): (v: real)
      reads this
      ensures Valid() ==> 0.0 <= v <= 1.0
      ensures actor !in emotions || emotion !in emotions[actor] ==> v == 0.0
    {
      if actor in emotions && emotion in emotions[actor] then emotions[actor][emotion] else 0.0
    }

    /** `get_emotions`: a copy of the actor's vector (a value: changing it does not touch the
        engine), empty for an unknown actor. */
    function GetEmotions(actor: string): (v: Vector)
      reads this
      ensures actor !in emotions ==> v == map[]
      ensures Valid() && actor in emotions ==> WellFormed(v)
      ensures forall e | e in v :: v[e] == Get(actor, e)
    {
      if actor in emotions then emotions[actor] else map[]
    }
  }
}
