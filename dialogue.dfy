/** The offline dialogue fallback: an NPC's greeting and options, and the response to a
    chosen option, looked up in a map of dialogue trees with defaults and a bounds check.
    The map of trees is a parameter: the game imports it from `game.data`, which defines no such name. */
module Dialogue {
  import opened Wrappers

  /** One option of a tree: the text offered to the player and, if present, the NPC's response. */
  datatype Choice = Choice(text: string, response: Option<string>)

  /** An NPC's dialogue tree: its `greeting` and `options` entries when present, and how many
      other keys the dictionary holds. */
  datatype Tree = Tree(greeting: Option<string>, options: Option<seq<Choice>>, otherKeys: nat) {

    /** A dictionary is false in Python exactly when it holds no key. */
    predicate Empty() {
      greeting.None? && options.None? && otherKeys == 0
    }

    /** `tree.get("options", [])` */
    function Options(): seq<Choice> {
      options.GetOr([])
    }
  }

  /** The reply when there is nothing to say. */
  const Ellipsis: string := "\U{2026}"
  /** The only option offered by an NPC without a tree. */
  const Farewell: string := "Adi\U{f3}s."
  /** The greeting of a tree that has none. */
  const DefaultGreeting: string := "Hola."

  /** The texts of the options, in order. */
  function Texts(opts: seq<Choice>): (ts: seq<string>)
    ensures |ts| == |opts|
    ensures forall i :: 0 <= i < |opts| ==> ts[i] == opts[i].text
  {
    if opts == [] then [] else [opts[0].text] + Texts(opts[1..])
  }

  /** Whether the NPC has a tree that is not empty. */
  predicate HasTree(trees: map<string, Tree>, npc: string) {
    npc in trees && !trees[npc].Empty()
  }

  /** `start_conversation`: without a tree (or with an empty one) an ellipsis and the single
      option "Adiós."; otherwise the tree's greeting ("Hola." if it has none) and the texts of
      its options, in order, one per option. */
  function StartConversation(trees: map<string, Tree>, npc: string): (r: (string, seq<string>))
    ensures !HasTree(trees, npc) ==> r == (Ellipsis, [Farewell])
    ensures HasTree(trees, npc) ==>
      && (trees[npc].greeting.Some? ==> r.0 == trees[npc].greeting.value)
      && (trees[npc].greeting.None? ==> r.0 == DefaultGreeting)
      && |r.1| == |trees[npc].Options()|
      && forall i :: 0 <= i < |r.1| ==> r.1[i] == trees[npc].Options()[i].text
  {
    if npc !in trees || trees[npc].Empty() then
      (Ellipsis, [Farewell])
    else
      var tree := trees[npc];
      (tree.greeting.GetOr(DefaultGreeting), Texts(tree.Options()))
  }

  /** `reply`: the response of the option at the index, or an ellipsis when there is no tree,
      when the index is outside the options, or when that option has no response. */
  function Reply(trees: map<string, Tree>, npc: string, optionIndex: int): (r: string)
    ensures !HasTree(trees, npc) ==> r == Ellipsis
    ensures HasTree(trees, npc) && (optionIndex < 0 || optionIndex >= |trees[npc].Options()|) ==> r == Ellipsis
    ensures HasTree(trees, npc) && 0 <= optionIndex < |trees[npc].Options()| ==>
      r == trees[npc].Options()[optionIndex].response.GetOr(Ellipsis)
  {
    if npc !in trees || trees[npc].Empty() then
      Ellipsis
    else
      var opts := trees[npc].Options();
      if optionIndex < 0 || optionIndex >= |opts| then Ellipsis
      else opts[optionIndex].response.GetOr(Ellipsis)
  }

  /** The two lookups agree: for an NPC with a tree, picking the i-th offered text gets the
      response of the option carrying that text, and any index beyond the offered ones gets an
      ellipsis. For an NPC without a tree, even the offered farewell gets an ellipsis. */
  lemma ReplyMatchesOffer(trees: map<string, Tree>, npc: string, i: int)
    ensures HasTree(trees, npc) && 0 <= i < |StartConversation(trees, npc).1| ==>
      exists c :: c in trees[npc].Options() && c.text == StartConversation(trees, npc).1[i]
        && Reply(trees, npc, i) == c.response.GetOr(Ellipsis)
    ensures HasTree(trees, npc) && !(0 <= i < |StartConversation(trees, npc).1|) ==> Reply(trees, npc, i) == Ellipsis
    ensures !HasTree(trees, npc) ==> StartConversation(trees, npc).1 == [Farewell] && Reply(trees, npc, i) == Ellipsis
  {
    if HasTree(trees, npc) && 0 <= i < |StartConversation(trees, npc).1| {
      var c := trees[npc].Options()[i];
      assert c in trees[npc].Options();
    }
  }
}
