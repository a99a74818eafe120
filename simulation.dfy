/** How the social network and the emotion engine fit together: the names under which the
    network registers its moves are names the engine's move table reacts to. */
module Simulation {
  import Social
  import Emotion
  import Text

  /** Every move is registered under a name the emotion engine reacts to: helping and praising
      bring joy, insulting and gossip bring anger. */
  lemma EveryMoveStirsEmotions(m: Social.Move)
    ensures Emotion.MoveRule(m.Name()) != []
    ensures Emotion.MoveRule(m.Name())[0].emotion ==
      (if m == Social.Ayudar || m == Social.Elogiar then Emotion.Alegria else Emotion.Ira)
  {
    assert Text.Lower(m.Name()) == m.Name();
  }
}
