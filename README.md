# Social and emotion simulation of the RPG demo, in Dafny

This project models the rule-driven core of a small narrative RPG demo: the logic that shapes NPC behaviour beside the graphics and the chat front end. It has four parts:

- **Social network** (`cif_ck.py`, module `Social`). Three social attributes (`amistad`, `respeto`, `miedo`) hold one value in [-1, 1] per actor, with a default for actors never adjusted.
  - Four built-in social moves (`ayudar`, `insultar`, `chismear`, `elogiar`) each have a precondition and an effect on the target's attributes. `ayudar` and `insultar` depend on the target's friendship, `chismear` needs two different actors, and `elogiar` is always possible.
  - The network lists the moves valid between two registered actors, draws one of them with equal weights, and applies its effect.
- **Emotion engine** (`emotion.py`, module `Emotion`). Each actor has the three primary emotions `alegria`, `ira` and `miedo`, each in [0, 1].
  - Environment events move them through a keyword table where the first match wins.
  - Social moves move them through a table matched on the exact, lower-cased name.
  - An unknown actor or emotion is a no-op on writes and reads as 0.0.
- **Event manager** (`events.py`, module `Events`). A timer accumulates the elapsed time and fires one environment event when it reaches the interval. Firing an event:
  - fans the event out to every actor of the emotion engine;
  - notifies the game once and asks for one memory record per actor;
  - appends the event to a history that keeps only the most recent `history_size` entries;
  - resets the timer.
- **Dialogue fallback** (`llm.py`, module `Dialogue`). A lookup in a map of dialogue trees that supplies defaults and checks the option index against the options' bounds.

Shared pieces:

- `Numeric.Clamp` is the `max(lo, min(hi, x))` both clamping sites use.
- `Text.Lower` and `Text.Contains` model `str.lower()` and the `in` substring operator.
- `Wrappers.Option` models Python's `None`.
- `Simulation` states how the network and the engine fit together: every move's registered name is one the engine's move table reacts to.

## How the model is built

- Every value (attribute, emotion, timer) is a `real`, so the arithmetic is exact.
- **Classes.** `SocialAttribute`, `SocialNetwork`, `EmotionEngine` and `EventManager` are classes, because the source updates their fields in place. Each has a `Valid()` invariant:
  - `SocialAttribute`: every stored value is in [-1, 1].
  - `SocialNetwork`: its three attributes are distinct objects, each valid with default 0.0, the attribute map names exactly them, and the registered moves are exactly the catalog, in order.
  - `EmotionEngine`: every vector holds exactly the three emotions, each in [0, 1].
  - `EventManager`: the engine is valid, and the history is `Recent(fired, historySize)`, the last `historySize` of all events fired.

  Every constructor establishes its class's invariant and every method that requires it preserves it. The exception is `SocialNetwork.BuildMoves`, which runs only from the constructor (cif_ck.py:49), before the invariant holds. Called again on a finished network it would register the catalog a second time, as a second `_build_moves` call would.
- **Moves.** Each Python closure pair becomes a case of `datatype Move`, with the functions `Pre` and `Effect` on the target's `Standing`.
- **Dictionary order.** The order in which the engine's dictionary iterates its actors is the constant `actors`, the roster without repeats in first-insertion order (`Emotion.Distinct`).
- **Callbacks.** Calls to the two injected callbacks are appended to a ghost trace `callbacks`, so that their number, order and arguments can be stated.
- **Randomness.** A random draw is an injected parameter:
  - `decide_move` takes the `random()` value `u` in [0, 1). `WeightedIndex` scales it by the total weight and `Bisect` finds it among the cumulative weights, as `random.choices` does.
  - `_trigger_event` takes the index `pick` that `random.choice` would return.

## Model

| member | source | states |
|---|---|---|
| Numeric.Clamp | rpg_demo/code_project/game/cif_ck.py:17-19 | the result lies in [lo, hi], equals x inside the range and the nearer bound outside it (the same clamp is used at emotion.py:24-26) |
| Social.SocialAttribute.constructor | rpg_demo/code_project/game/cif_ck.py:8-11 | the attribute keeps its name and default and holds no value yet, so every actor reads as the default |
| Social.SocialAttribute.Get | rpg_demo/code_project/game/cif_ck.py:13-14 | an actor never adjusted reads as the attribute's default; with a valid attribute and a default in [-1, 1] every read is in [-1, 1] |
| Social.SocialAttribute.Adjust | rpg_demo/code_project/game/cif_ck.py:16-19 | only the actor's entry changes, to clamp(get(actor) + delta, -1, 1); the value is in [-1, 1] for any delta and every stored value stays in range |
| Social.SocialNetwork.constructor | rpg_demo/code_project/game/cif_ck.py:40-49 | three fresh, distinct attributes with default 0.0 and no stored values; the four moves registered; the actors are the NPCs plus "Jugador" |
| Social.SocialNetwork.BuildMoves | rpg_demo/code_project/game/cif_ck.py:51-81 | appends ayudar, insultar, chismear, elogiar, in that order, after the moves already registered |
| Social.Move.Name | rpg_demo/code_project/game/cif_ck.py:58-81 | the name each move is registered under (ayudar, insultar, chismear, elogiar, at lines 58, 66, 73 and 81); Simulation.EveryMoveStirsEmotions proves the emotion engine reacts to each |
| Social.Pre | rpg_demo/code_project/game/cif_ck.py:53-77 | the four preconditions: ayudar needs amistad(tgt) > 0.2, insultar amistad(tgt) < 0, chismear src != tgt, elogiar nothing; their consequences are proved in Social.CatalogApplicable, Social.HelpExcludesInsult and Social.GossipAndPraise |
| Social.Effect | rpg_demo/code_project/game/cif_ck.py:55-80 | the four effects on the target: ayudar amistad +0.3 and respeto +0.2, insultar respeto -0.4 and miedo +0.3, chismear respeto -0.1, elogiar respeto +0.3 and amistad +0.1, each clamped; Social.EffectInvariant proves them in range and leaving the other attributes alone |
| Social.EffectInvariant | rpg_demo/code_project/game/cif_ck.py:55-57 | every move's effect keeps the target's three values in [-1, 1] and leaves each attribute it does not adjust unchanged (the effects are at lines 55-57, 63-65, 71-72 and 78-80) |
| Social.AmistadNeverDrops | rpg_demo/code_project/game/cif_ck.py:53-80 | no move's effect lowers friendship: ayudar adds 0.3, elogiar adds 0.1, insultar and chismear leave it alone |
| Social.EffectAll | rpg_demo/code_project/game/cif_ck.py:53-80 | the target's standing after a sequence of moves' effects, in order; Social.InsultUnreachable is about it |
| Social.InsultUnreachable | rpg_demo/code_project/game/cif_ck.py:59-62 | from an in-range standing with friendship not negative (every target of a fresh network, at the default 0.0), any sequence of moves keeps the standing in range and friendship no lower, so insultar's precondition `amistad < 0` never holds |
| Social.Applicable | rpg_demo/code_project/game/cif_ck.py:87 | the list comprehension's filter; Social.ApplicableSpec proves it keeps exactly the moves whose precondition holds, in order |
| Social.ApplicableSpec | rpg_demo/code_project/game/cif_ck.py:87 | the comprehension keeps exactly the moves whose precondition holds, in their original order (a subsequence) |
| Social.CatalogApplicable | rpg_demo/code_project/game/cif_ck.py:51-87 | over the catalog the valid moves are ayudar if amistad(tgt) > 0.2, insultar if amistad(tgt) < 0, chismear if src != tgt, then always elogiar, in that order |
| Simulation.EveryMoveStirsEmotions | rpg_demo/code_project/game/cif_ck.py:58-81 | every move's registered name is one the emotion engine's move table (emotion.py:50-58) reacts to: ayudar and elogiar first raise joy, insultar and chismear first raise anger |
| Social.SocialNetwork.StandingOf | rpg_demo/code_project/game/cif_ck.py:54 | the target's three values that the preconditions and effects read; in range in a valid network |
| Social.SocialNetwork.ValidMoves | rpg_demo/code_project/game/cif_ck.py:83-87 | empty when source or target is not registered; otherwise a move is listed iff it is registered and its precondition holds, the list is a subsequence of the registered order, and in a valid network it is non-empty and ends with elogiar |
| Social.Cum | rpg_demo/code_project/game/cif_ck.py:102 | the cumulative weights `random.choices` accumulates: the sum of the first k weights; Social.CumOfOnes gives it for equal weights |
| Social.UniformIndex | rpg_demo/code_project/game/cif_ck.py:98-102 | the index a draw u in [0, 1) selects among n equal weights, always below n; Social.DrawSelects proves it is the k with u·n in [k, k + 1), and it is the index DecideMove's contract names |
| Social.Bisect | rpg_demo/code_project/game/cif_ck.py:102 | for x in [0, total weight) the index returned is the first whose cumulative weight exceeds x, and it is in bounds |
| Social.WeightedIndex | rpg_demo/code_project/game/cif_ck.py:102 | the index returned is the one whose cumulative-weight interval contains u times the total weight, so it is in bounds |
| Social.CumOfOnes | rpg_demo/code_project/game/cif_ck.py:98-101 | with every weight 1, the first k weights sum to k, so each of n moves gets an interval of width 1 |
| Social.DrawSelects | rpg_demo/code_project/game/cif_ck.py:102 | a draw u with u·n in [k, k + 1) selects the k-th of n equally weighted items |
| Social.SocialNetwork.DecideMove | rpg_demo/code_project/game/cif_ck.py:89-102 | None iff there is no valid move; otherwise a member of the valid moves, namely the one at the index the uniform draw selects; never None between registered actors of a valid network |
| Social.SocialNetwork.ApplyEffect | rpg_demo/code_project/game/cif_ck.py:53-80 | each attribute the move adjusts gets the target's new value from Effect, every other entry of every attribute is unchanged, and the target's standing becomes Effect of its old standing |
| Social.SocialNetwork.ExecuteMove | rpg_demo/code_project/game/cif_ck.py:104-109 | None changes nothing; a move gives the target Effect of its old standing; every other actor, the source included when it differs from the target, keeps its standing |
| Social.SocialNetwork.GetAttribute | rpg_demo/code_project/game/cif_ck.py:111-116 | each of the three names reads the actor's value of that attribute; any other name gives 0.0; the value is in [-1, 1] |
| Social.HelpExcludesInsult | rpg_demo/code_project/game/cif_ck.py:53-62 | ayudar and insultar are never valid together |
| Social.GossipAndPraise | rpg_demo/code_project/game/cif_ck.py:69-77 | between registered actors chismear is valid iff source and target differ, and elogiar is always valid |
| Text.Lower | rpg_demo/code_project/game/emotion.py:33 | lower-casing keeps the length |
| Text.LowerIdempotent | rpg_demo/code_project/game/emotion.py:49 | lower-casing twice is lower-casing once |
| Text.Contains | rpg_demo/code_project/game/emotion.py:34-40 | the `in` test on strings as a left-to-right scan; Text.ContainsIff proves it equal to the definition of a substring |
| Text.ContainsIff | rpg_demo/code_project/game/emotion.py:34-40 | the substring operator holds iff the pattern occurs at some position of the text |
| Emotion.EmotionEngine.constructor | rpg_demo/code_project/game/emotion.py:13-18 | every listed actor starts at alegria = ira = miedo = 0 and no other actor exists; the iteration order holds each listed actor once |
| Emotion.Distinct | rpg_demo/code_project/game/emotion.py:15-18 | the order in which the engine's dictionary holds its actors: first insertion, no repeats; Emotion.DistinctSpec proves it holds each listed actor once |
| Emotion.DistinctSpec | rpg_demo/code_project/game/emotion.py:15-18 | the engine's actor order holds exactly the listed actors, each once |
| Emotion.EmotionEngine.Adjust | rpg_demo/code_project/game/emotion.py:20-26 | an unknown actor or emotion leaves the map unchanged, with no key added; otherwise only that entry changes, to clamp(old + amount, 0, 1) |
| Emotion.React | rpg_demo/code_project/game/emotion.py:28-58 | a rule's adjustments applied one after another, as the `adjust` calls at lines 36-42 and 51-58 are; Emotion.ReactTwice, Emotion.ReactPreserves and Emotion.ReactUnnamed are about it |
| Emotion.ReactPreserves | rpg_demo/code_project/game/emotion.py:20-26 | applying adjustments never adds or removes an emotion and keeps every value in [0, 1] |
| Emotion.Bump | rpg_demo/code_project/game/emotion.py:22-26 | `adjust` on one actor's vector: an unknown emotion is left alone, a known one becomes clamp(old + amount, 0, 1); Emotion.ReactPreserves proves it keeps the keys and the range |
| Emotion.ReactUnnamed | rpg_demo/code_project/game/emotion.py:20-26 | an emotion no adjustment names keeps its value |
| Emotion.EmotionEngine.HandleEvent | rpg_demo/code_project/game/emotion.py:28-42 | only the named actor's vector changes, by the first matching rule on the lower-cased event; an unknown actor changes nothing |
| Emotion.EventRuleSingle | rpg_demo/code_project/game/emotion.py:33-42 | at most one rule fires per event, and it raises only fear or joy |
| Emotion.StormAtFestival | rpg_demo/code_project/game/emotion.py:34-42 | "Tormenta en el festival" raises only fear, by 0.3: the first match wins |
| Emotion.EventRule | rpg_demo/code_project/game/emotion.py:33-42 | the event table on the lower-cased text, first match wins: tormenta or lluvia give miedo +0.3, else niebla miedo +0.2, else festival alegria +0.4, else nothing; its properties are the lemmas below |
| Emotion.UnmatchedEvent | rpg_demo/code_project/game/emotion.py:33-43 | an event changes nothing iff its lower-cased text contains none of tormenta, lluvia, niebla, festival, and such an event leaves a vector as it was |
| Emotion.EventRuleIgnoresCase | rpg_demo/code_project/game/emotion.py:33 | an event text and its lower-cased form select the same rule |
| Emotion.SunnyDay | rpg_demo/code_project/game/emotion.py:33-43 | the event "Sol" changes nothing |
| Emotion.RepeatedStorms | rpg_demo/code_project/game/emotion.py:34-36 | storms take fear from 0 to 0.3, 0.6, 0.9 and then to the bound 1.0 |
| Emotion.EmotionEngine.HandleSocialMove | rpg_demo/code_project/game/emotion.py:45-58 | only the named actor's vector changes, by the move table on the exact lower-cased name (insultar raises anger by 0.4 and then fear by 0.1); an unknown name changes nothing |
| Emotion.MoveRule | rpg_demo/code_project/game/emotion.py:49-58 | the move table on the exact lower-cased name: ayudar alegria +0.3, insultar ira +0.4 then miedo +0.1, chismear ira +0.2, elogiar alegria +0.2, any other name nothing; Emotion.MoveRuleIgnoresCase and Simulation.EveryMoveStirsEmotions are about it |
| Emotion.MoveRuleIgnoresCase | rpg_demo/code_project/game/emotion.py:49 | a move name and its lower-cased form select the same rule |
| Emotion.EmotionEngine.Get | rpg_demo/code_project/game/emotion.py:61-63 | 0.0 for an unknown actor or emotion; in [0, 1] in a valid engine |
| Emotion.EmotionEngine.GetEmotions | rpg_demo/code_project/game/emotion.py:65-67 | an empty map for an unknown actor; otherwise the three emotions, each equal to Get, as a value detached from the engine |
| Events.EventManager.constructor | rpg_demo/code_project/game/events.py:13-29 | keeps the event list, engine, interval (15.0 by default) and history size (5 by default); the timer is 0.0 and the history, the events fired and the callback trace are empty |
| Events.EventManager.Update | rpg_demo/code_project/game/events.py:31-34 | below the interval only the timer changes, by dt; at or above it exactly one event fires, the timer ends at 0.0 (the overshoot is dropped), the engine's vectors are the fan-out of the event and the callback trace grows by one trigger's calls; the history never exceeds its size |
| Events.EventManager.TriggerEvent | rpg_demo/code_project/game/events.py:36-57 | the event at the drawn index is fired and appended to the history, which stays the most recent events; the timer is reset to 0.0 |
| Events.EventManager.FanOutEvent | rpg_demo/code_project/game/events.py:39-41 | every actor of the engine handles the event's name (not its description) exactly once |
| Events.EventManager.RecordCallbacks | rpg_demo/code_project/game/events.py:43-49 | the trace grows by one notification followed by one memory record per actor, in the engine's order, all with the same message |
| Events.Message | rpg_demo/code_project/game/events.py:44 | the message is "[EVENTO] ", the event's name, " → " and the description, in that order and nothing else |
| Events.TriggerCallbacks | rpg_demo/code_project/game/events.py:44-49 | the callback calls one trigger makes: one notification, then the memory records; Events.TriggerCallbackCounts counts them |
| Events.SaveAll | rpg_demo/code_project/game/events.py:47-49 | one memory record per actor, in the engine's order, each with the message; Events.SaveAllSpec states it element by element |
| Events.TriggerCallbackCounts | rpg_demo/code_project/game/events.py:44-49 | one trigger makes exactly one notification and exactly one memory record for each actor of the engine (none for anyone else) |
| Events.SaveAllSpec | rpg_demo/code_project/game/events.py:48-49 | the i-th memory record is for the i-th actor, with the trigger's message |
| Events.Recent | rpg_demo/code_project/game/events.py:51-54 | the history is a suffix of the events fired, and, for a size that is not negative, exactly min(events fired, history_size) long |
| Events.FanOut | rpg_demo/code_project/game/events.py:40-41 | every actor's vector after each has handled the event's name; Events.FanOutPreserves proves it keeps the actors and their well-formedness |
| Events.FanOutPreserves | rpg_demo/code_project/game/events.py:40-41 | the fan-out keeps the set of actors and keeps every vector well formed |
| Events.HistoryStep | rpg_demo/code_project/game/events.py:52-54 | appending and popping the oldest entry when over the size gives the most recent history_size events, one event later |
| Events.HistoryExample | rpg_demo/code_project/game/events.py:52-54 | with room for two, three events leave the last two; with room for five all three stay |
| Dialogue.Tree.Empty | rpg_demo/code_project/game/llm.py:15-17 | `not tree`: a tree is false exactly when it holds no key; StartConversation and Reply fall back to "…" on it |
| Dialogue.Tree.Options | rpg_demo/code_project/game/llm.py:19 | `tree.get("options", [])`: the tree's options, or none when it has no options entry |
| Dialogue.StartConversation | rpg_demo/code_project/game/llm.py:11-20 | a missing or empty tree gives ("…", ["Adiós."]); otherwise the tree's greeting or "Hola.", and the texts of its options in order, one per option (none without options) |
| Dialogue.Texts | rpg_demo/code_project/game/llm.py:19 | the texts have the options' length and order |
| Dialogue.Reply | rpg_demo/code_project/game/llm.py:22-32 | "…" for a missing or empty tree and for an index outside the options; otherwise the option's response, or "…" when it has none |
| Dialogue.ReplyMatchesOffer | rpg_demo/code_project/game/llm.py:11-32 | the i-th offered text is answered with the response of the option carrying that text, an index beyond the offer gets "…", and without a tree even the offered "Adiós." gets "…" |

## Left out

- Floating point: values are exact reals. In the model three storms from calm give fear exactly 0.9. IEEE doubles give 0.8999999999999999, and no rounding effect is reproduced.
- The `random` module: `decide_move` takes the draw `u` and `_trigger_event` takes the index `pick` as parameters. The model states which move or event a given draw selects, not how draws are distributed.
- Events.EventManager.Update: requires `pick` to index the event list when the timer fires. The source raises `IndexError` on an empty list instead, and engine.py:62 constructs the manager with an empty list; that error path is not modelled.
- The callbacks' real targets (the SQLite memory store in db.py and the game's notification handler) are not part of this model. The trace records only the calls. events.py:49 passes two arguments to a store function that, at db.py:24, takes three; the store is not modelled.
- `str.lower()` covers only ASCII and Latin-1 capital letters, not all of Unicode.
- Dialogue trees: a tree keeps only its `greeting` and `options` entries plus a count of other keys, which is enough for Python's truthiness check. An option without a `text` key, which raises `KeyError` in the source, cannot be expressed.
- llm.py:2 imports `DIALOGUE_TREES` from `game.data`, but data.py defines no such name, so that import fails as written; the map of trees is a parameter.
- The `SocialMove` class with arbitrary callables: only the four built-in moves exist as `datatype Move`. The valid network's move list is exactly that catalog, since `_build_moves` is the only place that registers moves.
- Social.SocialNetwork.GetAttribute: requires the network's invariant, which the constructor establishes and every method except `BuildMoves` preserves (`BuildMoves` is called only by the constructor, cif_ck.py:49). The source has no such demand, but it also cannot reach a state outside that invariant.
- Rendering, input, menus, asset loading, the language-model chat call, NPC movement and start-up (engine.py, menu.py, ui.py, conversation.py, ai.py, data.py, db.py, main.py) are not part of this model.
