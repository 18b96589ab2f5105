# DNDGP turn resolution, modelled in Dafny

DNDGP is a text adventure with a language-model dungeon master. The player
types free actions. For each one, the game asks a narrator (DeepSeek) for a
JSON reply and reads an effect record out of it. When the reply asks for a
check, the game rolls a d20: critical failures turn gains in health and
mana into losses, and critical successes boost gains in health, mana and
gold by half. The effects
are clamped and applied to the character, and the exchange goes into a
15-entry story history. Without a narrator, a keyword-based fallback
resolves the action instead. After every action the game checks whether the
hero has died, which means a restart or the end of the game. It may then
fire an ambient world event and drift the weather and the time of day.

This project models that core of `main.py`: the `GameState` record and the
engine methods of `IntelligentTextAdventureGame` that change it. It proves
what those methods do.

The model has two layers.

- **Specification functions on values.** `State.Snapshot` is the game state
  as a value. `Effects.Apply`, `Resolution.Resolve`, `Fallback.Respond`,
  `Turn.Handle` and the functions beside them say what each operation does
  to a snapshot. Lemmas prove what the game promises about those functions:
  - clamping keeps the state within its bounds;
  - items are counted as a multiset;
  - enemy membership;
  - the history keeps the last 15 entries;
  - the interpreter finds the same JSON span whether or not the reply is
    wrapped in a Markdown fence;
  - the prompt alternates roles;
  - the turn counter over a whole session.
- **Imperative classes.** `Game.GameState` is a class with one field per
  attribute. `Game.Adventure` holds the current state object. Its methods
  update the fields in place, with the same loops and branches as the
  source. Each method is proved to leave exactly the state that its
  specification function describes (`state.Snap() == Spec(old(state.Snap()), ...)`).

The modules:

- `Text`: Python's `strip` and the other string helpers.
- `Lists`: `list.remove` and the add-if-absent loop.
- `State`: the record, its bounds and the initial values.
- `Effects`: `apply_effects`.
- `History`: the 15-entry history.
- `Interpreter`: `parse_deepseek_response`.
- `Prompt`: `create_dm_prompt`.
- `Resolution`: the d20 check and critical amplification.
- `Fallback`: `fallback_process_action`.
- `World`: the ambient events and the weather drift.
- `Setup`: `setup_character`.
- `Commands`: the slash commands of the loop.
- `Turn`: one iteration of `run`, and whole sessions.
- `Game`: the classes.

Everything outside the program is a parameter:

- **The narrator's text** is `narrator: Option<string>`. `None` is the
  fallback path. It covers two cases. The first is that no client is
  configured (main.py:384-385). The second is that `generate_response`
  returns Python's `None` because the reply's JSON `content` is null
  (main.py:117). Then `response.strip()` (main.py:274) raises, and the
  handler at main.py:472-474 runs the fallback on the unchanged state.
  `Some(text)` is any other text `generate_response` returned, including its
  apology string when the call failed.
- **`json.loads`**, read through the reply schema, is `decode: string -> Option<Reply>`.
  `None` stands for a decoding error.
- **The random draws** of a turn are `Turn.Draws`. They are the d20 roll,
  the search find, the ambient event and the weather and time choices, each
  `None` when its probability draw did not fire.
- **The answers typed after a death** are `Turn.Restart`.

## Where the code and the documented design differ

The model follows the code in both places.

- **A failed narrator call.** The design says a failed call falls back to
  the built-in logic. In the code, `generate_response` catches the failure
  and returns an apology text (main.py:121-123). `process_action_with_deepseek`
  then parses that text like any reply. The apology has no braces, so it is
  narrated as a direct outcome with no effects and goes into the history;
  the fallback resolver is never called. `Turn.ApologyIsNarrated` proves this.
- **A failure part-way through.** When processing raises an exception
  part-way through (main.py:472-474), the effects already applied stay
  applied before the fallback runs. A turn is therefore not atomic. The
  model has no exception path (see below).

## Model

| member | source | states |
|---|---|---|
| Lists.IndexOf | main.py:356-357 | the index found holds the item, and no earlier position does |
| Lists.RemoveFirst | main.py:356-357 | `list.remove` of one present item: the list without its first occurrence; an absent item leaves the list unchanged; the multiset loses exactly one copy; no duplicates are introduced and nothing new appears |
| Lists.CutAt | main.py:357 | cutting one position out removes exactly one copy of its item and keeps the list duplicate-free |
| Lists.RemoveEach | main.py:354-358 | the removal loop never introduces a duplicate or an item that was not there |
| Lists.RemoveEachCount | main.py:354-358 | the removal loop subtracts, as multisets, the names listed, so a name listed twice removes two copies |
| Lists.RemoveEachAbsent | main.py:354-358 | when none of the names is present, the list is unchanged |
| Lists.RemoveEachMembership | main.py:376-380 | on a duplicate-free list, an item remains exactly when it was there and was not named |
| Lists.NoDupCount | main.py:370-374 | a duplicate-free list holds each item at most once |
| Lists.AddUnique | main.py:370-374 | adding only absent names keeps the old list as a prefix, holds exactly the old items and the names, and keeps a duplicate-free list duplicate-free |
| Lists.AddUniquePresent | main.py:370-374 | adding names that are all present changes nothing |
| Lists.AddUniqueIdempotent | main.py:370-374 | adding the same names twice is the same as adding them once |
| Text.LeadingSpaces | main.py:274 | the count of leading whitespace characters: all of them are whitespace and the next one is not |
| Text.TrailingSpaces | main.py:274 | the count of trailing whitespace characters: all of them are whitespace and the one before is not |
| Text.StripShape | main.py:274 | `strip()` returns a contiguous slice with only whitespace on either side, and it neither starts nor ends with whitespace |
| Text.AsciiLower | main.py:691 | lower-casing keeps the length and maps each character on its own: `A`-`Z` to `a`-`z`, every other character to itself |
| Text.ShowNat | main.py:449 | a decimal numeral is a non-empty string of digits that reads back as the number and starts with a zero only when it is "0" |
| Text.ShowInt | main.py:449 | `str` of an integer is a minus sign exactly when it is negative, followed by digits only that read back as its magnitude, with no leading zero unless the number is 0 |
| State.AllStatsComplete | main.py:315 | the six numeric attributes are listed once each |
| State.ValidBounds | main.py:322-346 | the state invariant is exactly: every attribute within its clamp bounds, no duplicate enemy, at most 15 history entries, and a non-negative turn counter |
| State.WithStat | main.py:346 | `setattr` of one attribute changes that attribute and nothing else |
| Effects.Bounded | main.py:322-345 | the clamp leaves a value already in bounds unchanged; a value below the floor (0 for health, mana and gold, 1 for the three abilities) becomes the floor; health or mana above its maximum becomes that maximum (or 0 when the maximum is negative); the result is in bounds whenever the maximums are not negative |
| Effects.NewStat | main.py:316-346 | an attribute with a non-zero change takes the clamp of its old value plus the change; one whose change is absent or zero keeps its value; on a valid state every new value is within bounds |
| Effects.HealthClampExamples | main.py:322-323 | at 100/100 health, a change of -150 leaves 0 and a change of +999 leaves 100 |
| Effects.StatsDone | main.py:315-346 | the attribute loop touches no field but the six attributes |
| Effects.StatsDoneEach | main.py:315-346 | after the loop, each visited attribute holds its clamped new value and each other attribute is unchanged |
| Effects.Apply | main.py:309-380 | every attribute takes its clamped value; the inventory gains the added items and then loses the removed ones that are present; location and environment are replaced when given; enemies gain the absent additions and lose the named ones; no other field changes; the state invariant is preserved |
| Effects.ApplyNothing | main.py:311-312 | the empty effect record changes nothing |
| Effects.InventoryCount | main.py:349-358 | the inventory's multiset gains the added items and loses the removed ones |
| Effects.RemoveAbsentItems | main.py:354-358 | removing only absent items leaves the inventory as the old one plus the additions |
| Effects.EnemyMembership | main.py:369-380 | an enemy is present afterwards exactly when it was present or added, and was not removed |
| Effects.AddEnemiesIdempotent | main.py:370-374 | applying the same enemy additions twice is the same as applying them once |
| History.Last | main.py:469-470 | the history kept is the last 15 entries, or all of them when there are fewer |
| History.Record | main.py:466-470 | the new entry is last; the history never exceeds 15 entries; below the cap the entry is appended, and at the cap the oldest entry is dropped |
| History.LastAppend | main.py:466-470 | truncating before an append gives the same result as truncating after it |
| History.RecordAllIsLast | main.py:466-470 | recording entries one by one keeps exactly the last 15 of the whole sequence |
| History.LastConcat | main.py:466-470 | truncating once or many times along the way gives the same history |
| Interpreter.FromFirstOpenIs | main.py:281 | the search for `{` finds the suffix starting at the first opening brace, or reports that there is none |
| Interpreter.UpToLastCloseIs | main.py:281 | the search for `}` finds the prefix ending at the last closing brace, or reports that there is none |
| Interpreter.Span | main.py:281-283 | a span found starts with `{` and ends with `}` |
| Interpreter.SpanIsSearch | main.py:281-283 | the greedy dot-all search `\{.*\}` fails exactly when no `{` precedes a `}`; when it succeeds, the match is a slice of the text with no `{` before it and no `}` after it |
| Interpreter.FromFirstOpenPrefix | main.py:281 | a brace-free prefix does not move the first opening brace |
| Interpreter.FromFirstOpenSuffix | main.py:281 | a suffix with no opening brace is carried along unchanged |
| Interpreter.UpToLastCloseSuffix | main.py:281 | a suffix with no closing brace does not move the last closing brace |
| Interpreter.SpanPrefix | main.py:281-283 | a brace-free prefix does not change the span found |
| Interpreter.SpanSuffix | main.py:281-283 | a brace-free suffix does not change the span found |
| Interpreter.SpacesNoBrace | main.py:274 | whitespace holds no brace |
| Interpreter.StripKeepsSpan | main.py:274-283 | stripping whitespace does not change the span found |
| Interpreter.OpenFenceKeepsSpan | main.py:275-276 | dropping a leading "```json" does not change the span found |
| Interpreter.CloseFenceKeepsSpan | main.py:277-278 | dropping a trailing "```" does not change the span found |
| Interpreter.UnfenceKeepsSpan | main.py:275-278 | dropping both fences does not change the span found |
| Interpreter.CleanKeepsSpan | main.py:273-283 | the whole clean-up leaves the span exactly as it was in the raw reply |
| Interpreter.Interpret | main.py:270-307 | without a span, or when decoding fails, the result is the raw reply as a direct outcome with no effects; otherwise the result is the decoded record with `needs_roll` defaulting to false and `effects` to empty, and every other field as decoded |
| Interpreter.FencedReply | main.py:272-290 | when the body holds a `{...}` span that decodes, a reply wrapped in a "```json" fence is interpreted exactly as the unwrapped body (without such a span, the fenced reply's direct outcome is the whole raw fenced text, not the body) |
| Prompt.Recent | main.py:254 | the prompt's context is the last three history entries, or all of them when there are fewer |
| Prompt.Exchanges | main.py:260-262 | each history entry becomes a user message with the action, followed by an assistant message with the response |
| Prompt.Assemble | main.py:256-268 | the message list is the system prompt, then the exchanges in order, then the current action as a user message |
| Prompt.SystemPrompt | main.py:203-252 | the system message starts with the instructions, ends with the rules and the reply format, and the state description is exactly what lies between them |
| Prompt.Framed | main.py:203-252 | the middle of a text framed by a head and a tail is recovered by cutting both off |
| Prompt.CreatePrompt | main.py:201-268 | the prompt for a state and an action is the system prompt built from the state, the last three exchanges, and the action |
| Prompt.AssembleRoles | main.py:256-268 | after the system message, the roles alternate user and assistant, starting with user |
| Prompt.PromptRoles | main.py:201-268 | the prompt starts with the system role, and user and assistant alternate after it |
| Resolution.AmplifyValue | main.py:432-442 | on a critical failure (roll at most 5), positive health and mana changes become their negation; on a critical success (roll at least 16), positive health, mana and gold changes become the integer part of one and a half times them; non-positive values and all other rolls are unchanged |
| Resolution.Amplify | main.py:432-442 | amplification keeps the same keys, changes each value by its band, leaves the item, place and enemy edits alone, and does nothing in the middle band |
| Resolution.AmplifyEffects | main.py:433-442 | the loop over the effect entries computes the same record as the value-level amplification |
| Resolution.Difficulty | main.py:401 | the difficulty is the one the reply gives, or 15 when it gives none |
| Resolution.DefaultDifficultyBands | main.py:401-402 | with the default difficulty a roll succeeds exactly when it is at least 15, so every critical success succeeds and every critical failure fails |
| Resolution.RollStory | main.py:447-450 | the story of a checked action starts with the description, ends with the tagged success or failure outcome, and holds between them the roll and the difficulty in brackets |
| Resolution.StoryEntry | main.py:447-463 | the history entry keeps the action; an unchecked reply records its direct outcome, a checked one its description followed by the tagged outcome |
| Resolution.FinalEffects | main.py:430-457 | an unchecked reply or a middle-band roll applies the proposed effects as given; amplification keeps the same attribute keys and every non-attribute edit; each checked change is that attribute's amplified value; after a critical failure no health or mana change is positive; after a critical success no change is smaller than proposed |
| Resolution.Resolve | main.py:398-470 | the resolved state is the old one with the final effects applied and the story entry recorded; the state invariant is preserved |
| Resolution.CriticalFailureExample | main.py:433-436 | a roll of 3 turns +20 health into -20 |
| Resolution.CriticalSuccessExample | main.py:439-442 | a roll of 18 turns +10 gold into +15 |
| Fallback.Respond | main.py:476-525 | an attack hit gains 15 gold and defeats the first enemy; a miss loses 10 health, floored at 0; a successful search adds the drawn find; drinking a potion that is carried heals 30, capped at the maximum, and removes the first potion from the inventory, keeping the order of the rest; anything else changes nothing; history, turn and last action are untouched; the invariant is preserved |
| Fallback.Classify | main.py:481-518 | an action is an attack exactly when it mentions an attack word; a search exactly when it mentions a search word and no attack word; a potion exactly when it mentions neither but names the healing potion |
| Fallback.Forage | main.py:496-507 | a roll of at least 10 appends the chosen find to the inventory; a lower roll changes nothing; no other field changes; the invariant is preserved |
| Fallback.Drink | main.py:509-516 | with a potion carried, health rises by 30 up to the maximum and the first potion is removed; without one, nothing changes; no other field changes; the invariant is preserved |
| Fallback.Strike | main.py:481-494 | the attack keeps the state invariant |
| World.EventEffects | main.py:650-671 | each ambient event raises exactly one attribute, by a positive amount, and does nothing else |
| World.Drift | main.py:757-772 | only the weather and the time of day change; a fired weather draw sets the drawn weather, a fired time draw sets the drawn time, the time stays when its draw did not fire, and nothing changes when the weather draw does not fire |
| Setup.Choose | main.py:527-562 | a non-blank stripped name replaces the default; "2" makes a mage, "3" a rogue, and anything else a warrior, each with exactly that class's numbers and starting items; the invariant is preserved |
| Commands.Dispatch | main.py:685-717 | a blank line is ignored; a stripped line that matches a reserved command in any letter case is that command; any other line is a free action carrying the stripped text |
| Turn.Begin | main.py:720-721 | a free action raises the turn counter by one and becomes the last action; nothing else changes |
| Turn.Process | main.py:382-474 | without a narrator, the result is exactly `Fallback.Respond` and the history is untouched; with one, it is exactly `Resolution.Resolve` of the interpreted reply, and the history records its story entry; turn and last action are kept; the invariant is preserved |
| Turn.Event | main.py:647-676 | an ambient event applies that event's effects, every field but the six attributes stays as it was, and no event changes nothing |
| Turn.Tick | main.py:753-772 | the tick after an action leaves inventory, enemies, history, turn and last action alone and keeps the invariant |
| Turn.Played | main.py:719-738 | a free action up to its resolution leaves the turn one higher and that action as the last action |
| Turn.AcceptsExactly | main.py:744-745 | the restart question is accepted exactly when the stripped answer is "y" or "Y" |
| Turn.NewGame | main.py:745-749 | a restarted game begins at turn zero, with no last action and no history, and satisfies the invariant |
| Turn.Aftermath | main.py:740-772 | a dead hero whose player declines ends the loop before the world moves on; an accepted restart ticks a new game; a live hero's state is ticked |
| Turn.Handle | main.py:684-772 | commands leave the state unchanged and only "/quit" among them ends the loop; a free action is played and then followed by the game-over check and the tick; the invariant is preserved |
| Turn.Session | main.py:682-780 | inputs that hold no free action before the first "/quit" leave the state unchanged |
| Turn.HandleTurn | main.py:684-772 | one iteration keeps the turn counter non-negative and raises it by at most one, and only for a free action |
| Turn.SessionValid | main.py:682-780 | the invariant holds at the end of any session |
| Turn.SessionTurns | main.py:682-780 | the turn counter never exceeds the starting turn plus the number of free actions |
| Turn.SessionTurnsUnlessDead | main.py:682-780 | when no restart is accepted, the turn counter equals the starting turn plus the number of free actions, unless the hero died |
| Turn.ApologyIsNarrated | main.py:121-123 | a failed narrator call changes only the history, which records the apology as the outcome |
| Turn.ApologyHasNoSpan | main.py:123 | the apology text holds no JSON object |
| Game.GameState.constructor | main.py:24-48 | a new state holds the initial values and satisfies the invariant |
| Game.GameState.Set | main.py:346 | setting one attribute changes that field alone |
| Game.Adventure.constructor | main.py:127-128 | the engine starts on a new initial state |
| Game.Adventure.SetupCharacter | main.py:527-562 | character creation updates the fields as `Setup.Choose` describes |
| Game.Adventure.PickClass | main.py:544-562 | the class branches update the fields as the class table describes |
| Game.Adventure.BecomeMage | main.py:544-550 | the mage's class, mana, maximum mana, intelligence and two items, and nothing else |
| Game.Adventure.BecomeRogue | main.py:551-556 | the rogue's class, agility, gold and two items, and nothing else |
| Game.Adventure.BecomeWarrior | main.py:557-562 | the warrior's class, health, maximum health, strength and shield, and nothing else |
| Game.Adventure.ApplyEffects | main.py:309-380 | the in-place update leaves exactly the state `Effects.Apply` describes |
| Game.Adventure.ApplyStats | main.py:315-346 | the attribute loop leaves each attribute at its clamped new value |
| Game.Adventure.ApplyStat | main.py:316-346 | one loop iteration sets one attribute to its clamped new value |
| Game.Adventure.AddItems | main.py:349-352 | the items are appended in order |
| Game.Adventure.RemoveItems | main.py:354-358 | the first occurrence of each present item is removed in turn |
| Game.Adventure.ChangePlace | main.py:361-367 | location and environment are replaced when given |
| Game.Adventure.AddEnemies | main.py:369-374 | each absent enemy is appended |
| Game.Adventure.RemoveEnemies | main.py:376-380 | each present enemy is removed |
| Game.Adventure.RecordStory | main.py:465-470 | the entry is appended and the history truncated to 15 |
| Game.Adventure.ResolveReply | main.py:389-470 | interpreting and resolving a reply leaves the state `Resolution.Resolve` describes |
| Game.Adventure.FallbackProcessAction | main.py:476-525 | the keyword branches leave the state `Fallback.Respond` describes |
| Game.Adventure.Attack | main.py:481-494 | the attack branch leaves the state `Fallback.Strike` describes |
| Game.Adventure.Search | main.py:496-507 | the search branch leaves the state `Fallback.Forage` describes |
| Game.Adventure.DrinkPotion | main.py:509-516 | the potion branch leaves the state `Fallback.Drink` describes |
| Game.Adventure.ProcessAction | main.py:382-474 | processing leaves the state `Turn.Process` describes |
| Game.Adventure.RandomWorldEvent | main.py:647-676 | the ambient event leaves the state `Turn.Event` describes |
| Game.Adventure.DriftWorld | main.py:756-772 | the drift leaves the state `World.Drift` describes |
| Game.Adventure.HandleLine | main.py:684-772 | one iteration leaves the state `Turn.Handle` describes and reports whether the loop ends |
| Game.Adventure.BeginTurn | main.py:719-721 | the turn counter and last action are updated |
| Game.Adventure.CheckAndTick | main.py:740-772 | the game-over check and the tick leave the state `Turn.Aftermath` describes |
| Game.Adventure.NewGame | main.py:745-749 | a restart installs a new state object and creates a character on it |
| Game.Adventure.EndTurn | main.py:753-772 | the ambient event, then the drift |
| Game.Adventure.Run | main.py:682-780 | the loop over a sequence of inputs leaves the state `Turn.Session` describes |
| Game.RemoveAll | main.py:354-358 | the removal loop on a list value computes `Lists.RemoveEach` |

## Left out

- The DeepSeek client (`DeepSeekInterface`): HTTP, the `openai` and
  `requests` libraries, and API keys, all of which are network I/O. The
  narrator's answer is a parameter. A failed call is modelled only by the
  apology text it returns.
- Printing of every kind: colours, DM and system messages, the "thinking"
  lines, `display_character_sheet`, `display_inventory`, `show_help`,
  `show_story_history` and the `/roll` command's die. These produce output
  only and change no state.
- `input`, `time.sleep`, `get_deepseek_api_key`, the `__main__` block, and
  the banners of `init_game`. The typed answers are parameters, and a
  restart is modelled as a new state followed by character creation.
- Randomness: the rolls and choices are parameters. The probabilities (15%
  for an event, 12% for a weather change, 40% for a time change given a
  weather change) are not modelled; only whether each draw fired is.
- `json.loads` is the `decode` parameter. Ill-typed JSON values (a
  non-integer difficulty, a truthy non-boolean `needs_roll`, a non-list
  `add_items`) are not modelled, nor are non-integer numeric deltas: a health
  change of 2.5 is added and clamped as a float in the source, while the
  model's changes are integers. A JSON `null` for `needs_roll` or `effects`
  becomes the absent value, which the source treats the same way.
- The exception handlers: processing's `except` branch (main.py:472-474)
  and the loop's `KeyboardInterrupt` and generic handler
  (main.py:774-779). In the model no step can raise, so the partial,
  non-atomic failure path is not represented.
- `Resolution.AmplifyValue`: `int(value * 1.5)` goes through a float in
  the source. The model uses the exact integer `(3 * value) / 2`, which
  agrees for every value below 2^51. Above about 2^53/3 the float product
  is rounded, and the two can differ (for example at 3377699720527873).
- `npcs`, `quest` and `world_state["recent_events"]`: the core never reads
  or changes them.
- `World.Drift`: the source compares the new weather or time
  with the old one before assigning it. The model assigns unconditionally,
  which leaves the same state.
- `Commands.Dispatch`: Python's `lower()` is modelled as ASCII lower-casing.
  This is exact for the six reserved commands: no non-ASCII character
  lower-cases to a plain ASCII letter that occurs in them.
- `Fallback.Respond`: Python's `lower()` on the action is not modelled. The
  keywords it tests are Chinese characters, which have no case, so a match
  does not depend on it.
- `Fallback.Respond`: the flavour line chosen for an unrecognised action is
  output only. Its draw is not modelled.
