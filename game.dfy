/**
 * The game object itself: `GameState` (main.py:23-48) with fields updated in
 * place, and the engine methods of `IntelligentTextAdventureGame` that update
 * them, each proved to produce the state its specification function
 * describes.
 */
module Game {
  import opened Wrappers
  import opened Lists
  import opened State
  import opened Effects
  import opened Interpreter
  import opened Resolution
  import History
  import Fallback
  import World
  import Setup
  import Commands
  import Turn

  class GameState {
    var health: int
    var maxHealth: int
    var mana: int
    var maxMana: int
    var strength: int
    var agility: int
    var intelligence: int
    var gold: int
    var inventory: seq<string>
    var location: string
    var environment: string
    var enemies: seq<string>
    var turn: int
    var lastAction: Option<string>
    var storyHistory: seq<Entry>
    var characterName: string
    var characterClass: string
    var weather: string
    var timeOfDay: string

    /** The fields as one value. */
    function Snap(): Snapshot
      reads this
    {
      Snapshot(health, maxHealth, mana, maxMana, strength, agility, intelligence, gold,
               inventory, location, environment, enemies, turn, lastAction, storyHistory,
               characterName, characterClass, weather, timeOfDay)
    }

    /** A fresh game: a level-one warrior at the edge of the forest. */
    constructor ()
      ensures Snap() == Initial
      ensures State.Valid(Snap())
    {
      health, maxHealth, mana, maxMana := 100, 100, 50, 50;
      strength, agility, intelligence, gold := 12, 14, 13, 50;
      inventory := ["生锈的短剑", "皮革护甲", "治疗药水", "火把"];
      location := "神秘森林的边缘";
      environment := "一片古老而神秘的森林，高大的橡树遮天蔽日，地面上铺满了厚厚的落叶。远处传来未知生物的嚎叫声。";
      enemies := [];
      turn := 0;
      lastAction := None;
      storyHistory := [];
      characterName, characterClass := "冒险者", "战士";
      weather, timeOfDay := "晴朗", "下午";
    }

    /** `getattr` on one numeric field. */
    function Get(st: Stat): int
      reads this
    {
      StatOf(Snap(), st)
    }

    /** `setattr` on one numeric field. */
    method Set(st: Stat, v: int)
      modifies this
      ensures Snap() == WithStat(old(Snap()), st, v)
    {
      match st
      case Health => health := v; assert Snap() == old(Snap()).(health := v);
      case Mana => mana := v; assert Snap() == old(Snap()).(mana := v);
      case Strength => strength := v; assert Snap() == old(Snap()).(strength := v);
      case Agility => agility := v; assert Snap() == old(Snap()).(agility := v);
      case Intelligence => intelligence := v; assert Snap() == old(Snap()).(intelligence := v);
      case Gold => gold := v; assert Snap() == old(Snap()).(gold := v);
    }
  }

  /** The engine, holding the state it plays on. */
  class Adventure {
    var state: GameState

    constructor ()
      ensures fresh(state) && state.Snap() == Initial
    {
      state := new GameState();
    }

    /** `setup_character` with the two typed answers. */
    method SetupCharacter(name: string, choice: string)
      modifies state
      ensures state.Snap() == Setup.Choose(old(state.Snap()), name, choice)
    {
      var n := Text.Strip(name);
      if n != "" {
        state.characterName := n;
      }
      PickClass(choice);
    }

    /** The class table of `setup_character`. */
    method PickClass(choice: string)
      modifies state
      ensures state.Snap() == Setup.Classed(old(state.Snap()), choice)
    {
      var c := Text.Strip(choice);
      if c == "2" {
        BecomeMage();
      } else if c == "3" {
        BecomeRogue();
      } else {
        BecomeWarrior();
      }
    }

    method BecomeMage()
      modifies state
      ensures state.Snap() == old(state.Snap()).(characterClass := "法师", mana := 80, maxMana := 80,
                                                  intelligence := 16,
                                                  inventory := old(state.inventory) + ["魔法书", "魔法护符"])
    {
      state.characterClass, state.mana, state.maxMana, state.intelligence := "法师", 80, 80, 16;
      state.inventory := state.inventory + ["魔法书"];
      state.inventory := state.inventory + ["魔法护符"];
    }

    method BecomeRogue()
      modifies state
      ensures state.Snap() == old(state.Snap()).(characterClass := "盗贼", agility := 18, gold := 100,
                                                  inventory := old(state.inventory) + ["开锁工具", "毒匕首"])
    {
      state.characterClass, state.agility, state.gold := "盗贼", 18, 100;
      state.inventory := state.inventory + ["开锁工具"];
      state.inventory := state.inventory + ["毒匕首"];
    }

    method BecomeWarrior()
      modifies state
      ensures state.Snap() == old(state.Snap()).(characterClass := "战士", health := 120, maxHealth := 120,
                                                  strength := 16, inventory := old(state.inventory) + ["铁盾"])
    {
      state.characterClass, state.health, state.maxHealth, state.strength := "战士", 120, 120, 16;
      state.inventory := state.inventory + ["铁盾"];
    }

    /** `apply_effects`: the six numeric keys in order, then the list and place keys. */
    method ApplyEffects(d: Delta)
      modifies state
      ensures state.Snap() == Apply(old(state.Snap()), d)
    {
      if d == NoEffects {
        ApplyNothing(state.Snap());
        return;
      }
      var s0 := state.Snap();
      ApplyStats(d);
      var s1 := state.Snap();
      AddItems(d.addItems);
      RemoveItems(d.removeItems);
      ChangePlace(d.locationChange, d.environmentChange);
      AddEnemies(d.addEnemies);
      RemoveEnemies(d.removeEnemies);
      ApplyIsStages(s0, d, s1);
    }

    /** `location_change` and `environment_change`: a present key replaces the field. */
    method ChangePlace(location: Option<string>, environment: Option<string>)
      modifies state
      ensures state.Snap() == old(state.Snap()).(location := location.GetOr(old(state.location)),
                                                  environment := environment.GetOr(old(state.environment)))
    {
      if location.Some? {
        state.location := location.value;
      }
      if environment.Some? {
        state.environment := environment.value;
      }
    }

    /** `add_items`: each name is appended, duplicates included. */
    method AddItems(names: seq<string>)
      modifies state
      ensures state.Snap() == old(state.Snap()).(inventory := old(state.inventory) + names)
    {
      var items := state.inventory;
      for i := 0 to |names|
        invariant items == old(state.inventory) + names[..i]
      {
        assert names[..i + 1] == names[..i] + [names[i]];
        items := items + [names[i]];
      }
      assert names[..|names|] == names;
      state.inventory := items;
    }

    /** `remove_items`: the first copy of each name still carried is dropped. */
    method RemoveItems(names: seq<string>)
      modifies state
      ensures state.Snap() == old(state.Snap()).(inventory := RemoveEach(old(state.inventory), names))
    {
      var items := RemoveAll(state.inventory, names);
      state.inventory := items;
    }

    /** `add_enemies`: each name not yet listed is appended. */
    method AddEnemies(names: seq<string>)
      modifies state
      ensures state.Snap() == old(state.Snap()).(enemies := AddUnique(old(state.enemies), names))
    {
      var foes := state.enemies;
      for i := 0 to |names|
        invariant foes == AddUnique(old(state.enemies), names[..i])
      {
        assert names[..i + 1][..i] == names[..i];
        if names[i] !in foes {
          foes := foes + [names[i]];
        }
      }
      assert names[..|names|] == names;
      state.enemies := foes;
    }

    /** `remove_enemies`: each listed name is removed; the others are ignored. */
    method RemoveEnemies(names: seq<string>)
      modifies state
      ensures state.Snap() == old(state.Snap()).(enemies := RemoveEach(old(state.enemies), names))
    {
      var foes := RemoveAll(state.enemies, names);
      state.enemies := foes;
    }

    /** The numeric part of `apply_effects`: each present, non-zero key is added and clamped. */
    method ApplyStats(d: Delta)
      modifies state
      ensures state.Snap() == StatsDone(old(state.Snap()), d, AllStats)
    {
      var s0 := state.Snap();
      for i := 0 to |AllStats|
        invariant state.Snap() == StatsDone(s0, d, AllStats[..i])
      {
        assert AllStats[..i + 1][..i] == AllStats[..i];
        ApplyStat(AllStats[i], d);
      }
      assert AllStats[..|AllStats|] == AllStats;
    }

    /** One numeric key: a present, non-zero change is added and the result clamped. */
    method ApplyStat(st: Stat, d: Delta)
      modifies state
      ensures state.Snap() == WithStat(old(state.Snap()), st, NewStat(old(state.Snap()), st, d))
    {
      if st in d.changes && d.changes[st] != 0 {
        var v := Bounded(state.Snap(), st, state.Get(st) + d.changes[st]);
        state.Set(st, v);
      } else {
        assert WithStat(state.Snap(), st, state.Get(st)) == state.Snap();
      }
    }

    /** Appends one history entry and keeps the last fifteen. */
    method RecordStory(e: Entry)
      modifies state
      ensures state.Snap() == old(state.Snap()).(storyHistory := History.Record(old(state.storyHistory), e))
    {
      state.storyHistory := state.storyHistory + [e];
      if |state.storyHistory| > History.Keep {
        state.storyHistory := state.storyHistory[|state.storyHistory| - History.Keep..];
      }
    }

    /** The narrator branch of `process_action_with_deepseek`, given the narrator's text. */
    method ResolveReply(action: string, text: string, decode: string -> Option<Reply>, roll: int)
      modifies state
      ensures state.Snap() == Resolve(old(state.Snap()), action, Interpret(text, decode), roll)
    {
      var o := Interpret(text, decode);
      var entry: Entry;
      if NeedsRoll(o) {
        var effects := o.effects.GetOr(NoEffects);
        effects := AmplifyEffects(effects, roll);
        ApplyEffects(effects);
        entry := Entry(action, RollStory(o, roll));
      } else {
        ApplyEffects(o.effects.GetOr(NoEffects));
        entry := Entry(action, DirectText(o));
      }
      RecordStory(entry);
    }

    /** `fallback_process_action`, given the roll and the index of the item a search finds. */
    method FallbackProcessAction(action: string, roll: int, find: nat)
      requires find < |Fallback.SearchFinds|
      modifies state
      ensures state.Snap() == Fallback.Respond(old(state.Snap()), action, roll, find)
    {
      if Fallback.Mentions(action, Fallback.AttackWords) {
        Attack(roll);
      } else if Fallback.Mentions(action, Fallback.SearchWords) {
        Search(roll, find);
      } else if Text.Contains(action, Fallback.HealingPotion) {
        DrinkPotion();
      }
    }

    /** The attack branch of the fallback resolver. */
    method Attack(roll: int)
      modifies state
      ensures state.Snap() == Fallback.Strike(old(state.Snap()), roll)
    {
      if roll >= Fallback.AttackDifficulty {
        state.gold := state.gold + Fallback.AttackReward;
        if state.enemies != [] {
          state.enemies := state.enemies[1..];
        }
      } else {
        state.health := Max(0, state.health - Fallback.CounterDamage);
      }
    }

    /** The search branch of the fallback resolver. */
    method Search(roll: int, find: nat)
      requires find < |Fallback.SearchFinds|
      modifies state
      ensures state.Snap() == Fallback.Forage(old(state.Snap()), roll, find)
    {
      if roll >= Fallback.SearchDifficulty {
        state.inventory := state.inventory + [Fallback.SearchFinds[find]];
      }
    }

    /** The healing-potion branch of the fallback resolver. */
    method DrinkPotion()
      modifies state
      ensures state.Snap() == Fallback.Drink(old(state.Snap()))
    {
      var items := state.inventory;
      if Fallback.HealingPotion in items {
        var healed := Min(state.maxHealth, state.health + Fallback.PotionHeal);
        items := RemoveFirst(items, Fallback.HealingPotion);
        state.health, state.inventory := healed, items;
      }
    }

    /** `process_action_with_deepseek`; `narrator` is `None` when no narrator client is configured. */
    method ProcessAction(action: string, narrator: Option<string>, decode: string -> Option<Reply>,
                         roll: int, find: nat)
      requires find < |Fallback.SearchFinds|
      modifies state
      ensures state.Snap() == Turn.Process(old(state.Snap()), action, narrator, decode, roll, find)
    {
      if narrator.None? {
        FallbackProcessAction(action, roll, find);
      } else {
        ResolveReply(action, narrator.value, decode, roll);
      }
    }

    /** `random_world_event`, given the index of the event when the 15% draw fires. */
    method RandomWorldEvent(event: Option<nat>)
      requires event.Some? ==> event.value < 5
      modifies state
      ensures state.Snap() == Turn.Event(old(state.Snap()), event)
    {
      if event.Some? {
        ApplyEffects(World.EventEffects(event.value));
      }
    }

    /** The weather and time drift at the end of a turn, given the drawn indices. */
    method DriftWorld(weather: Option<nat>, time: Option<nat>)
      requires weather.Some? ==> weather.value < |World.WeatherOptions|
      requires time.Some? ==> weather.Some? && time.value < |World.TimeOptions|
      modifies state
      ensures state.Snap() == World.Drift(old(state.Snap()), weather, time)
    {
      if weather.Some? {
        var w := World.WeatherOptions[weather.value];
        if w != state.weather {
          state.weather := w;
        }
        if time.Some? {
          var t := World.TimeOptions[time.value];
          if t != state.timeOfDay {
            state.timeOfDay := t;
          }
        }
      }
    }

    /** One iteration of `run`: returns whether the loop ends. */
    method HandleLine(i: Turn.Input, decode: string -> Option<Reply>) returns (quit: bool)
      requires Turn.Fits(i.draws)
      modifies this, state
      ensures state == old(state) || fresh(state)
      ensures (state.Snap(), quit) == Turn.Handle(old(state.Snap()), i, decode)
    {
      var c := Commands.Dispatch(i.line);
      if c == Commands.Quit {
        return true;
      }
      if !c.Act? {
        return false;
      }
      BeginTurn(c.action);
      ProcessAction(c.action, i.narrator, decode, i.draws.roll, i.draws.find);
      quit := CheckAndTick(i.restart, i.draws);
    }

    /** The game-over check, then the world tick unless the loop ends. */
    method CheckAndTick(restart: Turn.Restart, w: Turn.Draws) returns (quit: bool)
      requires Turn.Fits(w)
      modifies this, state
      ensures state == old(state) || fresh(state)
      ensures (state.Snap(), quit) == Turn.Aftermath(old(state.Snap()), restart, w)
    {
      if state.health <= 0 {
        if !Turn.Accepts(restart.answer) {
          return true;
        }
        NewGame(restart);
      }
      EndTurn(w);
      quit := false;
    }

    /** A new game after the hero's death: a new state object, then character creation. */
    method NewGame(restart: Turn.Restart)
      modifies this
      ensures fresh(state) && state.Snap() == Turn.NewGame(restart)
    {
      state := new GameState();
      SetupCharacter(restart.name, restart.choice);
    }

    /** The bookkeeping before a free action is resolved. */
    method BeginTurn(action: string)
      modifies state
      ensures state.Snap() == Turn.Begin(old(state.Snap()), action)
    {
      state.turn := state.turn + 1;
      state.lastAction := Some(action);
    }

    /** Everything the loop does after resolving an action: the ambient event, then the drift. */
    method EndTurn(w: Turn.Draws)
      requires Turn.Fits(w)
      modifies state
      ensures state.Snap() == Turn.Tick(old(state.Snap()), w)
    {
      RandomWorldEvent(w.event);
      DriftWorld(w.weather, w.time);
    }

    /** The main loop over a sequence of inputs, stopping at "/quit" or a death without restart. */
    method Run(inputs: seq<Turn.Input>, decode: string -> Option<Reply>)
      requires forall k :: 0 <= k < |inputs| ==> Turn.Fits(inputs[k].draws)
      modifies this, state
      ensures state == old(state) || fresh(state)
      ensures state.Snap() == Turn.Session(old(state.Snap()), inputs, decode)
    {
      var k := 0;
      while k < |inputs|
        invariant 0 <= k <= |inputs|
        invariant state == old(state) || fresh(state)
        invariant Turn.Session(state.Snap(), inputs[k..], decode) == Turn.Session(old(state.Snap()), inputs, decode)
      {
        assert inputs[k..][1..] == inputs[k + 1..];
        var quit := HandleLine(inputs[k], decode);
        if quit {
          return;
        }
        k := k + 1;
      }
    }
  }

  /**
   * The removal loop both list edits share: for each name in turn, the first
   * occurrence is removed if there is one.
   */
  method RemoveAll(xs: seq<string>, names: seq<string>) returns (r: seq<string>)
    ensures r == RemoveEach(xs, names)
  {
    r := xs;
    for i := 0 to |names|
      invariant r == RemoveEach(xs, names[..i])
    {
      assert names[..i + 1][..i] == names[..i];
      if names[i] in r {
        r := RemoveFirst(r, names[i]);
      }
    }
    assert names[..|names|] == names;
  }

  /** `Apply` is the numeric stage followed by the list and place edits. */
  lemma ApplyIsStages(s: Snapshot, d: Delta, s1: Snapshot)
    requires s1 == StatsDone(s, d, AllStats)
    ensures Apply(s, d) == s1.(inventory := RemoveEach(s1.inventory + d.addItems, d.removeItems),
                               location := d.locationChange.GetOr(s1.location),
                               environment := d.environmentChange.GetOr(s1.environment),
                               enemies := RemoveEach(AddUnique(s1.enemies, d.addEnemies), d.removeEnemies))
  {
  }
}
