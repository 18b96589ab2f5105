/**
 * One pass of the main loop (`run`, main.py:682-772) as a function of the
 * line typed, the narrator's text and the random draws: command dispatch,
 * the turn counter, the choice between narrator and fallback, the check for
 * the hero's death, and the world tick that follows.
 */
module Turn {
  import opened Wrappers
  import opened State
  import opened Effects
  import opened Interpreter
  import opened Resolution
  import History
  import Fallback
  import World
  import Commands
  import Setup
  import Text

  /** The text the narrator client returns when its call fails (main.py:121-123). */
  const Apology: string := "抱歉，AI暂时无法响应，将使用基础逻辑处理你的行动。"

  /**
   * The random draws of one turn: the d20 roll, the index of the item a
   * fallback search finds, the ambient event when the 15% draw fires, and
   * the weather and time of day when their draws fire.
   */
  datatype Draws = Draws(roll: int, find: nat, event: Option<nat>, weather: Option<nat>, time: Option<nat>)

  /** Every draw is an index into the table it is drawn from. */
  predicate Fits(w: Draws) {
    && w.find < |Fallback.SearchFinds|
    && (w.event.Some? ==> w.event.value < 5)
    && (w.weather.Some? ==> w.weather.value < |World.WeatherOptions|)
    && (w.time.Some? ==> w.weather.Some? && w.time.value < |World.TimeOptions|)
  }

  /** A free action starts a turn: the counter goes up and the action is remembered. */
  function Begin(s: Snapshot, action: string): (r: Snapshot)
    ensures r.turn == s.turn + 1 && r.lastAction == Some(action)
    ensures r.(turn := s.turn, lastAction := s.lastAction) == s
    ensures Valid(s) ==> Valid(r)
  {
    s.(turn := s.turn + 1, lastAction := Some(action))
  }

  /**
   * `process_action_with_deepseek`: without a narrator (`None`) the fallback
   * resolver handles the action; otherwise the narrator's text, whatever it
   * is, is interpreted and resolved.
   */
  function Process(s: Snapshot, action: string, narrator: Option<string>, decode: string -> Option<Reply>,
                   roll: int, find: nat): (r: Snapshot)
    requires find < |Fallback.SearchFinds|
    ensures Valid(s) ==> Valid(r)
    ensures r.turn == s.turn && r.lastAction == s.lastAction
    ensures narrator.None? ==> r == Fallback.Respond(s, action, roll, find) && r.storyHistory == s.storyHistory
    ensures narrator.Some? ==>
              r == Resolve(s, action, Interpret(narrator.value, decode), roll)
              && r.storyHistory == History.Record(s.storyHistory,
                                                  StoryEntry(action, Interpret(narrator.value, decode), roll))
  {
    match narrator
    case None => Fallback.Respond(s, action, roll, find)
    case Some(text) => Resolve(s, action, Interpret(text, decode), roll)
  }

  /** The ambient event of `random_world_event` (main.py:647-676), when one fires. */
  function Event(s: Snapshot, event: Option<nat>): (r: Snapshot)
    requires event.Some? ==> event.value < 5
    ensures event.None? ==> r == s
    ensures event.Some? ==> r == Apply(s, World.EventEffects(event.value))
    ensures Rest(r) == Rest(s)
    ensures Valid(s) ==> Valid(r)
  {
    match event
    case None => s
    case Some(k) => Apply(s, World.EventEffects(k))
  }

  /** Everything that follows the resolution of an action: the ambient event, then the drift. */
  function Tick(s: Snapshot, w: Draws): (r: Snapshot)
    requires Fits(w)
    ensures Valid(s) ==> Valid(r)
    ensures r.inventory == s.inventory && r.enemies == s.enemies && r.storyHistory == s.storyHistory
    ensures r.turn == s.turn && r.lastAction == s.lastAction
  {
    World.Drift(Event(s, w.event), w.weather, w.time)
  }

  /** A free action up to its resolution: the turn begins, then the action is processed. */
  function Played(s: Snapshot, action: string, narrator: Option<string>, decode: string -> Option<Reply>,
                  w: Draws): (r: Snapshot)
    requires Fits(w)
    ensures Valid(s) ==> Valid(r)
    ensures r.turn == s.turn + 1 && r.lastAction == Some(action)
  {
    Process(Begin(s, action), action, narrator, decode, w.roll, w.find)
  }

  /**
   * What the player answers when their health runs out: the answer to the
   * restart question, then the name and class answers of a new character.
   */
  datatype Restart = Restart(answer: string, name: string, choice: string)

  /** The restart question is accepted when the stripped, lower-cased answer is "y". */
  predicate Accepts(answer: string) {
    Text.AsciiLower(Text.Strip(answer)) == "y"
  }

  /** The only accepting answers are "y" and "Y", with any blanks around them. */
  lemma AcceptsExactly(answer: string)
    ensures Accepts(answer) <==> Text.Strip(answer) == "y" || Text.Strip(answer) == "Y"
  {
    var t := Text.Strip(answer);
    if t == "y" || t == "Y" {
      assert Text.AsciiLower(t)[0] == 'y';
      assert Text.AsciiLower(t) == "y";
    }
    if Text.AsciiLower(t) == "y" {
      assert |t| == 1;
      assert t == [t[0]];
    }
  }

  /** What the loop reads in one iteration: the line, and what the turn would draw or read from outside. */
  datatype Input = Input(line: string, narrator: Option<string>, draws: Draws, restart: Restart)

  /**
   * The game `init_game` starts after a restart: the initial state with a
   * newly created character, at turn zero and with no history.
   */
  function NewGame(restart: Restart): (r: Snapshot)
    ensures r.turn == 0 && r.lastAction == None && r.storyHistory == []
    ensures Valid(r)
  {
    Setup.Choose(Initial, restart.name, restart.choice)
  }

  /**
   * What follows the resolution of an action: if the hero's health has run
   * out, either a new game or the end of the loop before the world moves
   * on; then, unless the loop ended, the tick.
   */
  function Aftermath(p: Snapshot, restart: Restart, w: Draws): (r: (Snapshot, bool))
    requires Fits(w)
    ensures r.1 <==> p.health <= 0 && !Accepts(restart.answer)
    ensures p.health > 0 ==> r.0 == Tick(p, w)
    ensures r.1 ==> r.0 == p
    ensures p.health <= 0 && Accepts(restart.answer) ==> r.0 == Tick(NewGame(restart), w)
    ensures Valid(p) ==> Valid(r.0)
  {
    if p.health > 0 then (Tick(p, w), false)
    else if Accepts(restart.answer) then (Tick(NewGame(restart), w), false)
    else (p, true)
  }

  /**
   * One iteration of the loop: the new state, and whether the loop ends.
   * Only a free action changes the state; "/quit" ends the loop, and so
   * does a death the player does not restart from.
   */
  function Handle(s: Snapshot, i: Input, decode: string -> Option<Reply>): (r: (Snapshot, bool))
    requires Fits(i.draws)
    ensures !Commands.Dispatch(i.line).Act? ==> r.0 == s && (r.1 <==> Commands.Dispatch(i.line) == Commands.Quit)
    ensures Commands.Dispatch(i.line).Act? ==>
              r == Aftermath(Played(s, Commands.Dispatch(i.line).action, i.narrator, decode, i.draws), i.restart, i.draws)
    ensures Valid(s) ==> Valid(r.0)
  {
    match Commands.Dispatch(i.line)
    case Quit => (s, true)
    case Act(a) => Aftermath(Played(s, a, i.narrator, decode, i.draws), i.restart, i.draws)
    case _ => (s, false)
  }

  /**
   * The loop over a sequence of inputs, up to a "/quit" or a death the player
   * does not come back from. Inputs holding no free action leave the state as it was.
   */
  function Session(s: Snapshot, inputs: seq<Input>, decode: string -> Option<Reply>): (r: Snapshot)
    requires forall k :: 0 <= k < |inputs| ==> Fits(inputs[k].draws)
    ensures Actions(inputs) == 0 ==> r == s
    decreases |inputs|
  {
    if inputs == [] then s
    else
      var (t, quit) := Handle(s, inputs[0], decode);
      assert forall k :: 0 <= k < |inputs[1..]| ==> inputs[1..][k] == inputs[k + 1];
      if quit then t else Session(t, inputs[1..], decode)
  }

  /** How many free actions the inputs hold before the first "/quit". */
  function Actions(inputs: seq<Input>): nat
    decreases |inputs|
  {
    if inputs == [] then 0
    else
      var c := Commands.Dispatch(inputs[0].line);
      if c == Commands.Quit then 0
      else (if c.Act? then 1 else 0) + Actions(inputs[1..])
  }

  /** However long the session, the state invariants hold at its end. */
  lemma {:induction false} SessionValid(s: Snapshot, inputs: seq<Input>, decode: string -> Option<Reply>)
    requires forall k :: 0 <= k < |inputs| ==> Fits(inputs[k].draws)
    requires Valid(s)
    ensures Valid(Session(s, inputs, decode))
    decreases |inputs|
  {
    if inputs != [] {
      var (t, quit) := Handle(s, inputs[0], decode);
      if !quit {
        assert forall k :: 0 <= k < |inputs[1..]| ==> inputs[1..][k] == inputs[k + 1];
        SessionValid(t, inputs[1..], decode);
      }
    }
  }

  /** One iteration raises the turn counter by at most one, and only for a free action. */
  lemma HandleTurn(s: Snapshot, i: Input, decode: string -> Option<Reply>)
    requires Fits(i.draws)
    requires s.turn >= 0
    ensures 0 <= Handle(s, i, decode).0.turn <= s.turn + (if Commands.Dispatch(i.line).Act? then 1 else 0)
  {
    var c := Commands.Dispatch(i.line);
    if c.Act? {
      var p := Played(s, c.action, i.narrator, decode, i.draws);
      assert p.turn == s.turn + 1;
      var a := Aftermath(p, i.restart, i.draws);
      assert a.0.turn == p.turn || a.0.turn == 0;
    }
  }

  /** The turn counter never runs ahead of the free actions: a restart only sets it back to zero. */
  lemma {:induction false} SessionTurns(s: Snapshot, inputs: seq<Input>, decode: string -> Option<Reply>)
    requires forall k :: 0 <= k < |inputs| ==> Fits(inputs[k].draws)
    requires s.turn >= 0
    ensures 0 <= Session(s, inputs, decode).turn <= s.turn + Actions(inputs)
    decreases |inputs|
  {
    if inputs != [] {
      var (t, quit) := Handle(s, inputs[0], decode);
      HandleTurn(s, inputs[0], decode);
      if !quit {
        assert forall k :: 0 <= k < |inputs[1..]| ==> inputs[1..][k] == inputs[k + 1];
        SessionTurns(t, inputs[1..], decode);
      }
    }
  }

  /**
   * When the player never accepts a restart, the turn counter counts exactly
   * the free actions, unless the session ended with the hero's death.
   */
  lemma {:induction false} SessionTurnsUnlessDead(s: Snapshot, inputs: seq<Input>, decode: string -> Option<Reply>)
    requires forall k :: 0 <= k < |inputs| ==> Fits(inputs[k].draws) && !Accepts(inputs[k].restart.answer)
    ensures var r := Session(s, inputs, decode);
            r.turn == s.turn + Actions(inputs) || r.health <= 0
    decreases |inputs|
  {
    if inputs != [] {
      var (t, quit) := Handle(s, inputs[0], decode);
      if !quit {
        assert forall k :: 0 <= k < |inputs[1..]| ==> inputs[1..][k] == inputs[k + 1];
        SessionTurnsUnlessDead(t, inputs[1..], decode);
      }
    }
  }

  /**
   * A failed narrator call does not reach the fallback resolver: the apology
   * is narrated as a direct outcome with no effects, so the only change is
   * the history entry that records it.
   */
  lemma ApologyIsNarrated(s: Snapshot, action: string, decode: string -> Option<Reply>, roll: int, find: nat)
    requires find < |Fallback.SearchFinds|
    ensures var r := Process(s, action, Some(Apology), decode, roll, find);
            r == s.(storyHistory := History.Record(s.storyHistory, Entry(action, Apology)))
  {
    ApologyHasNoSpan();
    assert Interpret(Apology, decode) == Direct(Apology);
    ApplyNothing(s);
  }

  /** The apology holds no brace, so the interpreter finds no object in it. */
  lemma ApologyHasNoSpan()
    ensures Span(Apology).None?
  {
    assert NoBrace(Apology);
    SpanPrefix(Apology, "");
    assert Apology + "" == Apology;
  }
}
