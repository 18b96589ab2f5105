/**
 * The resolution engine: the part of `process_action_with_deepseek` that
 * runs after the reply is interpreted (main.py:398-470), with the die roll
 * as a parameter.
 */
module Resolution {
  import opened Wrappers
  import opened Text
  import opened State
  import opened Effects
  import History
  import opened Interpreter

  /** The difficulty used when the reply gives none. */
  const DefaultDifficulty: int := 15

  function Difficulty(o: Reply): (r: int)
    ensures o.difficulty.Some? ==> r == o.difficulty.value
    ensures o.difficulty.None? ==> r == 15
  {
    o.difficulty.GetOr(DefaultDifficulty)
  }

  /** A check succeeds when the roll reaches the difficulty. */
  predicate Succeeds(roll: int, difficulty: int) {
    roll >= difficulty
  }

  predicate CriticalFailure(roll: int) { roll <= 5 }
  predicate CriticalSuccess(roll: int) { roll >= 16 }

  /**
   * Against the default difficulty a check succeeds from 15 up, so every
   * critical success succeeds and every critical failure fails.
   */
  lemma DefaultDifficultyBands(o: Reply, roll: int)
    requires o.difficulty.None?
    ensures Succeeds(roll, Difficulty(o)) <==> roll >= 15
    ensures CriticalSuccess(roll) ==> Succeeds(roll, Difficulty(o))
    ensures CriticalFailure(roll) ==> !Succeeds(roll, Difficulty(o))
  {
  }

  /** The new value of one numeric delta under the roll's band. */
  function AmplifyValue(st: Stat, v: int, roll: int): (r: int)
    ensures v <= 0 ==> r == v
    ensures CriticalFailure(roll) ==> r == if st in {Health, Mana} && v > 0 then -v else v
    ensures CriticalSuccess(roll) && st in {Health, Mana, Gold} && v > 0 ==> 2 * r <= 3 * v < 2 * r + 2
    ensures CriticalSuccess(roll) && st !in {Health, Mana, Gold} ==> r == v
    ensures !CriticalFailure(roll) && !CriticalSuccess(roll) ==> r == v
  {
    if CriticalFailure(roll) && st in {Health, Mana} && v > 0 then -v
    else if CriticalSuccess(roll) && st in {Health, Mana, Gold} && v > 0 then (3 * v) / 2
    else v
  }

  /**
   * Critical amplification of an effect record: on a roll of at most 5 each
   * positive health or mana delta is negated; on a roll of at least 16 each
   * positive health, mana or gold delta v becomes the integer part of 1.5 v.
   * Every other key keeps its value.
   */
  function Amplify(d: Delta, roll: int): (r: Delta)
    ensures r.changes.Keys == d.changes.Keys
    ensures forall k :: k in d.changes ==> r.changes[k] == AmplifyValue(k, d.changes[k], roll)
    ensures r.(changes := d.changes) == d
    ensures !CriticalFailure(roll) && !CriticalSuccess(roll) ==> r == d
  {
    var m := map k | k in d.changes :: AmplifyValue(k, d.changes[k], roll);
    assert !CriticalFailure(roll) && !CriticalSuccess(roll) ==> m == d.changes;
    d.(changes := m)
  }

  /** The amplification loop, which rewrites the effect record key by key. */
  method AmplifyEffects(d: Delta, roll: int) returns (r: Delta)
    ensures r == Amplify(d, roll)
  {
    r := d;
    if !(CriticalFailure(roll) || CriticalSuccess(roll)) || d.changes == map[] {
      return;
    }
    var i := 0;
    while i < |AllStats|
      invariant 0 <= i <= |AllStats|
      invariant r.(changes := d.changes) == d
      invariant r.changes.Keys == d.changes.Keys
      invariant forall j :: 0 <= j < i && AllStats[j] in d.changes ==>
                  r.changes[AllStats[j]] == AmplifyValue(AllStats[j], d.changes[AllStats[j]], roll)
      invariant forall j :: i <= j < |AllStats| && AllStats[j] in d.changes ==>
                  r.changes[AllStats[j]] == d.changes[AllStats[j]]
    {
      var k := AllStats[i];
      if k in r.changes {
        r := r.(changes := r.changes[k := AmplifyValue(k, r.changes[k], roll)]);
      }
      i := i + 1;
    }
    forall k | k in d.changes
      ensures r.changes[k] == AmplifyValue(k, d.changes[k], roll)
    {
      AllStatsComplete(k);
      var j :| 0 <= j < |AllStats| && AllStats[j] == k;
    }
    assert r.changes == Amplify(d, roll).changes;
  }

  /** The narration text the engine picks, with its documented defaults. */
  function SuccessText(o: Reply): string { o.successOutcome.GetOr("你成功了！") }
  function FailureText(o: Reply): string { o.failureOutcome.GetOr("你失败了。") }
  function DirectText(o: Reply): string { o.directOutcome.GetOr("你尝试了这个行动。") }

  /** The tagged outcome of a checked action. */
  function Outcome(o: Reply, roll: int): string {
    if Succeeds(roll, Difficulty(o)) then "成功: " + SuccessText(o) else "失败: " + FailureText(o)
  }

  /**
   * The history text of a checked action: the description, the roll against
   * the difficulty, and the tagged outcome.
   */
  function RollStory(o: Reply, roll: int): (r: string)
    ensures o.description.GetOr("") <= r
    ensures EndsWith(r, Outcome(o, roll))
    ensures |o.description.GetOr("")| + |Outcome(o, roll)| <= |r|
    ensures r[|o.description.GetOr("")|..|r| - |Outcome(o, roll)|]
            == " [骰子: " + ShowInt(roll) + "/" + ShowInt(Difficulty(o)) + "] "
  {
    var p := o.description.GetOr("");
    var m := " [骰子: " + ShowInt(roll) + "/" + ShowInt(Difficulty(o)) + "] ";
    var q := Outcome(o, roll);
    assert (p + m + q)[|p|..|p + m + q| - |q|] == m;
    assert (p + m + q)[|p + m + q| - |q|..] == q;
    p + m + q
  }

  /** Whether the reply asks for a check (`needs_roll` is true). */
  predicate NeedsRoll(o: Reply) {
    o.needsRoll == Some(true)
  }

  /** The effect record the reply proposes, `{}` when it has none. */
  function Proposed(o: Reply): Delta {
    o.effects.GetOr(NoEffects)
  }

  /**
   * The effect record the engine finally applies: the proposed one, with
   * the numeric deltas of a checked action amplified by the roll's band.
   */
  function FinalEffects(o: Reply, roll: int): (d: Delta)
    ensures !NeedsRoll(o) || (!CriticalFailure(roll) && !CriticalSuccess(roll)) ==> d == Proposed(o)
    ensures d.changes.Keys == Proposed(o).changes.Keys
    ensures d.(changes := Proposed(o).changes) == Proposed(o)
    ensures NeedsRoll(o) ==>
              forall k :: k in Proposed(o).changes ==> d.changes[k] == AmplifyValue(k, Proposed(o).changes[k], roll)
    ensures NeedsRoll(o) && CriticalFailure(roll) ==>
              forall k :: k in d.changes && k in {Health, Mana} ==> d.changes[k] <= 0
    ensures NeedsRoll(o) && CriticalSuccess(roll) ==>
              forall k :: k in d.changes ==> d.changes[k] >= Proposed(o).changes[k]
  {
    var e := Proposed(o);
    if NeedsRoll(o) then Amplify(e, roll) else e
  }

  /** The history entry of the turn. */
  function StoryEntry(action: string, o: Reply, roll: int): (e: Entry)
    ensures e.action == action
    ensures !NeedsRoll(o) ==> e.response == DirectText(o)
    ensures NeedsRoll(o) ==> o.description.GetOr("") <= e.response && EndsWith(e.response, Outcome(o, roll))
  {
    Entry(action, if NeedsRoll(o) then RollStory(o, roll) else DirectText(o))
  }

  /**
   * The state after an interpreted reply is resolved: the final effects are
   * applied and one history entry is recorded.
   */
  function Resolve(s: Snapshot, action: string, o: Reply, roll: int): (r: Snapshot)
    ensures Valid(s) ==> Valid(r)
    ensures r.storyHistory == History.Record(s.storyHistory, StoryEntry(action, o, roll))
    ensures r.(storyHistory := s.storyHistory) == Apply(s, FinalEffects(o, roll))
  {
    var t := Apply(s, FinalEffects(o, roll));
    t.(storyHistory := History.Record(t.storyHistory, StoryEntry(action, o, roll)))
  }

  /** The documented critical failure example: a +20 health reward becomes -20. */
  lemma CriticalFailureExample(d: Delta)
    requires d.changes == map[Health := 20]
    ensures Amplify(d, 3).changes == map[Health := -20]
  {
    assert Amplify(d, 3).changes[Health] == -20;
  }

  /** The documented critical success example: +10 gold becomes +15. */
  lemma CriticalSuccessExample(d: Delta)
    requires d.changes == map[Gold := 10]
    ensures Amplify(d, 18).changes == map[Gold := 15]
  {
    assert Amplify(d, 18).changes[Gold] == 15;
  }
}
