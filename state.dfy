/**
 * The game state record (`GameState` in main.py) as a value, with the
 * invariants every turn keeps.
 */
module State {
  import opened Wrappers
  import opened Lists

  /** The six numeric fields an effect can change. */
  datatype Stat = Health | Mana | Strength | Agility | Intelligence | Gold

  /** The numeric fields in the order the effect applicator visits them. */
  const AllStats: seq<Stat> := [Health, Mana, Strength, Agility, Intelligence, Gold]

  /** Every numeric field is visited, once. */
  lemma AllStatsComplete(st: Stat)
    ensures st in AllStats && NoDup(AllStats)
  {
    match st
    case Health => assert AllStats[0] == st;
    case Mana => assert AllStats[1] == st;
    case Strength => assert AllStats[2] == st;
    case Agility => assert AllStats[3] == st;
    case Intelligence => assert AllStats[4] == st;
    case Gold => assert AllStats[5] == st;
  }

  /** One story-history record: what the player did and how it was narrated. */
  datatype Entry = Entry(action: string, response: string)

  /** Every field of the game state the turn logic reads or writes. */
  datatype Snapshot = Snapshot(
    health: int, maxHealth: int, mana: int, maxMana: int,
    strength: int, agility: int, intelligence: int, gold: int,
    inventory: seq<string>,
    location: string, environment: string,
    enemies: seq<string>,
    turn: int, lastAction: Option<string>,
    storyHistory: seq<Entry>,
    characterName: string, characterClass: string,
    weather: string, timeOfDay: string)

  function StatOf(s: Snapshot, st: Stat): int {
    match st
    case Health => s.health
    case Mana => s.mana
    case Strength => s.strength
    case Agility => s.agility
    case Intelligence => s.intelligence
    case Gold => s.gold
  }

  /** The numeric part of `Valid`, field by field. */
  lemma ValidBounds(s: Snapshot)
    ensures Valid(s) <==> (forall st :: InBounds(s, st, StatOf(s, st))) && NoDup(s.enemies)
                          && |s.storyHistory| <= 15 && s.turn >= 0
  {
    if (forall st :: InBounds(s, st, StatOf(s, st))) {
      assert InBounds(s, Health, StatOf(s, Health)) && InBounds(s, Mana, StatOf(s, Mana));
      assert InBounds(s, Strength, StatOf(s, Strength)) && InBounds(s, Agility, StatOf(s, Agility));
      assert InBounds(s, Intelligence, StatOf(s, Intelligence)) && InBounds(s, Gold, StatOf(s, Gold));
    }
  }

  /** Everything but the six numeric fields. */
  function Rest(s: Snapshot): Snapshot {
    s.(health := 0, mana := 0, strength := 0, agility := 0, intelligence := 0, gold := 0)
  }

  /** `s` with one numeric field replaced. */
  function WithStat(s: Snapshot, st: Stat, v: int): (r: Snapshot)
    ensures StatOf(r, st) == v
    ensures forall other :: other != st ==> StatOf(r, other) == StatOf(s, other)
    ensures Rest(r) == Rest(s)
  {
    match st
    case Health => s.(health := v)
    case Mana => s.(mana := v)
    case Strength => s.(strength := v)
    case Agility => s.(agility := v)
    case Intelligence => s.(intelligence := v)
    case Gold => s.(gold := v)
  }

  /** The range each numeric field is kept in. */
  predicate InBounds(s: Snapshot, st: Stat, v: int) {
    match st
    case Health => 0 <= v <= s.maxHealth
    case Mana => 0 <= v <= s.maxMana
    case Gold => 0 <= v
    case _ => 1 <= v
  }

  /**
   * The invariants of the game state: vitals within [0, max], attributes at
   * least 1, gold not negative, no enemy listed twice, at most 15 history
   * entries, and a turn counter that has not gone below its start.
   */
  predicate Valid(s: Snapshot) {
    && 0 <= s.health <= s.maxHealth
    && 0 <= s.mana <= s.maxMana
    && s.strength >= 1 && s.agility >= 1 && s.intelligence >= 1
    && s.gold >= 0
    && NoDup(s.enemies)
    && |s.storyHistory| <= 15
    && s.turn >= 0
  }

  /** The state a new game starts in (main.py:24-48). */
  const Initial: Snapshot := Snapshot(
    100, 100, 50, 50,
    12, 14, 13, 50,
    ["生锈的短剑", "皮革护甲", "治疗药水", "火把"],
    "神秘森林的边缘",
    "一片古老而神秘的森林，高大的橡树遮天蔽日，地面上铺满了厚厚的落叶。远处传来未知生物的嚎叫声。",
    [],
    0, None,
    [],
    "冒险者", "战士",
    "晴朗", "下午")
}
