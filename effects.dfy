/**
 * The effect applicator (`apply_effects`, main.py:309-380): a delta record
 * and the state it produces.
 */
module Effects {
  import opened Wrappers
  import opened Lists
  import opened State

  /**
   * An effect record. `changes` holds the numeric keys that are present
   * (an absent key means "no change", not zero); a list key that is absent
   * is the empty list; the two `Option` fields replace the location and the
   * environment description when present.
   */
  datatype Delta = Delta(
    changes: map<Stat, int>,
    addItems: seq<string>, removeItems: seq<string>,
    locationChange: Option<string>, environmentChange: Option<string>,
    addEnemies: seq<string>, removeEnemies: seq<string>)

  /** The empty effect record `{}`. */
  const NoEffects: Delta := Delta(map[], [], [], None, None, [], [])

  function Max(a: int, b: int): int { if a < b then b else a }
  function Min(a: int, b: int): int { if a < b then a else b }

  /**
   * The clamp policy of each field: health and mana to [0, max], the three
   * attributes to at least 1, gold to at least 0.
   */
  function Bounded(s: Snapshot, st: Stat, v: int): (r: int)
    ensures InBounds(s, st, v) ==> r == v
    ensures (st == Health ==> s.maxHealth >= 0) && (st == Mana ==> s.maxMana >= 0) ==> InBounds(s, st, r)
    ensures v < Floor(st) ==> r == Floor(st)
    ensures st == Health && v > s.maxHealth ==> r == Max(0, s.maxHealth)
    ensures st == Mana && v > s.maxMana ==> r == Max(0, s.maxMana)
  {
    match st
    case Health => Max(0, Min(s.maxHealth, v))
    case Mana => Max(0, Min(s.maxMana, v))
    case Gold => Max(0, v)
    case _ => Max(1, v)
  }

  /** The lowest value the clamp allows: 0 for health, mana and gold, 1 for the three attributes. */
  function Floor(st: Stat): int {
    if st in {Health, Mana, Gold} then 0 else 1
  }

  /** The new value of one numeric field: a present, non-zero change is added and clamped. */
  function NewStat(s: Snapshot, st: Stat, d: Delta): (r: int)
    ensures st !in d.changes || d.changes[st] == 0 ==> r == StatOf(s, st)
    ensures st in d.changes && d.changes[st] != 0 ==> r == Bounded(s, st, StatOf(s, st) + d.changes[st])
    ensures Valid(s) ==> InBounds(s, st, r)
  {
    ValidBounds(s);
    if st in d.changes && d.changes[st] != 0 then Bounded(s, st, StatOf(s, st) + d.changes[st])
    else StatOf(s, st)
  }

  /** The numeric fields after visiting the keys `ks` in order. */
  function StatsDone(s: Snapshot, d: Delta, ks: seq<Stat>): (r: Snapshot)
    decreases |ks|
    ensures Rest(r) == Rest(s)
  {
    if ks == [] then s
    else
      var t := StatsDone(s, d, ks[..|ks| - 1]);
      var k := ks[|ks| - 1];
      WithStat(t, k, NewStat(t, k, d))
  }

  /** Visiting distinct keys sets each visited field once, from its original value. */
  lemma {:induction false} StatsDoneEach(s: Snapshot, d: Delta, ks: seq<Stat>)
    requires NoDup(ks)
    ensures forall st :: StatOf(StatsDone(s, d, ks), st) == if st in ks then NewStat(s, st, d) else StatOf(s, st)
    decreases |ks|
  {
    if ks != [] {
      var front := ks[..|ks| - 1];
      var k := ks[|ks| - 1];
      assert NoDup(front);
      assert k !in front;
      assert ks == front + [k];
      StatsDoneEach(s, d, front);
      var t := StatsDone(s, d, front);
      assert StatOf(t, k) == StatOf(s, k);
      assert t.maxHealth == s.maxHealth && t.maxMana == s.maxMana by {
        assert Rest(t) == Rest(s);
      }
      assert NewStat(t, k, d) == NewStat(s, k, d);
    }
  }

  /** The state after `apply_effects(d)`. */
  function Apply(s: Snapshot, d: Delta): (r: Snapshot)
    ensures forall st :: StatOf(r, st) == NewStat(s, st, d)
    ensures r.inventory == RemoveEach(s.inventory + d.addItems, d.removeItems)
    ensures r.enemies == RemoveEach(AddUnique(s.enemies, d.addEnemies), d.removeEnemies)
    ensures r.location == d.locationChange.GetOr(s.location)
    ensures r.environment == d.environmentChange.GetOr(s.environment)
    ensures r.(inventory := s.inventory, location := s.location, environment := s.environment,
               enemies := s.enemies, health := s.health, mana := s.mana, strength := s.strength,
               agility := s.agility, intelligence := s.intelligence, gold := s.gold) == s
    ensures Valid(s) ==> Valid(r)
  {
    var t := StatsDone(s, d, AllStats);
    assert Rest(t) == Rest(s);
    StatsDoneEach(s, d, AllStats);
    forall st ensures st in AllStats {
      AllStatsComplete(st);
    }
    var r := t.(inventory := RemoveEach(t.inventory + d.addItems, d.removeItems),
                location := d.locationChange.GetOr(t.location),
                environment := d.environmentChange.GetOr(t.environment),
                enemies := RemoveEach(AddUnique(t.enemies, d.addEnemies), d.removeEnemies));
    ValidBounds(s);
    ValidBounds(r);
    r
  }

  /** The empty effect record changes nothing. */
  lemma ApplyNothing(s: Snapshot)
    ensures Apply(s, NoEffects) == s
  {
    var r := Apply(s, NoEffects);
    assert r.inventory == s.inventory by {
      assert s.inventory + [] == s.inventory;
    }
    assert r.enemies == s.enemies;
    forall st: Stat ensures StatOf(r, st) == StatOf(s, st) { }
    assert r.health == StatOf(r, Health) && r.mana == StatOf(r, Mana) && r.strength == StatOf(r, Strength);
    assert r.agility == StatOf(r, Agility) && r.intelligence == StatOf(r, Intelligence) && r.gold == StatOf(r, Gold);
  }

  /** A full-health hero of 100/100 drops to 0 on a change of -150 and stays at 100 on +999. */
  lemma HealthClampExamples(s: Snapshot)
    requires s.health == 100 && s.maxHealth == 100
    ensures Apply(s, NoEffects.(changes := map[Health := -150])).health == 0
    ensures Apply(s, NoEffects.(changes := map[Health := 999])).health == 100
  {
    assert StatOf(Apply(s, NoEffects.(changes := map[Health := -150])), Health) == 0;
    assert StatOf(Apply(s, NoEffects.(changes := map[Health := 999])), Health) == 100;
  }

  /**
   * The inventory gains one copy of each added name and loses one copy of
   * each removed name it holds.
   */
  lemma InventoryCount(s: Snapshot, d: Delta)
    ensures multiset(Apply(s, d).inventory) == multiset(s.inventory) + multiset(d.addItems) - multiset(d.removeItems)
  {
    RemoveEachCount(s.inventory + d.addItems, d.removeItems);
  }

  /** Removing names the inventory does not hold is a no-op: only the appended items remain new. */
  lemma RemoveAbsentItems(s: Snapshot, d: Delta)
    requires forall n :: n in d.removeItems ==> n !in s.inventory + d.addItems
    ensures Apply(s, d).inventory == s.inventory + d.addItems
  {
    RemoveEachAbsent(s.inventory + d.addItems, d.removeItems);
  }

  /**
   * In a state without duplicate enemies, an enemy is listed afterwards
   * exactly when it was listed or added, and was not removed.
   */
  lemma EnemyMembership(s: Snapshot, d: Delta, y: string)
    requires NoDup(s.enemies)
    ensures y in Apply(s, d).enemies <==> (y in s.enemies || y in d.addEnemies) && y !in d.removeEnemies
  {
    RemoveEachMembership(AddUnique(s.enemies, d.addEnemies), d.removeEnemies, y);
  }

  /** An effect that only adds enemies has no further effect the second time. */
  lemma AddEnemiesIdempotent(s: Snapshot, names: seq<string>)
    ensures var d := NoEffects.(addEnemies := names);
            Apply(Apply(s, d), d) == Apply(s, d)
  {
    var d := NoEffects.(addEnemies := names);
    var t := Apply(s, d);
    var u := Apply(t, d);
    AddUniqueIdempotent(s.enemies, names);
    assert t.inventory == s.inventory && u.inventory == t.inventory;
    assert u.enemies == t.enemies;
    forall st: Stat ensures StatOf(u, st) == StatOf(t, st) { }
    assert u.health == StatOf(u, Health) && u.mana == StatOf(u, Mana) && u.strength == StatOf(u, Strength);
    assert u.agility == StatOf(u, Agility) && u.intelligence == StatOf(u, Intelligence) && u.gold == StatOf(u, Gold);
  }
}
