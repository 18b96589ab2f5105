/**
 * The fallback resolver (`fallback_process_action`, main.py:476-525): keyword
 * classification of the action and a fixed state change per class, with the
 * die roll and the random pick as parameters.
 */
module Fallback {
  import opened Text
  import opened Lists
  import opened State
  import opened Effects

  datatype Kind = Attack | Search | Potion | Other

  const AttackWords: seq<string> := ["攻击", "打", "杀", "战斗"]
  const SearchWords: seq<string> := ["搜索", "寻找", "查看"]
  const HealingPotion: string := "治疗药水"

  /** The items a successful search can turn up. */
  const SearchFinds: seq<string> := ["神秘药水", "古老钥匙", "闪亮宝石", "魔法卷轴"]

  const AttackDifficulty: int := 12
  const SearchDifficulty: int := 10
  const AttackReward: int := 15
  const CounterDamage: int := 10
  const PotionHeal: int := 30

  /** Some keyword occurs in the action (Python's `any(word in action for word in words)`). */
  predicate Mentions(action: string, words: seq<string>) {
    exists i :: 0 <= i < |words| && Contains(action, words[i])
  }

  /**
   * The first class whose keywords the action mentions, tried in the order
   * attack, search, healing potion.
   */
  function Classify(action: string): (k: Kind)
    ensures k == Attack <==> Mentions(action, AttackWords)
    ensures k == Search <==> !Mentions(action, AttackWords) && Mentions(action, SearchWords)
    ensures k == Potion <==>
              !Mentions(action, AttackWords) && !Mentions(action, SearchWords) && Contains(action, HealingPotion)
  {
    if Mentions(action, AttackWords) then Attack
    else if Mentions(action, SearchWords) then Search
    else if Contains(action, HealingPotion) then Potion
    else Other
  }

  /**
   * The state after the fallback resolver handles `action`. `pick` is the
   * index `random.choice` draws from `SearchFinds`.
   */
  function Respond(s: Snapshot, action: string, roll: int, pick: nat): (r: Snapshot)
    requires pick < |SearchFinds|
    ensures Valid(s) ==> Valid(r)
    ensures r.storyHistory == s.storyHistory && r.turn == s.turn && r.lastAction == s.lastAction
    ensures Classify(action) == Attack && roll >= AttackDifficulty ==>
              r == s.(gold := s.gold + AttackReward, enemies := r.enemies)
              && r.enemies == (if s.enemies == [] then [] else s.enemies[1..])
    ensures Classify(action) == Attack && roll < AttackDifficulty ==>
              r == s.(health := r.health) && r.health == Max(0, s.health - CounterDamage)
    ensures Classify(action) == Search ==>
              r == s.(inventory := r.inventory)
              && r.inventory == (if roll >= SearchDifficulty then s.inventory + [SearchFinds[pick]] else s.inventory)
    ensures Classify(action) == Potion && HealingPotion in s.inventory ==>
              r == s.(health := r.health, inventory := r.inventory)
              && r.health == Min(s.maxHealth, s.health + PotionHeal)
              && r.inventory == RemoveFirst(s.inventory, HealingPotion)
              && multiset(r.inventory) == multiset(s.inventory) - multiset{HealingPotion}
    ensures Classify(action) == Potion && HealingPotion !in s.inventory ==> r == s
    ensures Classify(action) == Other ==> r == s
  {
    match Classify(action)
    case Attack => Strike(s, roll)
    case Search => Forage(s, roll, pick)
    case Potion => Drink(s)
    case Other => s
  }

  /** An attack: a hit earns gold and defeats the first enemy; a miss costs health. */
  function Strike(s: Snapshot, roll: int): (r: Snapshot)
    ensures Valid(s) ==> Valid(r)
  {
    if roll >= AttackDifficulty then
      var rest := if s.enemies == [] then [] else s.enemies[1..];
      assert NoDup(s.enemies) ==> NoDup(rest);
      s.(gold := s.gold + AttackReward, enemies := rest)
    else
      s.(health := Max(0, s.health - CounterDamage))
  }

  /** A search: a success adds the drawn find to the inventory. */
  function Forage(s: Snapshot, roll: int, pick: nat): (r: Snapshot)
    requires pick < |SearchFinds|
    ensures roll >= SearchDifficulty ==> r.inventory == s.inventory + [SearchFinds[pick]]
    ensures roll < SearchDifficulty ==> r == s
    ensures r.(inventory := s.inventory) == s
    ensures Valid(s) ==> Valid(r)
  {
    if roll >= SearchDifficulty then s.(inventory := s.inventory + [SearchFinds[pick]]) else s
  }

  /** Drinking a healing potion, if one is carried. */
  function Drink(s: Snapshot): (r: Snapshot)
    ensures HealingPotion in s.inventory ==>
              r.health == Min(s.maxHealth, s.health + PotionHeal)
              && r.inventory == RemoveFirst(s.inventory, HealingPotion)
              && |r.inventory| == |s.inventory| - 1
    ensures HealingPotion !in s.inventory ==> r == s
    ensures r.(health := s.health, inventory := s.inventory) == s
    ensures Valid(s) ==> Valid(r)
  {
    if HealingPotion in s.inventory then
      s.(health := Min(s.maxHealth, s.health + PotionHeal), inventory := RemoveFirst(s.inventory, HealingPotion))
    else s
  }
}
