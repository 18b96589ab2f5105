/** The character-creation table (`setup_character`, main.py:527-562), with the typed answers as parameters. */
module Setup {
  import opened Text
  import opened State

  /**
   * The state after character creation: a non-blank name replaces the
   * default, and the class choice "2" (mage) or "3" (rogue) sets that class's
   * numbers and starting items; any other answer makes a warrior.
   */
  function Choose(s: Snapshot, name: string, choice: string): (r: Snapshot)
    ensures r.characterName == if Strip(name) == "" then s.characterName else Strip(name)
    ensures r.characterClass in {"战士", "法师", "盗贼"}
    ensures s.inventory < r.inventory
    ensures Valid(s) ==> Valid(r)
    ensures Strip(choice) == "2" ==>
              r == s.(characterName := r.characterName, characterClass := "法师", mana := 80, maxMana := 80,
                      intelligence := 16, inventory := s.inventory + ["魔法书", "魔法护符"])
    ensures Strip(choice) == "3" ==>
              r == s.(characterName := r.characterName, characterClass := "盗贼", agility := 18, gold := 100,
                      inventory := s.inventory + ["开锁工具", "毒匕首"])
    ensures Strip(choice) !in {"2", "3"} ==>
              r == s.(characterName := r.characterName, characterClass := "战士", health := 120, maxHealth := 120,
                      strength := 16, inventory := s.inventory + ["铁盾"])
  {
    Classed(Named(s, name), choice)
  }

  /** The name answer: blank keeps the default. */
  function Named(s: Snapshot, name: string): Snapshot {
    if Strip(name) != "" then s.(characterName := Strip(name)) else s
  }

  /** The class answer: "2" is a mage, "3" a rogue, anything else a warrior. */
  function Classed(s: Snapshot, choice: string): Snapshot {
    var c := Strip(choice);
    if c == "2" then
      s.(characterClass := "法师", mana := 80, maxMana := 80, intelligence := 16,
         inventory := s.inventory + ["魔法书", "魔法护符"])
    else if c == "3" then
      s.(characterClass := "盗贼", agility := 18, gold := 100, inventory := s.inventory + ["开锁工具", "毒匕首"])
    else
      s.(characterClass := "战士", health := 120, maxHealth := 120, strength := 16,
         inventory := s.inventory + ["铁盾"])
  }
}
