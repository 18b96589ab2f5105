/** The classification of an input line in the main loop (main.py:685-721). */
module Commands {
  import opened Text

  datatype Command =
    | Blank
    | Quit
    | Help
    | ShowStatus
    | ShowInventory
    | ShowStory
    | RollDie
    | Act(action: string)

  /** The reserved commands; each bypasses turn resolution. */
  const Reserved: seq<string> := ["/quit", "/help", "/status", "/inventory", "/story", "/roll"]

  function Lookup(key: string): Command
    requires key in Reserved
  {
    if key == "/quit" then Quit
    else if key == "/help" then Help
    else if key == "/status" then ShowStatus
    else if key == "/inventory" then ShowInventory
    else if key == "/story" then ShowStory
    else RollDie
  }

  /**
   * What the loop does with a line: nothing for a blank line, the named
   * command when the stripped line is a reserved command in any letter
   * case, and otherwise a player action carrying the stripped line.
   */
  function Dispatch(line: string): (c: Command)
    ensures c == Blank <==> Strip(line) == ""
    ensures c.Act? <==> Strip(line) != "" && AsciiLower(Strip(line)) !in Reserved
    ensures c.Act? ==> c.action == Strip(line)
    ensures !c.Act? && c != Blank ==> c == Lookup(AsciiLower(Strip(line)))
  {
    var a := Strip(line);
    var key := AsciiLower(a);
    if a == "" then Blank
    else if key in Reserved then
      assert key != "" by { assert |key| == |a|; }
      Lookup(key)
    else Act(a)
  }
}
