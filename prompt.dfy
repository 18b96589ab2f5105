/**
 * The prompt builder (`create_dm_prompt`, main.py:201-268): the message
 * list sent to the narrator for one action.
 */
module Prompt {
  import opened Text
  import opened State

  datatype Role = System | User | Assistant

  datatype Message = Message(role: Role, content: string)

  /** The instructions in front of the state description. */
  const Preamble: string :=
    Join([
      "你是一个专业的地下城主(DM)，负责运行一个文字冒险游戏。你的任务是：\n",
      "\n",
      "1. 根据玩家的行动，生成生动、有创意、符合奇幻世界观的故事情节\n",
      "2. 决定是否需要进行骰子检定，以及检定的难度(1-20)\n",
      "3. 根据行动结果，决定对角色属性的影响\n",
      "4. 推进故事情节，保持游戏的趣味性和挑战性\n",
      "5. 营造沉浸式的奇幻冒险氛围\n",
      "\n",
      "当前游戏状态：\n"], "")

  /** The game rules and the reply format after the state description. */
  const Directive: string :=
    Join([
      "\n",
      "游戏规则：\n",
      "- 骰子检定：1-5(大失败), 6-10(失败), 11-15(成功), 16-20(大成功)\n",
      "- 简单行动难度10-12，一般行动难度13-15，困难行动难度16-18，极难行动难度19-20\n",
      "- 角色死亡时生命值降到0，但可以复活继续冒险\n",
      "\n",
      "请严格按照以下JSON格式回复：\n",
      "{\n",
      "    \"needs_roll\": true/false,\n",
      "    \"difficulty\": 数字(1-20, 仅当needs_roll为true时),\n",
      "    \"description\": \"对玩家行动的生动描述和情境设定\",\n",
      "    \"success_outcome\": \"成功时的结果描述(仅当needs_roll为true时)\",\n",
      "    \"failure_outcome\": \"失败时的结果描述(仅当needs_roll为true时)\", \n",
      "    \"direct_outcome\": \"直接结果描述(仅当needs_roll为false时)\",\n",
      "    \"effects\": {\n",
      "        \"health\": 数字变化,\n",
      "        \"mana\": 数字变化,\n",
      "        \"gold\": 数字变化,\n",
      "        \"strength\": 属性变化,\n",
      "        \"agility\": 属性变化,\n",
      "        \"intelligence\": 属性变化,\n",
      "        \"add_items\": [\"物品名1\", \"物品名2\"],\n",
      "        \"remove_items\": [\"物品名1\", \"物品名2\"],\n",
      "        \"location_change\": \"新地点名称(可选)\",\n",
      "        \"environment_change\": \"新环境描述(可选)\",\n",
      "        \"add_enemies\": [\"敌人名1\", \"敌人名2\"],\n",
      "        \"remove_enemies\": [\"敌人名1\", \"敌人名2\"]\n",
      "    }\n",
      "}\n",
      "\n",
      "注意：请确保回复是合法的JSON格式，数字不要加引号。故事要生动有趣，富有想象力，符合奇幻冒险的氛围。"], "")

  /** How a list is shown in the prompt: comma separated, or "无" when empty. */
  function Listing(xs: seq<string>): string {
    if xs == [] then "无" else Join(xs, ", ")
  }

  /** The live state interpolated into the system message. */
  function StateLines(s: Snapshot): string {
    Join([
      "- 角色: " + s.characterName + " (" + s.characterClass + ")\n",
      "- 生命值: " + ShowInt(s.health) + "/" + ShowInt(s.maxHealth) + "\n",
      "- 法力值: " + ShowInt(s.mana) + "/" + ShowInt(s.maxMana) + "\n",
      "- 力量: " + ShowInt(s.strength) + ", 敏捷: " + ShowInt(s.agility) + ", 智力: " + ShowInt(s.intelligence) + "\n",
      "- 金币: " + ShowInt(s.gold) + "\n",
      "- 当前位置: " + s.location + "\n",
      "- 环境描述: " + s.environment + "\n",
      "- 背包物品: " + Listing(s.inventory) + "\n",
      "- 当前敌人: " + Listing(s.enemies) + "\n",
      "- 天气: " + s.weather + ", 时间: " + s.timeOfDay + "\n"], "")
  }

  /** The system message: the instructions, the live state, then the rules and the reply format. */
  function SystemPrompt(s: Snapshot): (r: string)
    ensures Preamble <= r && EndsWith(r, Directive)
    ensures |Preamble| + |Directive| <= |r| && r[|Preamble|..|r| - |Directive|] == StateLines(s)
  {
    Framed(Preamble, StateLines(s), Directive)
  }

  /** A text between a fixed head and a fixed tail, from which the middle can be cut back out. */
  function Framed(p: string, m: string, q: string): (r: string)
    ensures p <= r && EndsWith(r, q)
    ensures |p| + |q| <= |r| && r[|p|..|r| - |q|] == m
  {
    assert (p + m + q)[|p + m + q| - |q|..] == q;
    p + m + q
  }

  /** How an action is put to the narrator. */
  function ActionLine(action: string): string {
    "玩家行动: " + action
  }

  /** The at most three most recent history entries, oldest first. */
  function Recent(h: seq<Entry>): (r: seq<Entry>)
    ensures |r| == if |h| < 3 then |h| else 3
    ensures r == h[|h| - |r|..]
  {
    if |h| <= 3 then h else h[|h| - 3..]
  }

  /** Each entry as a user turn (its action) followed by an assistant turn (its response). */
  function Exchanges(es: seq<Entry>): (r: seq<Message>)
    ensures |r| == 2 * |es|
    ensures forall i :: 0 <= i < |es| ==>
              r[2 * i] == Message(User, ActionLine(es[i].action)) && r[2 * i + 1] == Message(Assistant, es[i].response)
  {
    if es == [] then []
    else
      var front := Exchanges(es[..|es| - 1]);
      var e := es[|es| - 1];
      assert forall i :: 0 <= i < |es| - 1 ==> es[..|es| - 1][i] == es[i];
      front + [Message(User, ActionLine(e.action)), Message(Assistant, e.response)]
  }

  /** The system message, the exchanges in history order, then the action. */
  function Assemble(system: string, recent: seq<Entry>, action: string): (r: seq<Message>)
    ensures |r| == 2 * |recent| + 2
    ensures r[0] == Message(System, system)
    ensures r[|r| - 1] == Message(User, ActionLine(action))
    ensures forall i :: 0 <= i < |recent| ==>
              r[2 * i + 1] == Message(User, ActionLine(recent[i].action))
              && r[2 * i + 2] == Message(Assistant, recent[i].response)
  {
    [Message(System, system)] + Exchanges(recent) + [Message(User, ActionLine(action))]
  }

  /**
   * The messages for one action: the system message describing the current
   * state, then the at most three most recent exchanges, then the action.
   */
  function CreatePrompt(s: Snapshot, action: string): (r: seq<Message>)
    ensures |r| == 2 * |Recent(s.storyHistory)| + 2
    ensures r[0] == Message(System, SystemPrompt(s))
    ensures r[|r| - 1] == Message(User, ActionLine(action))
    ensures forall i :: 0 <= i < |Recent(s.storyHistory)| ==>
              r[2 * i + 1] == Message(User, ActionLine(Recent(s.storyHistory)[i].action))
              && r[2 * i + 2] == Message(Assistant, Recent(s.storyHistory)[i].response)
  {
    Assemble(SystemPrompt(s), Recent(s.storyHistory), action)
  }

  /**
   * Roles alternate: one system message, then user and assistant in turn,
   * and the action closes the list as a user message.
   */
  lemma AssembleRoles(system: string, recent: seq<Entry>, action: string)
    ensures var r := Assemble(system, recent, action);
            forall j :: 0 < j < |r| ==> r[j].role == if j % 2 == 1 then User else Assistant
  {
    var r := Assemble(system, recent, action);
    forall j | 0 < j < |r|
      ensures r[j].role == if j % 2 == 1 then User else Assistant
    {
      if j == |r| - 1 {
        assert j == 2 * |recent| + 1;
      } else if j % 2 == 1 {
        var i := (j - 1) / 2;
        assert j == 2 * i + 1 && 0 <= i < |recent|;
        assert r[2 * i + 1] == Message(User, ActionLine(recent[i].action));
      } else {
        var i := (j - 2) / 2;
        assert j == 2 * i + 2 && 0 <= i < |recent|;
        assert r[2 * i + 2] == Message(Assistant, recent[i].response);
      }
    }
  }

  /** The prompt for any state has the alternating role layout. */
  lemma PromptRoles(s: Snapshot, action: string)
    ensures var r := CreatePrompt(s, action);
            r[0].role == System && forall j :: 0 < j < |r| ==> r[j].role == if j % 2 == 1 then User else Assistant
  {
    AssembleRoles(SystemPrompt(s), Recent(s.storyHistory), action);
  }
}
