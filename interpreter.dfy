/**
 * The response interpreter (`parse_deepseek_response`, main.py:270-307):
 * from the narrator's raw text to a reply record whose `needs_roll` and
 * `effects` keys are always present.
 */
module Interpreter {
  import opened Wrappers
  import opened Text
  import opened Effects

  /**
   * A decoded reply. Each field is one key of the JSON object the narrator
   * is asked for; `None` means the key is absent.
   */
  datatype Reply = Reply(
    needsRoll: Option<bool>,
    difficulty: Option<int>,
    description: Option<string>,
    successOutcome: Option<string>,
    failureOutcome: Option<string>,
    directOutcome: Option<string>,
    effects: Option<Delta>)

  const OpenFence: string := "```json"
  const CloseFence: string := "```"

  /** Strips whitespace, then a leading "```json", then a trailing "```". */
  function Clean(response: string): string {
    Unfence(Strip(response))
  }

  /** Drops a leading "```json", then a trailing "```". */
  function Unfence(t: string): string {
    var u := if OpenFence <= t then t[|OpenFence|..] else t;
    if EndsWith(u, CloseFence) then u[..|u| - |CloseFence|] else u
  }

  /** The suffix of `t` that starts at its first '{'. */
  function FromFirstOpen(t: string): Option<string> {
    if t == [] then None
    else if t[0] == '{' then Some(t)
    else FromFirstOpen(t[1..])
  }

  /** The prefix of `u` that ends at its last '}'. */
  function UpToLastClose(u: string): Option<string> {
    if u == [] then None
    else if u[|u| - 1] == '}' then Some(u)
    else UpToLastClose(u[..|u| - 1])
  }

  /** `FromFirstOpen` finds the first '{' and keeps everything from it on. */
  lemma {:induction false} FromFirstOpenIs(t: string)
    ensures FromFirstOpen(t).None? ==> '{' !in t
    ensures FromFirstOpen(t).Some? ==>
              var v := FromFirstOpen(t).value;
              0 < |v| <= |t| && v == t[|t| - |v|..] && v[0] == '{' && '{' !in t[..|t| - |v|]
    decreases |t|
  {
    if t != [] && t[0] != '{' {
      FromFirstOpenIs(t[1..]);
      assert t == [t[0]] + t[1..];
    }
  }

  /** `UpToLastClose` finds the last '}' and keeps everything up to it. */
  lemma {:induction false} UpToLastCloseIs(u: string)
    ensures UpToLastClose(u).None? ==> '}' !in u
    ensures UpToLastClose(u).Some? ==>
              var v := UpToLastClose(u).value;
              0 < |v| <= |u| && v == u[..|v|] && v[|v| - 1] == '}' && '}' !in u[|v|..]
    decreases |u|
  {
    if u != [] && u[|u| - 1] != '}' {
      UpToLastCloseIs(u[..|u| - 1]);
      assert u == u[..|u| - 1] + [u[|u| - 1]];
    }
  }

  /**
   * What the greedy search for `\{.*\}` (with `.` matching newlines) finds:
   * the text from the first '{' to the last '}', if that '}' comes after it.
   */
  function Span(t: string): (r: Option<string>)
    ensures r.Some? ==> |r.value| >= 2 && r.value[0] == '{' && r.value[|r.value| - 1] == '}'
  {
    FromFirstOpenIs(t);
    match FromFirstOpen(t)
    case None => None
    case Some(u) =>
      UpToLastCloseIs(u);
      UpToLastClose(u)
  }

  /**
   * The span is the regular-expression match: it is absent exactly when no
   * '{' is followed by a '}', and otherwise it is a slice of `t` with no '{'
   * before it and no '}' after it.
   */
  lemma SpanIsSearch(t: string)
    ensures Span(t).None? <==> forall i, j :: 0 <= i < j < |t| && t[i] == '{' ==> t[j] != '}'
    ensures Span(t).Some? ==>
              exists i :: 0 <= i <= |t| - |Span(t).value| && t[i..i + |Span(t).value|] == Span(t).value
                          && '{' !in t[..i] && '}' !in t[i + |Span(t).value|..]
  {
    FromFirstOpenIs(t);
    match FromFirstOpen(t)
    case None =>
    case Some(u) =>
      var k := |t| - |u|;
      UpToLastCloseIs(u);
      match UpToLastClose(u)
      case None =>
        forall i, j | 0 <= i < j < |t| && t[i] == '{' ensures t[j] != '}' {
          assert t[j] == u[j - k];
        }
      case Some(v) =>
        assert u == t[k..];
        assert v == u[..|v|];
        assert t[k..][..|v|] == t[k..k + |v|];
        assert t[k + |v|..] == u[|v|..];
        assert t[k] == '{' && t[k + |v| - 1] == '}';
  }

  /** No brace of either kind. */
  predicate NoBrace(p: string) {
    '{' !in p && '}' !in p
  }

  lemma {:induction false} FromFirstOpenPrefix(p: string, m: string)
    requires '{' !in p
    ensures FromFirstOpen(p + m) == FromFirstOpen(m)
    decreases |p|
  {
    if p != [] {
      assert (p + m)[1..] == p[1..] + m;
      FromFirstOpenPrefix(p[1..], m);
    } else {
      assert p + m == m;
    }
  }

  lemma {:induction false} FromFirstOpenSuffix(m: string, q: string)
    requires '{' !in q
    ensures FromFirstOpen(m + q) == match FromFirstOpen(m) case None => None case Some(u) => Some(u + q)
    decreases |m|
  {
    if m == [] {
      assert m + q == q;
      FromFirstOpenIs(q);
    } else if m[0] != '{' {
      assert (m + q)[1..] == m[1..] + q;
      FromFirstOpenSuffix(m[1..], q);
    }
  }

  lemma {:induction false} UpToLastCloseSuffix(u: string, q: string)
    requires '}' !in q
    ensures UpToLastClose(u + q) == UpToLastClose(u)
    decreases |q|
  {
    if q != [] {
      assert (u + q)[..|u + q| - 1] == u + q[..|q| - 1];
      assert q[|q| - 1] in q;
      UpToLastCloseSuffix(u, q[..|q| - 1]);
    } else {
      assert u + q == u;
    }
  }

  /** Text without braces in front of the reply does not move the span. */
  lemma SpanPrefix(p: string, m: string)
    requires NoBrace(p)
    ensures Span(p + m) == Span(m)
  {
    FromFirstOpenPrefix(p, m);
  }

  /** Text without braces after the reply does not move the span. */
  lemma SpanSuffix(m: string, q: string)
    requires NoBrace(q)
    ensures Span(m + q) == Span(m)
  {
    FromFirstOpenSuffix(m, q);
    match FromFirstOpen(m)
    case None =>
    case Some(u) => UpToLastCloseSuffix(u, q);
  }

  /** Whitespace is not a brace. */
  lemma SpacesNoBrace(p: string)
    requires AllSpace(p)
    ensures NoBrace(p)
  {
    forall i | 0 <= i < |p| ensures p[i] != '{' && p[i] != '}' {
      assert IsSpace(p[i]);
    }
  }

  /** Stripping whitespace never changes the span. */
  lemma StripKeepsSpan(response: string)
    ensures Span(Strip(response)) == Span(response)
  {
    var n := LeadingSpaces(response);
    var t1 := response[n..];
    assert response == response[..n] + t1;
    SpacesNoBrace(response[..n]);
    SpanPrefix(response[..n], t1);
    var m := |t1| - TrailingSpaces(t1);
    assert t1 == t1[..m] + t1[m..];
    SpacesNoBrace(t1[m..]);
    SpanSuffix(t1[..m], t1[m..]);
  }

  /** Dropping a leading "```json" never changes the span. */
  lemma OpenFenceKeepsSpan(t: string)
    requires OpenFence <= t
    ensures Span(t[|OpenFence|..]) == Span(t)
  {
    var rest := t[|OpenFence|..];
    assert t == OpenFence + rest;
    assert NoBrace(OpenFence);
    SpanPrefix(OpenFence, rest);
  }

  /** Dropping a trailing "```" never changes the span. */
  lemma CloseFenceKeepsSpan(t: string)
    requires EndsWith(t, CloseFence)
    ensures Span(t[..|t| - |CloseFence|]) == Span(t)
  {
    var front := t[..|t| - |CloseFence|];
    assert t == front + CloseFence;
    assert NoBrace(CloseFence);
    SpanSuffix(front, CloseFence);
  }

  /**
   * Cleaning never changes the span: the whitespace and the code fences it
   * removes contain no braces.
   */
  lemma CleanKeepsSpan(response: string)
    ensures Span(Clean(response)) == Span(response)
  {
    StripKeepsSpan(response);
    UnfenceKeepsSpan(Strip(response));
  }

  /** Neither code fence holds a brace, so dropping them keeps the span. */
  lemma UnfenceKeepsSpan(t: string)
    ensures Span(Unfence(t)) == Span(t)
  {
    var u := if OpenFence <= t then t[|OpenFence|..] else t;
    if OpenFence <= t {
      OpenFenceKeepsSpan(t);
    }
    if EndsWith(u, CloseFence) {
      CloseFenceKeepsSpan(u);
    }
  }

  /** The record returned when no object can be read: the raw text as a direct outcome. */
  function Direct(response: string): Reply {
    Reply(Some(false), None, None, None, None, Some(response), Some(NoEffects))
  }

  /**
   * `r` is `p` with the two defaults filled in: `needs_roll` false and
   * `effects` empty when absent, every key present in `p` kept as it is.
   */
  predicate Normalized(p: Reply, r: Reply) {
    && r.needsRoll == (if p.needsRoll.Some? then p.needsRoll else Some(false))
    && r.effects == (if p.effects.Some? then p.effects else Some(NoEffects))
    && r.(needsRoll := p.needsRoll, effects := p.effects) == p
  }

  /**
   * The interpreter. `decode` stands for `json.loads` read through the reply
   * schema; `None` is a decoding error.
   */
  function Interpret(response: string, decode: string -> Option<Reply>): (r: Reply)
    ensures r.needsRoll.Some? && r.effects.Some?
    ensures Span(response).None? ==> r == Direct(response)
    ensures Span(response).Some? && decode(Span(response).value).None? ==> r == Direct(response)
    ensures Span(response).Some? && decode(Span(response).value).Some? ==>
              Normalized(decode(Span(response).value).value, r)
  {
    CleanKeepsSpan(response);
    match Span(Clean(response))
    case None => Direct(response)
    case Some(text) =>
      match decode(text)
      case None => Direct(response)
      case Some(p) =>
        p.(needsRoll := if p.needsRoll.Some? then p.needsRoll else Some(false),
           effects := if p.effects.Some? then p.effects else Some(NoEffects))
  }

  /**
   * A reply wrapped in a "```json" fence is read exactly as the bare object
   * would be.
   */
  lemma FencedReply(body: string, decode: string -> Option<Reply>)
    requires Span(body).Some? && decode(Span(body).value).Some?
    ensures Interpret("```json\n" + body + "\n```", decode) == Interpret(body, decode)
  {
    var w := "```json\n" + body + "\n```";
    assert NoBrace("```json\n") && NoBrace("\n```");
    SpanSuffix("```json\n" + body, "\n```");
    SpanPrefix("```json\n", body);
  }
}
