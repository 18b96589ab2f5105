/** The bounded story history (main.py:466-470). */
module History {
  import opened State

  /** How many entries the history keeps. */
  const Keep: nat := 15

  /** The last `Keep` entries of `h` (all of them when there are fewer). */
  function Last(h: seq<Entry>): (r: seq<Entry>)
    ensures |r| == if |h| > Keep then Keep else |h|
    ensures r == h[|h| - |r|..]
  {
    if |h| > Keep then h[|h| - Keep..] else h
  }

  /** Appending one entry, then trimming to the most recent `Keep`. */
  function Record(h: seq<Entry>, e: Entry): (r: seq<Entry>)
    ensures |r| <= Keep && r != [] && r[|r| - 1] == e
    ensures r == Last(h + [e])
    ensures |h| < Keep ==> r == h + [e]
    ensures |h| >= Keep ==> r == h[|h| - Keep + 1..] + [e]
  {
    var a := h + [e];
    if |a| > Keep then
      assert a[|a| - Keep..] == h[|h| - Keep + 1..] + [e];
      a[|a| - Keep..]
    else a
  }

  /** Records `es` one after the other. */
  function RecordAll(h: seq<Entry>, es: seq<Entry>): seq<Entry>
    decreases |es|
  {
    if es == [] then h else Record(RecordAll(h, es[..|es| - 1]), es[|es| - 1])
  }

  /** Trimming before an append loses nothing the trim after it would keep. */
  lemma LastAppend(a: seq<Entry>, e: Entry)
    ensures Last(Last(a) + [e]) == Last(a + [e])
  {
    var b := Last(a) + [e];
    var c := a + [e];
    assert Last(c) == c[|c| - |Last(c)|..];
    assert |Last(b)| == |Last(c)|;
    forall k | 0 <= k < |Last(c)|
      ensures Last(b)[k] == Last(c)[k]
    {
      assert Last(b)[k] == b[|b| - |Last(b)| + k];
      assert Last(c)[k] == c[|c| - |Last(c)| + k];
    }
  }

  /**
   * However many turns are recorded, the history is the most recent `Keep`
   * entries of everything ever recorded: the oldest are dropped first.
   */
  lemma {:induction false} RecordAllIsLast(h: seq<Entry>, es: seq<Entry>)
    requires |h| <= Keep
    ensures RecordAll(h, es) == Last(h + es)
    decreases |es|
  {
    if es == [] {
      assert h + es == h;
      assert Last(h) == h;
    } else {
      var front := es[..|es| - 1];
      var e := es[|es| - 1];
      var x := RecordAll(h, front);
      assert RecordAll(h, es) == Record(x, e);
      RecordAllIsLast(h, front);
      assert Record(x, e) == Last(Last(h + front) + [e]);
      LastAppend(h + front, e);
      assert es == front + [e];
      assert (h + front) + [e] == h + es;
    }
  }

  /** Trimming early then appending several entries agrees with trimming at the end. */
  lemma {:induction false} LastConcat(a: seq<Entry>, es: seq<Entry>)
    ensures Last(Last(a) + es) == Last(a + es)
    decreases |es|
  {
    if es == [] {
      assert Last(a) + es == Last(a);
      assert a + es == a;
      assert Last(Last(a)) == Last(a);
    } else {
      var n := |es| - 1;
      var front := es[..n];
      var e := es[n];
      assert es == front + [e];
      LastConcat(a, front);
      assert Last(a) + es == (Last(a) + front) + [e];
      assert a + es == (a + front) + [e];
      LastAppend(Last(a) + front, e);
      LastAppend(a + front, e);
    }
  }
}
