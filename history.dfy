/** The bounded, newest-first list of searched words. */
module History {

  /** How many past searches the list keeps. */
  const MaxHistory: nat := 10

  function Min(a: int, b: int): int {
    if a < b then a else b
  }

  /**
   * The list after searching `w`: `w` in front, then the old entries in
   * their order, cut to `MaxHistory` entries. Duplicates are not removed.
   */
  function Pushed(h: seq<string>, w: string): (r: seq<string>)
    ensures |r| == Min(|h| + 1, MaxHistory)
    ensures r[0] == w
    ensures forall k :: 1 <= k < |r| ==> r[k] == h[k - 1]
  {
    var items := [w] + h;
    if |items| > MaxHistory then items[..MaxHistory] else items
  }

  /** A full list loses exactly its oldest entry. */
  lemma PushedDropsOldest(h: seq<string>, w: string)
    requires |h| == MaxHistory
    ensures Pushed(h, w) == [w] + h[..MaxHistory - 1]
  {
    var r := Pushed(h, w);
    assert forall k :: 0 <= k < |r| ==> r[k] == ([w] + h[..MaxHistory - 1])[k];
  }

  /** Below capacity nothing is lost and nothing is merged: duplicates are kept. */
  lemma PushedKeepsDuplicates(h: seq<string>, w: string)
    requires |h| < MaxHistory
    ensures Pushed(h, w) == [w] + h
    ensures multiset(Pushed(h, w)) == multiset(h) + multiset{w}
  {
    assert [w] + h == Pushed(h, w);
  }

  /** The list stays within its bound. */
  lemma PushedBounded(h: seq<string>, w: string)
    ensures |Pushed(h, w)| <= MaxHistory && |Pushed(h, w)| >= 1
  {
  }

  /** Searching the words of `ws`, oldest first, starting from `h`. */
  function PushedAll(h: seq<string>, ws: seq<string>): seq<string>
    decreases |ws|
  {
    if ws == [] then h else Pushed(PushedAll(h, ws[..|ws| - 1]), ws[|ws| - 1])
  }

  function Reversed(s: seq<string>): (r: seq<string>)
    ensures |r| == |s|
    ensures forall k :: 0 <= k < |s| ==> r[k] == s[|s| - 1 - k]
  {
    if s == [] then [] else [s[|s| - 1]] + Reversed(s[..|s| - 1])
  }

  /**
   * After a run of searches the list holds the most recent words, newest
   * first, followed by what was there before, cut to `MaxHistory`.
   */
  lemma {:induction false} PushedAllNewestFirst(h: seq<string>, ws: seq<string>)
    requires |h| <= MaxHistory
    ensures PushedAll(h, ws) == (Reversed(ws) + h)[..Min(|ws| + |h|, MaxHistory)]
    decreases |ws|
  {
    if ws == [] {
      assert Reversed(ws) + h == h;
    } else {
      var init, w := ws[..|ws| - 1], ws[|ws| - 1];
      PushedAllNewestFirst(h, init);
      var x := Reversed(init) + h;
      var p := x[..Min(|x|, MaxHistory)];
      assert PushedAll(h, ws) == Pushed(p, w);
      assert Reversed(ws) == [w] + Reversed(init);
      var r := Pushed(p, w);
      var want := (Reversed(ws) + h)[..Min(|ws| + |h|, MaxHistory)];
      assert |r| == |want|;
      forall k | 0 <= k < |r| ensures r[k] == want[k] {
        if k > 0 { assert r[k] == p[k - 1] == x[k - 1]; }
      }
    }
  }

  /**
   * Searching at least `MaxHistory` distinct words from an empty list
   * leaves exactly the last `MaxHistory` of them, newest first; every
   * older word has been evicted.
   */
  lemma MostRecentSurvive(ws: seq<string>)
    requires |ws| >= MaxHistory
    requires forall i, j :: 0 <= i < j < |ws| ==> ws[i] != ws[j]
    ensures |PushedAll([], ws)| == MaxHistory
    ensures forall k :: 0 <= k < MaxHistory ==> PushedAll([], ws)[k] == ws[|ws| - 1 - k]
    ensures forall i :: 0 <= i < |ws| - MaxHistory ==> ws[i] !in PushedAll([], ws)
  {
    PushedAllNewestFirst([], ws);
    assert Reversed(ws) + [] == Reversed(ws);
  }
}
