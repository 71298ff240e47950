/**
 Counting how many distinct keys a history marks inside any window of fixed
 length, from the keys a limiter still holds when each mark is made.
 */
module SlidingWindow {
  import opened Collections

  datatype Mark<K> = Mark(key: K, at: int)

  /** The keys marked in (t - span, t]. */
  ghost function KeysIn<K(!new)>(h: seq<Mark<K>>, t: int, span: int): set<K> {
    set i | 0 <= i < |h| && t - span < h[i].at <= t :: h[i].key
  }

  /** No window of length `span`, ending at any time, marks more than `cap` distinct keys. */
  ghost predicate Within<K(!new)>(h: seq<Mark<K>>, cap: nat, span: int) {
    forall t: int :: |KeysIn(h, t, span)| <= cap
  }

  ghost predicate UpTo<K(!new)>(h: seq<Mark<K>>, now: int) {
    forall i :: 0 <= i < |h| ==> h[i].at <= now
  }

  /** A mark made while the keys of the window ending now are all among `live`. */
  lemma MarkWithin<K(!new)>(h: seq<Mark<K>>, key: K, now: int, live: set<K>, cap: nat, span: int)
    requires Within(h, cap, span) && UpTo(h, now)
    requires KeysIn(h + [Mark(key, now)], now, span) <= live && |live| <= cap
    ensures Within(h + [Mark(key, now)], cap, span)
  {
    var g := h + [Mark(key, now)];
    forall t: int
      ensures |KeysIn(g, t, span)| <= cap
    {
      if t < now {
        assert KeysIn(g, t, span) == KeysIn(h, t, span) by {
          forall i | 0 <= i < |h|
            ensures g[i] == h[i]
          {
          }
        }
      } else {
        assert KeysIn(g, t, span) <= KeysIn(g, now, span);
        SubsetSize(KeysIn(g, t, span), live);
      }
    }
  }

  /** The positions of the marks made in (t - span, t]. */
  ghost function MarksIn<K(!new)>(h: seq<Mark<K>>, t: int, span: int): set<int> {
    set i | 0 <= i < |h| && t - span < h[i].at <= t
  }

  /** No key is marked twice within `span`. */
  ghost predicate Spaced<K(!new)>(h: seq<Mark<K>>, span: int) {
    forall i, j :: 0 <= i < j < |h| && h[i].key == h[j].key ==> h[j].at - h[i].at >= span
  }

  lemma SnocMarks<K(!new)>(h: seq<Mark<K>>, t: int, span: int)
    requires h != []
    ensures var n := |h| - 1;
            MarksIn(h, t, span) == MarksIn(h[..n], t, span) + if t - span < h[n].at <= t then {n} else {}
  {
  }

  lemma SnocKeys<K(!new)>(h: seq<Mark<K>>, t: int, span: int)
    requires h != []
    ensures var n := |h| - 1;
            KeysIn(h, t, span) == KeysIn(h[..n], t, span) + if t - span < h[n].at <= t then {h[n].key} else {}
  {
    var n := |h| - 1;
    forall i | 0 <= i < n
      ensures h[i] == h[..n][i]
    {
    }
  }

  lemma SpacedFresh<K(!new)>(h: seq<Mark<K>>, t: int, span: int)
    requires h != [] && Spaced(h, span) && h[|h| - 1].at <= t
    ensures h[|h| - 1].key !in KeysIn(h[..|h| - 1], t, span)
  {
  }

  /** When keys are spaced a window apart, counting keys is counting marks. */
  lemma {:induction false} SpacedMarks<K(!new)>(h: seq<Mark<K>>, t: int, span: int)
    requires Spaced(h, span)
    ensures |MarksIn(h, t, span)| == |KeysIn(h, t, span)|
  {
    if h == [] {
      assert MarksIn(h, t, span) == {} && KeysIn(h, t, span) == {};
    } else {
      SpacedMarks(h[..|h| - 1], t, span);
      SnocMarks(h, t, span);
      SnocKeys(h, t, span);
      if h[|h| - 1].at <= t {
        SpacedFresh(h, t, span);
      }
    }
  }
}
