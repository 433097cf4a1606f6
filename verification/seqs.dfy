/** Duplicate-free sequences: the order vectors of the store and their filters. */
module Seqs {

  function Elems<T>(s: seq<T>): set<T> {
    set x | x in s
  }

  ghost predicate Distinct<T>(s: seq<T>) {
    forall i, j :: 0 <= i < j < |s| ==> s[i] != s[j]
  }

  /** `Vec::retain(|x| !dropped.contains(x))`. */
  function Without<T(==)>(s: seq<T>, dropped: set<T>): (r: seq<T>)
    ensures Elems(r) == Elems(s) - dropped
    ensures |r| <= |s|
  {
    if s == [] then []
    else
      var rest := Without(s[..|s| - 1], dropped);
      var last := s[|s| - 1];
      assert Elems(s) == Elems(s[..|s| - 1]) + {last};
      if last in dropped then rest
      else
        assert Elems(rest + [last]) == Elems(rest) + {last};
        rest + [last]
  }

  /** Keeps the first occurrence of every element. */
  function Dedup<T(==)>(s: seq<T>): (r: seq<T>)
    ensures Elems(r) == Elems(s)
    ensures |r| <= |s|
  {
    if s == [] then []
    else
      var init, last := s[..|s| - 1], s[|s| - 1];
      var rest := Dedup(init);
      assert Elems(s) == Elems(init) + {last};
      if last in init then
        assert Elems(s) == Elems(init);
        rest
      else
        assert Elems(rest + [last]) == Elems(rest) + {last};
        rest + [last]
  }

  lemma NoElems<T>(s: seq<T>)
    ensures Elems(s) == {} <==> s == []
  {
    if s != [] {
      assert s[0] in Elems(s);
    }
  }

  lemma ElemsConcat<T>(s: seq<T>, t: seq<T>)
    ensures Elems(s + t) == Elems(s) + Elems(t)
  {
  }

  lemma DistinctAppend<T>(s: seq<T>, x: T)
    requires Distinct(s) && x !in Elems(s)
    ensures Distinct(s + [x])
  {
  }

  lemma DedupSnoc<T>(s: seq<T>, x: T)
    ensures Dedup(s + [x]) == if x in s then Dedup(s) else Dedup(s) + [x]
  {
    assert (s + [x])[..|s|] == s;
  }

  lemma WithoutSnoc<T>(s: seq<T>, x: T, dropped: set<T>)
    ensures Without(s + [x], dropped) == if x in dropped then Without(s, dropped) else Without(s, dropped) + [x]
  {
    assert (s + [x])[..|s|] == s;
  }

  lemma {:induction false} DedupDistinct<T>(s: seq<T>)
    ensures Distinct(Dedup(s))
  {
    if s != [] {
      var init, last := s[..|s| - 1], s[|s| - 1];
      DedupDistinct(init);
      if last !in init {
        assert last !in Elems(Dedup(init));
      }
    }
  }

  lemma {:induction false} DedupOfDistinct<T>(s: seq<T>)
    requires Distinct(s)
    ensures Dedup(s) == s
  {
    if s != [] {
      DedupOfDistinct(s[..|s| - 1]);
    }
  }

  /** Taking first occurrences drops something exactly when an element repeats. */
  lemma {:induction false} DedupKeepsLength<T>(s: seq<T>)
    ensures |Dedup(s)| == |s| <==> Distinct(s)
  {
    if s != [] {
      var init, last := s[..|s| - 1], s[|s| - 1];
      assert s == init + [last];
      DedupKeepsLength(init);
      assert Distinct(s) <==> Distinct(init) && last !in init;
    }
  }

  lemma {:induction false} WithoutDistinct<T>(s: seq<T>, dropped: set<T>)
    requires Distinct(s)
    ensures Distinct(Without(s, dropped))
  {
    if s != [] {
      var init, last := s[..|s| - 1], s[|s| - 1];
      WithoutDistinct(init, dropped);
      if last !in dropped {
        assert last !in Elems(init);
        DistinctAppend(Without(init, dropped), last);
      }
    }
  }

  lemma {:induction false} WithoutNothing<T>(s: seq<T>, dropped: set<T>)
    requires Elems(s) !! dropped
    ensures Without(s, dropped) == s
  {
    if s != [] {
      var init, last := s[..|s| - 1], s[|s| - 1];
      assert Elems(init) <= Elems(s) && last in Elems(s);
      WithoutNothing(init, dropped);
    }
  }

  /** A filter leaves a sequence alone exactly when it drops none of its elements. */
  lemma WithoutChanges<T>(s: seq<T>, dropped: set<T>)
    ensures Without(s, dropped) == s <==> Elems(s) !! dropped
  {
    if Elems(s) !! dropped {
      WithoutNothing(s, dropped);
    } else {
      assert Elems(Without(s, dropped)) != Elems(s);
    }
  }

  /** Only the dropped elements that occur matter. */
  lemma {:induction false} WithoutSame<T>(s: seq<T>, a: set<T>, b: set<T>)
    requires Elems(s) * a == Elems(s) * b
    ensures Without(s, a) == Without(s, b)
  {
    if s != [] {
      var init, last := s[..|s| - 1], s[|s| - 1];
      assert Elems(init) <= Elems(s) && last in Elems(s);
      assert forall x :: x in Elems(s) ==> (x in a <==> x in Elems(s) * a);
      assert forall x :: x in Elems(s) ==> (x in b <==> x in Elems(s) * b);
      WithoutSame(init, a, b);
    }
  }

  lemma {:induction false} WithoutTwice<T>(s: seq<T>, a: set<T>, b: set<T>)
    ensures Without(Without(s, a), b) == Without(s, a + b)
  {
    if s != [] {
      var init, last := s[..|s| - 1], s[|s| - 1];
      WithoutTwice(init, a, b);
      if last !in a {
        var kept := Without(init, a);
        assert (kept + [last])[..|kept|] == kept;
      }
    }
  }

  lemma {:induction false} WithoutConcat<T>(s: seq<T>, t: seq<T>, dropped: set<T>)
    ensures Without(s + t, dropped) == Without(s, dropped) + Without(t, dropped)
  {
    if t == [] {
      assert s + t == s;
    } else {
      var init, last := t[..|t| - 1], t[|t| - 1];
      assert (s + t)[..|s + t| - 1] == s + init;
      WithoutConcat(s, init, dropped);
    }
  }

  /** Filtering before or after taking first occurrences gives the same order. */
  lemma {:induction false} DedupWithout<T>(s: seq<T>, dropped: set<T>)
    ensures Dedup(Without(s, dropped)) == Without(Dedup(s), dropped)
  {
    if s != [] {
      var init, last := s[..|s| - 1], s[|s| - 1];
      DedupWithout(init, dropped);
      var kept := Without(init, dropped);
      if last !in dropped {
        assert (kept + [last])[..|kept|] == kept;
        assert last in kept <==> last in Elems(kept);
        assert last in init <==> last in Elems(init);
        if last !in init {
          var d := Dedup(init);
          assert (d + [last])[..|d|] == d;
        }
      } else if last !in init {
        var d := Dedup(init);
        assert (d + [last])[..|d|] == d;
      }
    }
  }

  function FirstIndex<T(==)>(s: seq<T>, x: T): (k: nat)
    requires x in s
    ensures k < |s| && s[k] == x && x !in s[..k]
  {
    if s[0] == x then 0 else 1 + FirstIndex(s[1..], x)
  }

  lemma FirstIndexPrefix<T>(init: seq<T>, last: T, x: T)
    requires x in init
    ensures FirstIndex(init + [last], x) == FirstIndex(init, x)
  {
    var k, k' := FirstIndex(init, x), FirstIndex(init + [last], x);
    assert (init + [last])[k] == x;
    assert k' <= k;
    assert init[k'] == x;
    assert forall i :: 0 <= i < k ==> init[i] in init[..k];
  }

  /** What `Dedup` means: each element once, in the order of its first occurrence. */
  lemma {:induction false} DedupOrder<T>(s: seq<T>, i: nat, j: nat)
    requires i < j < |Dedup(s)|
    ensures Dedup(s)[i] in s && Dedup(s)[j] in s
    ensures FirstIndex(s, Dedup(s)[i]) < FirstIndex(s, Dedup(s)[j])
  {
    var init, last := s[..|s| - 1], s[|s| - 1];
    assert s == init + [last];
    var d := Dedup(init);
    assert d[i] in Elems(d);
    FirstIndexPrefix(init, last, d[i]);
    if j < |d| {
      DedupOrder(init, i, j);
      FirstIndexPrefix(init, last, d[j]);
    } else {
      assert Dedup(s)[j] == last && last !in init;
      assert FirstIndex(s, last) == |init|;
    }
  }
}
