/** String helpers shared by the model: Rust's `join` on a vector of strings,
    the order Rust's `String` keys sort in, and the keys of a string set listed
    in that order (the iteration order of a `BTreeMap`). */
module Strings {

  /** `xs.join(sep)`: the strings of `xs` with `sep` between neighbours. */
  function Join(sep: string, xs: seq<string>): string
  {
    if |xs| == 0 then "" else if |xs| == 1 then xs[0] else xs[0] + sep + Join(sep, xs[1..])
  }

  lemma ConcatAssoc(x: string, y: string, z: string)
    ensures x + (y + z) == x + y + z
  {
  }

  lemma {:induction false} JoinSnoc(sep: string, xs: seq<string>, y: string)
    requires xs != []
    ensures Join(sep, xs + [y]) == Join(sep, xs) + sep + y
  {
    if |xs| == 1 {
      assert xs + [y] == [xs[0], y];
    } else {
      assert (xs + [y])[1..] == xs[1..] + [y];
      JoinSnoc(sep, xs[1..], y);
    }
  }
  lemma JoinTwo(sep: string, a: string, b: string)
    ensures Join(sep, [a, b]) == a + sep + b
  {
    assert [a, b][1..] == [b];
  }

  lemma JoinThree(sep: string, a: string, b: string, c: string)
    ensures Join(sep, [a, b, c]) == a + (sep + b) + (sep + c)
  {
    assert [a, b, c][1..] == [b, c];
    JoinTwo(sep, b, c);
  }

  /** A head followed by at most one optional part and at most one more:
      each part present adds the separator and itself. */
  lemma JoinOptionalParts(sep: string, head: string, mid: seq<string>, tail: seq<string>)
    requires |mid| <= 1 && |tail| <= 1
    ensures Join(sep, [head] + mid + tail)
         == head + (if |mid| == 1 then sep + mid[0] else []) + (if |tail| == 1 then sep + tail[0] else [])
  {
    if |mid| == 1 && |tail| == 1 {
      JoinBothParts(sep, head, mid, tail);
    } else if |mid| == 1 {
      JoinMidPart(sep, head, mid, tail);
    } else if |tail| == 1 {
      JoinTailPart(sep, head, mid, tail);
    } else {
      JoinNoParts(sep, head, mid, tail);
    }
  }

  lemma JoinBothParts(sep: string, head: string, mid: seq<string>, tail: seq<string>)
    requires |mid| == 1 && |tail| == 1
    ensures Join(sep, [head] + mid + tail) == head + (sep + mid[0]) + (sep + tail[0])
  {
    assert [head] + mid + tail == [head, mid[0], tail[0]];
    JoinThree(sep, head, mid[0], tail[0]);
  }

  lemma JoinMidPart(sep: string, head: string, mid: seq<string>, tail: seq<string>)
    requires |mid| == 1 && tail == []
    ensures Join(sep, [head] + mid + tail) == head + (sep + mid[0]) + []
  {
    assert [head] + mid + tail == [head, mid[0]];
    JoinTwo(sep, head, mid[0]);
    assert head + (sep + mid[0]) + [] == head + sep + mid[0];
  }

  lemma JoinTailPart(sep: string, head: string, mid: seq<string>, tail: seq<string>)
    requires mid == [] && |tail| == 1
    ensures Join(sep, [head] + mid + tail) == head + [] + (sep + tail[0])
  {
    assert [head] + mid + tail == [head, tail[0]];
    JoinTwo(sep, head, tail[0]);
    assert head + [] + (sep + tail[0]) == head + sep + tail[0];
  }

  lemma JoinNoParts(sep: string, head: string, mid: seq<string>, tail: seq<string>)
    requires mid == [] && tail == []
    ensures Join(sep, [head] + mid + tail) == head + [] + []
  {
    assert [head] + mid + tail == [head];
    assert head + [] + [] == head;
  }

  /** No element of `xs` contains `c`, and neither does `sep`; then the join does not either. */
  lemma {:induction false} JoinAvoids(sep: string, xs: seq<string>, c: char)
    requires c !in sep
    requires forall i :: 0 <= i < |xs| ==> c !in xs[i]
    ensures c !in Join(sep, xs)
  {
    if |xs| > 1 {
      JoinAvoids(sep, xs[1..], c);
    }
  }

  /** Strict lexicographic order on strings, comparing code points; for UTF-8
      text this is the byte order Rust's `Ord for String` uses. */
  predicate Below(a: string, b: string)
  {
    |b| > 0 && (|a| == 0 || a[0] < b[0] || (a[0] == b[0] && Below(a[1..], b[1..])))
  }

  lemma {:induction false} BelowIrreflexive(a: string)
    ensures !Below(a, a)
  {
    if |a| > 0 {
      BelowIrreflexive(a[1..]);
    }
  }

  lemma {:induction false} BelowTransitive(a: string, b: string, c: string)
    requires Below(a, b) && Below(b, c)
    ensures Below(a, c)
  {
    if |a| > 0 && a[0] == b[0] && b[0] == c[0] {
      BelowTransitive(a[1..], b[1..], c[1..]);
    }
  }

  lemma {:induction false} BelowTotal(a: string, b: string)
    requires a != b
    ensures Below(a, b) || Below(b, a)
  {
    if |a| > 0 && |b| > 0 && a[0] == b[0] {
      assert a == [a[0]] + a[1..] && b == [b[0]] + b[1..];
      BelowTotal(a[1..], b[1..]);
    }
  }

  lemma {:induction false} BelowAsymmetric(a: string, b: string)
    requires Below(a, b)
    ensures !Below(b, a)
  {
    if Below(b, a) {
      BelowTransitive(a, b, a);
      BelowIrreflexive(a);
    }
  }

  predicate IsLeast(k: string, s: set<string>)
  {
    k in s && forall x | x in s && x != k :: Below(k, x)
  }

  lemma {:induction false} LeastExists(s: set<string>)
    requires s != {}
    ensures exists k :: IsLeast(k, s)
    decreases |s|
  {
    var x :| x in s;
    if s != {x} {
      var rest := s - {x};
      LeastExists(rest);
      var m :| IsLeast(m, rest);
      BelowTotal(x, m);
      if Below(x, m) {
        forall y | y in s && y != x
          ensures Below(x, y)
        {
          if y != m {
            BelowTransitive(x, m, y);
          }
        }
        assert IsLeast(x, s);
      } else {
        assert IsLeast(m, s);
      }
    } else {
      assert IsLeast(x, s);
    }
  }

  lemma LeastUnique(s: set<string>)
    ensures forall k, k' :: IsLeast(k, s) && IsLeast(k', s) ==> k == k'
  {
    forall k, k' | IsLeast(k, s) && IsLeast(k', s)
      ensures k == k'
    {
      if k != k' {
        BelowAsymmetric(k, k');
      }
    }
  }

  /** The elements of `s` in strictly ascending order: the order in which a
      `BTreeMap<String, _>` with key set `s` is iterated. */
  function SortedKeys(s: set<string>): (r: seq<string>)
    ensures |r| == |s|
    ensures forall k :: k in r <==> k in s
    ensures forall i :: 0 <= i < |r| ==> r[i] in s
    ensures forall i, j :: 0 <= i < j < |r| ==> Below(r[i], r[j])
    decreases |s|
  {
    if s == {} then []
    else
      LeastExists(s);
      LeastUnique(s);
      var k :| IsLeast(k, s);
      var rest := SortedKeys(s - {k});
      assert forall i :: 0 <= i < |rest| ==> rest[i] in s - {k} && Below(k, rest[i]);
      [k] + rest
  }
}
