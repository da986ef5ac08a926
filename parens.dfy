/** Parenthesis nesting in rendered search queries: a query is a sequence of
    parenthesised prefix expressions, so its text is balanced and each group
    is one top-level parenthesised unit. */
module Parens {
  import opened Strings
  import opened JsonValue

  function Step(c: char): int
  {
    if c == '(' then 1 else if c == ')' then -1 else 0
  }

  /** Opening minus closing parentheses in `s`. */
  function Depth(s: string): int
  {
    if s == [] then 0 else Depth(s[..|s| - 1]) + Step(s[|s| - 1])
  }

  /** Every prefix closes no more than it opened, and the whole closes all. */
  predicate Balanced(s: string)
  {
    Depth(s) == 0 && forall i :: 0 <= i <= |s| ==> Depth(s[..i]) >= 0
  }

  /** One parenthesised unit: it opens at the first character and its
      outermost parenthesis closes only at the last one. */
  predicate Wrapped(s: string)
  {
    && |s| >= 2 && s[0] == '(' && s[|s| - 1] == ')'
    && Balanced(s)
    && forall i :: 1 <= i < |s| ==> Depth(s[..i]) >= 1
  }

  lemma {:induction false} DepthConcat(a: string, b: string)
    ensures Depth(a + b) == Depth(a) + Depth(b)
    decreases |b|
  {
    if b != [] {
      var n := |b| - 1;
      assert (a + b)[..|a + b| - 1] == a + b[..n];
      DepthConcat(a, b[..n]);
    } else {
      assert a + b == a;
    }
  }

  lemma {:induction false} ParenFreeDepth(s: string)
    requires ParenFree(s)
    ensures Depth(s) == 0
    decreases |s|
  {
    if s != [] {
      assert s[|s| - 1] in s;
      assert forall c | c in s[..|s| - 1] :: c in s;
      ParenFreeDepth(s[..|s| - 1]);
    }
  }

  /** Text without parentheses is balanced. */
  lemma ParenFreeBalanced(s: string)
    requires ParenFree(s)
    ensures Balanced(s)
  {
    ParenFreeDepth(s);
    forall i | 0 <= i <= |s|
      ensures Depth(s[..i]) == 0
    {
      assert forall c | c in s[..i] :: c in s;
      ParenFreeDepth(s[..i]);
    }
  }

  lemma BalancedConcat(a: string, b: string)
    requires Balanced(a) && Balanced(b)
    ensures Balanced(a + b)
  {
    DepthConcat(a, b);
    forall i | 0 <= i <= |a + b|
      ensures Depth((a + b)[..i]) >= 0
    {
      if i <= |a| {
        assert (a + b)[..i] == a[..i];
      } else {
        assert (a + b)[..i] == a + b[..i - |a|];
        DepthConcat(a, b[..i - |a|]);
      }
    }
  }

  /** Parenthesising balanced text gives one parenthesised unit. */
  lemma Wrap(x: string)
    requires Balanced(x)
    ensures Wrapped("(" + x + ")")
  {
    var s := "(" + x + ")";
    DepthConcat("(", x);
    DepthConcat("(" + x, ")");
    forall i | 1 <= i <= |s| - 1
      ensures Depth(s[..i]) >= 1
    {
      assert s[..i] == "(" + x[..i - 1];
      DepthConcat("(", x[..i - 1]);
    }
    assert s[..|s|] == s;
    assert s[..0] == [];
  }

  /** Balanced pieces joined by a balanced separator stay balanced. */
  lemma {:induction false} JoinBalanced(sep: string, xs: seq<string>)
    requires Balanced(sep)
    requires forall i :: 0 <= i < |xs| ==> Balanced(xs[i])
    ensures Balanced(Join(sep, xs))
  {
    if |xs| == 0 {
      ParenFreeBalanced("");
    } else if |xs| > 1 {
      JoinBalanced(sep, xs[1..]);
      BalancedConcat(xs[0], sep);
      BalancedConcat(xs[0] + sep, Join(sep, xs[1..]));
    }
  }
}
