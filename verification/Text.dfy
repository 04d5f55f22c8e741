/** The few string operations the source takes from Go's `strings` package. */
module Text {

  // The position of the first `c`, or |s| when there is none.
  function IndexOf(s: string, c: char): (i: nat)
    ensures i <= |s| && c !in s[..i]
    ensures i < |s| ==> s[i] == c
  {
    if s == [] || s[0] == c then 0 else 1 + IndexOf(s[1..], c)
  }

  // strings.Split for a one-character separator.
  function Split(s: string, c: char): (parts: seq<string>)
    ensures |parts| >= 1
    decreases |s|
  {
    var i := IndexOf(s, c);
    if i == |s| then [s] else [s[..i]] + Split(s[i + 1..], c)
  }

  // strings.Contains
  predicate Contains(s: string, t: string) {
    t <= s || (s != [] && Contains(s[1..], t))
  }

  // Something stands before it and something after.
  lemma {:induction false} ContainsMeans(s: string, t: string)
    ensures Contains(s, t) <==> exists before, after :: s == before + t + after
  {
    if t <= s {
      assert s == "" + t + s[|t|..];
    } else if s != [] {
      ContainsMeans(s[1..], t);
      if before, after :| s == before + t + after {
        assert before != [] ==> s[1..] == before[1..] + t + after;
        assert before == [] ==> t <= s;
      }
      if before, after :| s[1..] == before + t + after {
        assert s == ([s[0]] + before) + t + after;
      }
    }
  }

  lemma IndexOfFound(s: string, c: char)
    requires c in s
    ensures IndexOf(s, c) < |s|
  {
    var i := IndexOf(s, c);
    assert s == s[..i] + s[i..];
  }

  // Cutting at the first `c`: the text before it has none, whatever follows.
  lemma {:induction false} IndexOfCut(a: string, c: char, b: string)
    requires c !in a
    ensures IndexOf(a + [c] + b, c) == |a|
  {
    if a == [] {
      assert a + [c] + b == [c] + b;
    } else {
      assert (a + [c] + b)[1..] == a[1..] + [c] + b;
      IndexOfCut(a[1..], c, b);
    }
  }

  lemma IndexOfNone(a: string, c: char)
    requires c !in a
    ensures IndexOf(a, c) == |a|
  {
  }

  lemma SplitCut(a: string, c: char, b: string)
    requires c !in a
    ensures Split(a + [c] + b, c) == [a] + Split(b, c)
  {
    IndexOfCut(a, c, b);
    var s := a + [c] + b;
    assert s[..|a|] == a && s[|a| + 1..] == b;
  }

  lemma SplitWhole(a: string, c: char)
    requires c !in a
    ensures Split(a, c) == [a]
  {
  }

  // A text has every character of what it contains.
  lemma {:induction false} ContainsChars(s: string, t: string, c: char)
    requires Contains(s, t) && c in t
    ensures c in s
  {
    if t <= s {
      assert s == t + s[|t|..];
    } else {
      ContainsChars(s[1..], t, c);
    }
  }

  // A needle that begins with `c` is found in a + [c] + b, where `a` has no `c`,
  // at that very `c` or wholly in `b`.
  lemma {:induction false} ContainsCut(a: string, c: char, b: string, needle: string)
    requires c !in a && needle != "" && needle[0] == c
    ensures Contains(a + [c] + b, needle) <==> needle <= [c] + b || Contains(b, needle)
  {
    var s := a + [c] + b;
    if a == [] {
      assert s == [c] + b && s[1..] == b;
    } else {
      assert s[1..] == a[1..] + [c] + b;
      assert s[0] == a[0] != c;
      ContainsCut(a[1..], c, b, needle);
    }
  }

  lemma PrefixTail(x: string, y: string)
    requires x != [] && y != []
    ensures x <= y <==> x[0] == y[0] && x[1..] <= y[1..]
  {
    assert x == [x[0]] + x[1..] && y == [y[0]] + y[1..];
    if x[0] == y[0] && x[1..] <= y[1..] {
      assert y == x + y[1..][|x| - 1..];
    }
    if x <= y {
      assert y == x + y[|x|..];
      assert y[1..] == x[1..] + y[|x|..];
    }
  }

  lemma PrefixChars(x: string, y: string, c: char)
    requires c in x
    ensures x <= y ==> c in y
  {
    if x <= y {
      assert y == x + y[|x|..];
    }
  }

  lemma {:induction false} ContainsLength(s: string, t: string)
    ensures Contains(s, t) ==> |t| <= |s|
  {
    if s != [] {
      ContainsLength(s[1..], t);
    }
  }

  // Two words without `c`, each closed by a `c`, agree exactly when the closed texts do.
  lemma {:induction false} ClosedPrefix(a: string, b: string, c: char, rest: string)
    requires c !in a && c !in b
    ensures a + [c] <= b + [c] + rest <==> a == b
  {
    var x, y := a + [c], b + [c] + rest;
    if a == [] || b == [] {
      assert x[0] == if a == [] then c else a[0];
      assert y[0] == if b == [] then c else b[0];
    } else {
      assert x[1..] == a[1..] + [c] && y[1..] == b[1..] + [c] + rest;
      PrefixTail(x, y);
      ClosedPrefix(a[1..], b[1..], c, rest);
      assert a == [a[0]] + a[1..] && b == [b[0]] + b[1..];
    }
  }
}
