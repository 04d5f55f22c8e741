/**
 The file-name rules: `filepath.Ext`, the blocked-extension test of the upload validator and
 the declarative meaning that test has for an entry of the form "." + w.
 */
module FileNames {
  import opened Text

  // filepath.Ext on a slash-separated path: the suffix from the last dot of the last path
  // element, or "" when that element has no dot.
  function Ext(path: string): (e: string)
    decreases |path|
  {
    if path == [] then ""
    else
      var init, last := path[..|path| - 1], path[|path| - 1];
      if last == '/' then ""
      else if last == '.' then "."
      else if Ext(init) == "" then ""
      else Ext(init) + [last]
  }

  lemma {:induction false} ExtShape(path: string)
    ensures Ext(path) == "" || (Ext(path)[0] == '.' && '.' !in Ext(path)[1..] && '/' !in Ext(path)[1..])
    decreases |path|
  {
    if path != [] {
      var e := Ext(path[..|path| - 1]);
      ExtShape(path[..|path| - 1]);
      if e != "" {
        assert (e + [path[|path| - 1]])[1..] == e[1..] + [path[|path| - 1]];
      }
    }
  }

  lemma {:induction false} ExtWithoutDot(path: string)
    requires '.' !in path
    ensures Ext(path) == ""
    decreases |path|
  {
    if path != [] {
      ExtWithoutDot(path[..|path| - 1]);
    }
  }

  // Text that holds a dot decides the extension, whatever stands before it.
  lemma {:induction false} ExtOfSuffix(p: string, t: string)
    requires '.' in t
    ensures Ext(p + t) == Ext(t)
    decreases |t|
  {
    var init, last := t[..|t| - 1], t[|t| - 1];
    assert (p + t)[..|p + t| - 1] == p + init;
    assert t == init + [last];
    if last != '/' && last != '.' {
      ExtOfSuffix(p, init);
    }
  }

  lemma ExtOneMore(p: string, c: char)
    ensures Ext(p + [c]) == if c == '/' then "" else if c == '.' then "." else if Ext(p) == "" then "" else Ext(p) + [c]
  {
    assert (p + [c])[..|p + [c]| - 1] == p;
  }

  lemma {:induction false} ExtAfterLastDot(p: string, t: string)
    requires '.' !in t
    ensures Ext(p + "." + t) == if '/' in t then "" else "." + t
    decreases |t|
  {
    if t == [] {
      ExtOneMore(p, '.');
      assert p + "." + t == p + "." && "." + t == ".";
    } else {
      var init, last := t[..|t| - 1], t[|t| - 1];
      assert t == init + [last];
      ExtAfterLastDot(p, init);
      ExtOneMore(p + "." + init, last);
      assert p + "." + t == (p + "." + init) + [last] && "." + t == ("." + init) + [last];
    }
  }

  /**
   Substring search meets segment membership, for letters compared exactly: "." + w is the
   extension, or stands in the name in front of another dot, exactly when w is one of the
   dot-separated segments after the first.
   */
  lemma {:induction false} SegmentFound(w: string, s: string)
    requires '.' !in w && '/' !in w
    ensures Ext(s) == "." + w || Contains(s, "." + w + ".") <==> w in Split(s, '.')[1..]
    decreases |s|
  {
    var needle := "." + w + ".";
    var i := IndexOf(s, '.');
    if i == |s| {
      assert s == s[..i];
      ExtWithoutDot(s);
      if Contains(s, needle) { ContainsChars(s, needle, '.'); }
    } else {
      var h, t := s[..i], s[i + 1..];
      assert s == h + "." + t;
      SplitCut(h, '.', t);
      ContainsCut(h, '.', t, needle);
      NeedleAtDot(w, t);
      if '.' !in t {
        LastSegment(w, h, t);
      } else {
        InnerSegment(w, h, t);
        SegmentFound(w, t);
      }
    }
  }

  lemma NeedleAtDot(w: string, t: string)
    ensures "." + w + "." <= "." + t <==> w + "." <= t
  {
    var needle := "." + w + ".";
    assert needle == "." + (w + ".");
    assert needle <= "." + t ==> w + "." == needle[1..] == ("." + t)[1..][..|w| + 1];
  }

  lemma LastSegment(w: string, h: string, t: string)
    requires '.' !in t && '.' !in w && '/' !in w
    ensures Ext(h + "." + t) == "." + w <==> w == t
    ensures !(w + "." <= t) && !Contains(t, "." + w + ".")
    ensures w in Split(t, '.') <==> w == t
  {
    ExtAfterLastDot(h, t);
    assert "." + w == "." + t ==> w == ("." + w)[1..] == ("." + t)[1..] == t;
    PrefixChars(w + ".", t, '.');
    if Contains(t, "." + w + ".") { ContainsChars(t, "." + w + ".", '.'); }
    SplitWhole(t, '.');
  }

  lemma InnerSegment(w: string, h: string, t: string)
    requires '.' in t && '.' !in w && '/' !in w
    ensures Ext(h + "." + t) == Ext(t)
    ensures w in Split(t, '.') <==> w + "." <= t || w in Split(t, '.')[1..]
  {
    var j := IndexOf(t, '.');
    IndexOfFound(t, '.');
    var h2, t2 := t[..j], t[j + 1..];
    assert t == h2 + "." + t2;
    ExtOfSuffix(h + ".", t);
    ClosedPrefix(w, h2, '.', t2);
    SplitCut(h2, '.', t2);
  }

  // What lower-casing must respect for the theorems: it works character by character and
  // neither creates nor destroys a dot or a slash.
  ghost predicate CaseMap(lower: char -> char) {
    forall c: char :: (lower(c) == '.' <==> c == '.') && (lower(c) == '/' <==> c == '/')
  }

  function ToLower(lower: char -> char, s: string): (r: string)
    ensures |r| == |s| && forall i | 0 <= i < |s| :: r[i] == lower(s[i])
  {
    seq(|s|, i requires 0 <= i < |s| => lower(s[i]))
  }

  function ToLowerAll(lower: char -> char, parts: seq<string>): seq<string> {
    seq(|parts|, i requires 0 <= i < |parts| => ToLower(lower, parts[i]))
  }

  lemma ToLowerKeeps(lower: char -> char, s: string)
    requires CaseMap(lower)
    ensures '.' in ToLower(lower, s) <==> '.' in s
    ensures '/' in ToLower(lower, s) <==> '/' in s
  {
    var r := ToLower(lower, s);
    assert forall i | 0 <= i < |s| :: (r[i] == '.' <==> s[i] == '.') && (r[i] == '/' <==> s[i] == '/');
  }

  lemma {:induction false} ExtCommutes(lower: char -> char, path: string)
    requires CaseMap(lower)
    ensures Ext(ToLower(lower, path)) == ToLower(lower, Ext(path))
    decreases |path|
  {
    if path != [] {
      var init, last := path[..|path| - 1], path[|path| - 1];
      var r := ToLower(lower, path);
      assert r[..|r| - 1] == ToLower(lower, init);
      ExtCommutes(lower, init);
      assert Ext(init) != "" ==> ToLower(lower, Ext(init) + [last]) == ToLower(lower, Ext(init)) + [lower(last)];
      assert ToLower(lower, "") == "" && ToLower(lower, ".") == ".";
    }
  }

  lemma {:induction false} SplitCommutes(lower: char -> char, s: string)
    requires CaseMap(lower)
    ensures Split(ToLower(lower, s), '.') == ToLowerAll(lower, Split(s, '.'))
    decreases |s|
  {
    var i := IndexOf(s, '.');
    var r := ToLower(lower, s);
    if i == |s| {
      assert s == s[..i];
      ToLowerKeeps(lower, s);
      SplitWhole(r, '.');
      SplitWhole(s, '.');
    } else {
      var h, t := s[..i], s[i + 1..];
      assert s == h + "." + t;
      ToLowerCut(lower, h, t);
      ToLowerKeeps(lower, h);
      SplitCut(ToLower(lower, h), '.', ToLower(lower, t));
      SplitCut(h, '.', t);
      SplitCommutes(lower, t);
      ToLowerAllCons(lower, h, Split(t, '.'));
    }
  }

  lemma ToLowerAllCons(lower: char -> char, part: string, parts: seq<string>)
    ensures ToLowerAll(lower, [part] + parts) == [ToLower(lower, part)] + ToLowerAll(lower, parts)
  {
  }

  lemma ToLowerCut(lower: char -> char, h: string, t: string)
    requires CaseMap(lower)
    ensures ToLower(lower, h + "." + t) == ToLower(lower, h) + "." + ToLower(lower, t)
  {
  }

  // One turn of the loop in ValidateExtension.
  predicate EntryMatches(lower: char -> char, blocked: string, name: string) {
    || ToLower(lower, blocked) == ToLower(lower, Ext(name))
    || Contains(ToLower(lower, name), ToLower(lower, blocked) + ".")
  }

  /**
   The blocking rule meets its specification: for an entry "." + w with w free of dots and
   slashes the two string tests of the loop reject a name exactly when one of its
   dot-separated segments after the first is w, whatever the case.
   */
  lemma BlockingIsSegmentMembership(lower: char -> char, w: string, name: string)
    requires CaseMap(lower) && '.' !in w && '/' !in w
    ensures EntryMatches(lower, "." + w, name) <==>
            exists k :: 1 <= k < |Split(name, '.')| && ToLower(lower, Split(name, '.')[k]) == ToLower(lower, w)
  {
    var lw := ToLower(lower, w);
    assert ToLower(lower, "." + w) == "." + lw;
    ToLowerKeeps(lower, w);
    ExtCommutes(lower, name);
    SplitCommutes(lower, name);
    SegmentFound(lw, ToLower(lower, name));
    var parts, lowered := Split(name, '.'), Split(ToLower(lower, name), '.');
    assert forall k | 1 <= k < |parts| :: ToLower(lower, parts[k]) == lowered[k] == lowered[1..][k - 1];
  }

  /**
   The admin API accepts every entry that starts with a dot, so an entry may hold a second
   dot. Such an entry never equals an extension: it is found only in front of another dot.
   */
  lemma CompoundEntryNeedsTrailingDot(lower: char -> char, blocked: string, name: string)
    requires CaseMap(lower) && |blocked| >= 1 && '.' in blocked[1..]
    ensures EntryMatches(lower, blocked, name) <==>
            Contains(ToLower(lower, name), ToLower(lower, blocked) + ".")
  {
    ExtShape(name);
    ToLowerKeeps(lower, blocked[1..]);
    assert ToLower(lower, blocked)[1..] == ToLower(lower, blocked[1..]);
    var e := Ext(name);
    if e != "" {
      ToLowerKeeps(lower, e[1..]);
      assert ToLower(lower, e)[1..] == ToLower(lower, e[1..]);
    }
  }

  /**
   What an entry the admin API accepts is good for can be told from the entry alone: it blocks
   every name that ends in it if and only if it has no further dot and no slash.
   */
  lemma EntryBlocksItsOwnExtensionIff(lower: char -> char, entry: string)
    requires CaseMap(lower) && entry != "" && entry[0] == '.'
    ensures (forall p :: EntryMatches(lower, entry, p + entry)) <==> '.' !in entry[1..] && '/' !in entry[1..]
  {
    if '.' !in entry[1..] && '/' !in entry[1..] {
      forall p
        ensures EntryMatches(lower, entry, p + entry)
      {
        ExtAfterLastDot(p, entry[1..]);
        assert entry == "." + entry[1..] && p + entry == p + "." + entry[1..];
      }
    } else {
      UnfitEntryMisses(lower, entry);
    }
  }

  // "x" + entry is then let through.
  lemma UnfitEntryMisses(lower: char -> char, entry: string)
    requires CaseMap(lower) && entry != "" && entry[0] == '.' && ('.' in entry[1..] || '/' in entry[1..])
    ensures !EntryMatches(lower, entry, "x" + entry)
  {
    var needle, name := ToLower(lower, entry) + ".", ToLower(lower, "x" + entry);
    assert lower('x') != '.';
    ContainsLength(name[1..], needle);
    assert name[0] == lower('x') && needle[0] == '.';
    if '.' in entry[1..] {
      CompoundEntryNeedsTrailingDot(lower, entry, "x" + entry);
    } else {
      assert "x" + entry == "x" + "." + entry[1..];
      ExtAfterLastDot("x", entry[1..]);
    }
  }

  // For instance:
  lemma CompoundEntryMissesItsOwnExtension(lower: char -> char)
    requires CaseMap(lower)
    ensures !EntryMatches(lower, ".a.b", "x.a.b")
    ensures EntryMatches(lower, ".a.b", "x.a.b.c")
  {
    assert ".a.b"[2] == '.' && "x" + ".a.b" == "x.a.b";
    UnfitEntryMisses(lower, ".a.b");
    var entry := ToLower(lower, ".a.b");
    var long := ToLower(lower, "x.a.b.c");
    assert long[1..] == (entry + ".") + [lower('c')];
  }
}
