/** Upload rules: the validator every request consults and the settings they come from. */
module Validation {
  import opened Text
  import opened FileNames

  // A Go slice of strings: nil and the empty slice print alike but are not DeepEqual.
  datatype StringList = Nil | Of(items: seq<string>) {
    function Items(): seq<string> {
      if Nil? then [] else items
    }
  }

  // append([]string(nil), xs...)
  function Copied(list: StringList): StringList {
    if list.Items() == [] then Nil else Of(list.Items())
  }

  datatype Rules = Rules(maxSizeBytes: int, allowedMimeTypes: StringList, blockedExtensions: StringList)

  // Two rule sets that decide every upload alike.
  predicate SameRules(a: Rules, b: Rules) {
    && a.maxSizeBytes == b.maxSizeBytes
    && a.allowedMimeTypes.Items() == b.allowedMimeTypes.Items()
    && a.blockedExtensions.Items() == b.blockedExtensions.Items()
  }

  predicate MatchesMimePattern(pattern: string, mimeType: string) {
    || pattern == mimeType
    || (|pattern| >= 2 && pattern[|pattern| - 2..] == "/*" && pattern[..|pattern| - 1] <= mimeType)
  }

  function TopLevelMimeType(contentType: string): string {
    var i := IndexOf(contentType, '/');
    if i == 0 || i == |contentType| then "other" else contentType[..i]
  }

  // Where the first slash divides a content type, if it has one with something before it.
  lemma TopLevelMeans(contentType: string, head: string, tail: string)
    requires '/' !in head
    ensures contentType == head + "/" + tail && head != "" ==> TopLevelMimeType(contentType) == head
    ensures '/' !in contentType || contentType[0] == '/' ==> TopLevelMimeType(contentType) == "other"
  {
    IndexOfCut(head, '/', tail);
    assert (head + "/" + tail)[..|head|] == head;
    if '/' !in contentType {
      IndexOfNone(contentType, '/');
    }
  }

  // A pattern accepts itself and, if it ends in "/*", whatever begins with what precedes the star.
  lemma PatternMeans(pattern: string, mimeType: string)
    ensures MatchesMimePattern(pattern, mimeType) <==>
            pattern == mimeType || exists front, tail :: pattern == front + "/*" && mimeType == front + "/" + tail
  {
    var n := |pattern|;
    if n >= 2 && pattern[n - 2..] == "/*" && pattern[..n - 1] <= mimeType {
      var front, tail := pattern[..n - 2], mimeType[n - 1..];
      assert pattern == front + pattern[n - 2..] && pattern[..n - 1] == front + "/";
      assert mimeType == pattern[..n - 1] + tail;
      assert pattern == front + "/*" && mimeType == front + "/" + tail;
    }
    if front, tail :| pattern == front + "/*" && mimeType == front + "/" + tail {
      assert pattern[n - 2..] == "/*" && pattern[..n - 1] == front + "/";
    }
  }

  // A wildcard pattern accepts exactly the types whose part before the slash is its own.
  lemma WildcardMeansTopLevelType(major: string, mimeType: string)
    requires major != "" && '/' !in major && '/' in mimeType
    ensures MatchesMimePattern(major + "/*", mimeType) <==> TopLevelMimeType(mimeType) == major && mimeType[0] != '/'
  {
    var pattern := major + "/*";
    assert pattern[|pattern| - 2..] == "/*" && pattern[..|pattern| - 1] == major + "/";
    IndexOfFound(mimeType, '/');
    var i := IndexOf(mimeType, '/');
    var head, tail := mimeType[..i], mimeType[i + 1..];
    assert mimeType == head + "/" + tail;
    ClosedPrefix(major, head, '/', tail);
    assert pattern == mimeType ==> major + "/" <= mimeType;
  }

  ghost predicate Accepts(lower: char -> char, rules: Rules, name: string) {
    forall b | b in rules.blockedExtensions.Items() :: !EntryMatches(lower, b, name)
  }

  /**
   With entries of the form "." + w, w free of dots and slashes, the validator refuses a name
   exactly for one of its inner or last segments.
   */
  lemma AcceptedNames(lower: char -> char, rules: Rules, name: string)
    requires CaseMap(lower)
    requires forall b | b in rules.blockedExtensions.Items() ::
      |b| >= 1 && b[0] == '.' && '.' !in b[1..] && '/' !in b[1..]
    ensures Accepts(lower, rules, name) <==>
            forall b, k | b in rules.blockedExtensions.Items() && 1 <= k < |Split(name, '.')| ::
              b != "" && ToLower(lower, Split(name, '.')[k]) != ToLower(lower, b[1..])
  {
    if Accepts(lower, rules, name) {
      forall b, k | b in rules.blockedExtensions.Items() && 1 <= k < |Split(name, '.')|
        ensures b != "" && ToLower(lower, Split(name, '.')[k]) != ToLower(lower, b[1..])
      {
        EntryBlocks(lower, b, name);
        assert !EntryMatches(lower, b, name);
      }
    } else {
      var b :| b in rules.blockedExtensions.Items() && EntryMatches(lower, b, name);
      EntryBlocks(lower, b, name);
      var k :| 1 <= k < |Split(name, '.')| && ToLower(lower, Split(name, '.')[k]) == ToLower(lower, b[1..]);
    }
  }

  lemma EntryBlocks(lower: char -> char, b: string, name: string)
    requires CaseMap(lower) && |b| >= 1 && b[0] == '.' && '.' !in b[1..] && '/' !in b[1..]
    ensures EntryMatches(lower, b, name) <==>
            exists k :: 1 <= k < |Split(name, '.')| && ToLower(lower, Split(name, '.')[k]) == ToLower(lower, b[1..])
  {
    assert b == "." + b[1..];
    BlockingIsSegmentMembership(lower, b[1..], name);
  }

  class Validator {
    var rules: Rules
    const lower: char -> char

    constructor (lower: char -> char, maxSizeBytes: int, allowed: StringList, blocked: StringList)
      ensures SameRules(rules, Rules(maxSizeBytes, allowed, blocked)) && this.lower == lower
    {
      this.lower := lower;
      rules := Rules(maxSizeBytes, Copied(allowed), Copied(blocked));
    }

    // One pointer store: readers see the old rules or the new ones, whole.
    method Update(maxSizeBytes: int, allowed: StringList, blocked: StringList)
      modifies this
      ensures rules == Rules(maxSizeBytes, Copied(allowed), Copied(blocked))
      ensures SameRules(rules, Rules(maxSizeBytes, allowed, blocked))
      ensures rules.maxSizeBytes == maxSizeBytes
      ensures rules.allowedMimeTypes == if allowed.Nil? || allowed.items == [] then Nil else Of(allowed.items)
      ensures rules.blockedExtensions == if blocked.Nil? || blocked.items == [] then Nil else Of(blocked.items)
    {
      rules := Rules(maxSizeBytes, Copied(allowed), Copied(blocked));
    }

    method Snapshot() returns (maxSizeBytes: int, allowed: StringList, blocked: StringList)
      ensures rules == Rules(maxSizeBytes, allowed, blocked)
    {
      var r := rules;
      return r.maxSizeBytes, r.allowedMimeTypes, r.blockedExtensions;
    }

    method ValidateSize(sizeBytes: int) returns (ok: bool)
      ensures ok <==> 0 < sizeBytes <= rules.maxSizeBytes
    {
      var r := rules;
      if sizeBytes <= 0 { return false; }
      if sizeBytes > r.maxSizeBytes { return false; }
      return true;
    }

    method ValidateExtension(originalName: string) returns (ok: bool)
      ensures ok <==> Accepts(lower, rules, originalName)
      ensures ok <==> forall b | b in rules.blockedExtensions.Items() ::
                ToLower(lower, b) != ToLower(lower, Ext(originalName))
                && forall before, after ::
                  ToLower(lower, originalName) != before + (ToLower(lower, b) + ".") + after
    {
      var r := rules;
      var lowerName := ToLower(lower, originalName);
      var extension := ToLower(lower, Ext(originalName));
      var blocked := r.blockedExtensions.Items();
      for i := 0 to |blocked|
        invariant forall j | 0 <= j < i :: !EntryMatches(lower, blocked[j], originalName)
      {
        var blockedLower := ToLower(lower, blocked[i]);
        if blockedLower == extension {
          assert EntryMatches(lower, blocked[i], originalName);
          return false;
        }
        if Contains(lowerName, blockedLower + ".") {
          assert EntryMatches(lower, blocked[i], originalName);
          ContainsMeans(lowerName, blockedLower + ".");
          return false;
        }
      }
      forall b | b in blocked {
        ContainsMeans(lowerName, ToLower(lower, b) + ".");
      }
      return true;
    }

    method IsMimeTypeAllowed(mimeType: string) returns (ok: bool)
      ensures ok <==> exists p :: p in rules.allowedMimeTypes.Items() && MatchesMimePattern(p, mimeType)
      ensures ok <==>
              || mimeType in rules.allowedMimeTypes.Items()
              || exists front, tail :: front + "/*" in rules.allowedMimeTypes.Items() && mimeType == front + "/" + tail
    {
      forall p {
        PatternMeans(p, mimeType);
      }
      var patterns := rules.allowedMimeTypes.Items();
      for i := 0 to |patterns|
        invariant forall j | 0 <= j < i :: !MatchesMimePattern(patterns[j], mimeType)
      {
        if MatchesMimePattern(patterns[i], mimeType) { return true; }
      }
      return false;
    }
  }

  // strings.TrimSpace, for a given notion of white space.
  function TrimLeft(space: char -> bool, s: string): string {
    if s != [] && space(s[0]) then TrimLeft(space, s[1..]) else s
  }

  function TrimRight(space: char -> bool, s: string): string {
    if s != [] && space(s[|s| - 1]) then TrimRight(space, s[..|s| - 1]) else s
  }

  function TrimSpace(space: char -> bool, s: string): string {
    TrimRight(space, TrimLeft(space, s))
  }

  predicate Trimmed(space: char -> bool, s: string) {
    s != "" && !space(s[0]) && !space(s[|s| - 1])
  }

  lemma {:induction false} TrimRightShape(space: char -> bool, s: string)
    ensures TrimRight(space, s) <= s
    ensures TrimRight(space, s) != "" ==> !space(TrimRight(space, s)[|TrimRight(space, s)| - 1])
    decreases |s|
  {
    if s != [] && space(s[|s| - 1]) { TrimRightShape(space, s[..|s| - 1]); }
  }

  lemma {:induction false} TrimLeftShape(space: char -> bool, s: string)
    ensures TrimLeft(space, s) != "" ==> !space(TrimLeft(space, s)[0])
  {
    if s != [] && space(s[0]) { TrimLeftShape(space, s[1..]); }
  }

  lemma TrimShape(space: char -> bool, s: string)
    ensures TrimSpace(space, s) == "" || Trimmed(space, TrimSpace(space, s))
    ensures Trimmed(space, s) ==> TrimSpace(space, s) == s
  {
    TrimLeftShape(space, s);
    TrimRightShape(space, TrimLeft(space, s));
  }

  lemma {:induction false} TrimLeftTakes(space: char -> bool, s: string) returns (left: string)
    ensures s == left + TrimLeft(space, s) && forall i | 0 <= i < |left| :: space(left[i])
  {
    left := "";
    if s != [] && space(s[0]) {
      left := TrimLeftTakes(space, s[1..]);
      left := [s[0]] + left;
    }
  }

  lemma {:induction false} TrimRightTakes(space: char -> bool, s: string) returns (right: string)
    ensures s == TrimRight(space, s) + right && forall i | 0 <= i < |right| :: space(right[i])
    decreases |s|
  {
    right := "";
    if s != [] && space(s[|s| - 1]) {
      right := TrimRightTakes(space, s[..|s| - 1]);
      right := right + [s[|s| - 1]];
    }
  }

  /** Trimming takes white space off both ends, and all of it. */
  lemma TrimTakesSpaceOnly(space: char -> bool, s: string) returns (left: string, right: string)
    ensures s == left + TrimSpace(space, s) + right
    ensures (forall i | 0 <= i < |left| :: space(left[i])) && (forall i | 0 <= i < |right| :: space(right[i]))
    ensures var t := TrimSpace(space, s); t == "" || (!space(t[0]) && !space(t[|t| - 1]))
  {
    left := TrimLeftTakes(space, s);
    right := TrimRightTakes(space, TrimLeft(space, s));
    TrimShape(space, s);
  }

  // The entries of a list that are not blank, trimmed, in order.
  function Normalized(space: char -> bool, values: seq<string>): seq<string> {
    if values == [] then []
    else
      var trimmed := TrimSpace(space, values[|values| - 1]);
      Normalized(space, values[..|values| - 1]) + if trimmed == "" then [] else [trimmed]
  }

  lemma {:induction false} NormalizedEntries(space: char -> bool, values: seq<string>)
    ensures forall v | v in Normalized(space, values) :: Trimmed(space, v)
    ensures forall v | v in values && TrimSpace(space, v) != "" :: TrimSpace(space, v) in Normalized(space, values)
  {
    if values != [] {
      var init, last := values[..|values| - 1], values[|values| - 1];
      NormalizedEntries(space, init);
      TrimShape(space, last);
      assert values == init + [last];
    }
  }

  /** Entry by entry: a blank one goes, any other is trimmed and stays in its place. */
  lemma {:induction false} NormalizedInOrder(space: char -> bool, before: seq<string>, value: string,
                                             after: seq<string>)
    ensures Normalized(space, []) == []
    ensures Normalized(space, before + [value] + after)
         == Normalized(space, before) + (if TrimSpace(space, value) == "" then [] else [TrimSpace(space, value)])
          + Normalized(space, after)
    decreases |after|
  {
    var whole := before + [value] + after;
    if after == [] {
      assert whole[..|whole| - 1] == before;
    } else {
      assert whole[..|whole| - 1] == before + [value] + after[..|after| - 1];
      NormalizedInOrder(space, before, value, after[..|after| - 1]);
    }
  }

  // A list of trimmed entries is left as it is; so normalising twice changes nothing more.
  lemma {:induction false} NormalizedKeeps(space: char -> bool, values: seq<string>)
    requires forall v | v in values :: Trimmed(space, v)
    ensures Normalized(space, values) == values
  {
    if values != [] {
      var init, last := values[..|values| - 1], values[|values| - 1];
      assert values == init + [last] && last in values;
      NormalizedKeeps(space, init);
      TrimShape(space, last);
      assert TrimSpace(space, last) == last;
    }
  }

  lemma NormalizingTwice(space: char -> bool, values: seq<string>)
    ensures Normalized(space, Normalized(space, values)) == Normalized(space, values)
  {
    NormalizedEntries(space, values);
    NormalizedKeeps(space, Normalized(space, values));
  }

  method NormalizeStringList(space: char -> bool, values: seq<string>) returns (result: seq<string>)
    ensures result == Normalized(space, values)
  {
    result := [];
    for i := 0 to |values|
      invariant result == Normalized(space, values[..i])
    {
      var trimmed := TrimSpace(space, values[i]);
      assert values[..i + 1][..i] == values[..i];
      if trimmed != "" {
        result := result + [trimmed];
      }
    }
    assert values[..|values|] == values;
  }

  datatype SettingsInput =
    SettingsInput(maxUploadSizeMB: int, allowedMimeTypes: seq<string>, blockedExtensions: seq<string>)

  datatype SettingsError = SizeNotPositive | SizeTooLarge | NoMimeTypes | EntryWithoutDot(entry: string)

  datatype Checked = Accepted(settings: SettingsInput) | Refused(error: SettingsError)

  const MAX_UPLOAD_SIZE_MB_CEILING := 10240

  method ValidateUploadSettings(space: char -> bool, input: SettingsInput) returns (r: Checked)
    ensures r.Accepted? <==>
            && 0 < input.maxUploadSizeMB <= 10240
            && Normalized(space, input.allowedMimeTypes) != []
            && forall e | e in Normalized(space, input.blockedExtensions) :: "." <= e
    ensures r.Accepted? ==> r.settings == SettingsInput(input.maxUploadSizeMB,
              Normalized(space, input.allowedMimeTypes), Normalized(space, input.blockedExtensions))
    ensures r == Refused(SizeNotPositive) <==> input.maxUploadSizeMB <= 0
    ensures r == Refused(SizeTooLarge) <==> input.maxUploadSizeMB > 10240
    ensures r == Refused(NoMimeTypes) ==> Normalized(space, input.allowedMimeTypes) == []
    ensures r.Refused? && r.error.EntryWithoutDot? ==>
              r.error.entry in Normalized(space, input.blockedExtensions) && !("." <= r.error.entry)
  {
    NormalizedEntries(space, input.blockedExtensions);
    if input.maxUploadSizeMB <= 0 { return Refused(SizeNotPositive); }
    if input.maxUploadSizeMB > MAX_UPLOAD_SIZE_MB_CEILING { return Refused(SizeTooLarge); }
    var allowedMimeTypes := NormalizeStringList(space, input.allowedMimeTypes);
    if |allowedMimeTypes| == 0 { return Refused(NoMimeTypes); }
    var blockedExtensions := NormalizeStringList(space, input.blockedExtensions);
    for i := 0 to |blockedExtensions|
      invariant forall j | 0 <= j < i :: "." <= blockedExtensions[j]
    {
      var ext := blockedExtensions[i];
      assert ext in blockedExtensions;
      if !("." <= ext) { return Refused(EntryWithoutDot(ext)); }
    }
    return Accepted(SettingsInput(input.maxUploadSizeMB, allowedMimeTypes, blockedExtensions));
  }
}
