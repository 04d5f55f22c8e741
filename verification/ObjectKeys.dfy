/**
 Object keys: yyyy/mm/dd/<id><extension>. The parts can be read back from the key, so keys of
 different files differ, and a key keeps an accepted file name acceptable.
 */
module ObjectKeys {
  import opened Text
  import opened FileNames
  import opened Validation

  datatype Date = Date(year: nat, month: nat, day: nat)

  datatype KeyParts = KeyParts(date: Date, id: string, extension: string)

  function Digit(d: nat): char
    requires d < 10
  {
    "0123456789"[d]
  }

  function DigitValue(c: char): nat {
    if '0' <= c <= '9' then (c as int) - ('0' as int) else 0
  }

  function Decimal(n: nat): string {
    if n < 10 then [Digit(n)] else Decimal(n / 10) + [Digit(n % 10)]
  }

  function ParseDecimal(s: string): nat {
    if s == [] then 0 else 10 * ParseDecimal(s[..|s| - 1]) + DigitValue(s[|s| - 1])
  }

  // fmt's %0<width>d for a number that is not negative.
  function Padded(n: nat, width: nat): string {
    Zeros(width - |Decimal(n)|) + Decimal(n)
  }

  function Zeros(n: int): string
  {
    if n <= 0 then "" else Zeros(n - 1) + "0"
  }

  lemma LastDigit(n: nat, width: nat)
    requires width >= 2
    ensures Padded(n, width) == Padded(n / 10, width - 1) + ["0123456789"[n % 10]]
  {
    if n < 10 {
      assert Decimal(n / 10) == "0" && Zeros(width - 1) == Zeros(width - 2) + "0";
    } else {
      assert Decimal(n) == Decimal(n / 10) + ["0123456789"[n % 10]];
    }
  }

  lemma OneDigit(n: nat)
    requires n < 10
    ensures Padded(n, 1) == ["0123456789"[n]]
  {
  }

  lemma TwoDigits(n: nat)
    requires n < 100
    ensures Padded(n, 2) == ["0123456789"[n / 10], "0123456789"[n % 10]]
  {
    LastDigit(n, 2);
    OneDigit(n / 10);
  }

  lemma ThreeDigits(n: nat)
    requires n < 1000
    ensures Padded(n, 3) == ["0123456789"[n / 100], "0123456789"[n / 10 % 10], "0123456789"[n % 10]]
  {
    LastDigit(n, 3);
    TwoDigits(n / 10);
    assert n / 10 / 10 == n / 100;
  }

  lemma FourDigits(n: nat)
    requires n < 10000
    ensures Padded(n, 4)
         == ["0123456789"[n / 1000], "0123456789"[n / 100 % 10], "0123456789"[n / 10 % 10], "0123456789"[n % 10]]
  {
    LastDigit(n, 4);
    ThreeDigits(n / 10);
    assert n / 10 / 100 == n / 1000 && n / 10 / 10 == n / 100;
  }

  function BuildObjectKey(date: Date, id: string, originalName: string): string {
    Padded(date.year, 4) + "/" + (Padded(date.month, 2) + "/" + (Padded(date.day, 2) + "/" + (id + Ext(originalName))))
  }

  /** The layout yyyy/mm/dd/<id><extension>, up to the year 9999. */
  lemma KeyLayout(date: Date, id: string, originalName: string)
    requires date.year < 10000 && date.month < 100 && date.day < 100
    ensures var d := "0123456789";
      BuildObjectKey(date, id, originalName)
      == [d[date.year / 1000], d[date.year / 100 % 10], d[date.year / 10 % 10], d[date.year % 10], '/']
         + [d[date.month / 10], d[date.month % 10], '/', d[date.day / 10], d[date.day % 10], '/']
         + id + Ext(originalName)
  {
    FourDigits(date.year);
    TwoDigits(date.month);
    TwoDigits(date.day);
  }

  // Read a key back: three numbers up to a slash each, then the id up to the first dot.
  function ParseObjectKey(key: string): KeyParts {
    var (year, rest) := Cut(key, '/');
    var (month, rest) := Cut(rest, '/');
    var (day, rest) := Cut(rest, '/');
    var dot := IndexOf(rest, '.');
    KeyParts(Date(ParseDecimal(year), ParseDecimal(month), ParseDecimal(day)), rest[..dot], rest[dot..])
  }

  // strings.Cut
  function Cut(s: string, c: char): (string, string) {
    var i := IndexOf(s, c);
    if i == |s| then (s, "") else (s[..i], s[i + 1..])
  }

  predicate OnlyDigits(s: string) {
    forall i | 0 <= i < |s| :: '0' <= s[i] <= '9'
  }

  lemma {:induction false} DecimalRoundTrip(n: nat)
    ensures OnlyDigits(Decimal(n)) && ParseDecimal(Decimal(n)) == n
  {
    if n >= 10 {
      DecimalRoundTrip(n / 10);
      assert Decimal(n)[..|Decimal(n)| - 1] == Decimal(n / 10);
    }
  }

  lemma ParseOneMore(s: string, c: char)
    ensures ParseDecimal(s + [c]) == 10 * ParseDecimal(s) + DigitValue(c)
  {
    assert (s + [c])[..|s + [c]| - 1] == s;
  }

  lemma {:induction false} ZerosAreZero(n: int)
    ensures OnlyDigits(Zeros(n)) && ParseDecimal(Zeros(n)) == 0
  {
    if n > 0 {
      ZerosAreZero(n - 1);
      ParseOneMore(Zeros(n - 1), '0');
    }
  }

  lemma {:induction false} ZerosParse(n: int, digits: string)
    requires OnlyDigits(digits)
    ensures OnlyDigits(Zeros(n) + digits) && ParseDecimal(Zeros(n) + digits) == ParseDecimal(digits)
    decreases |digits|
  {
    ZerosAreZero(n);
    if digits == [] {
      assert Zeros(n) + digits == Zeros(n);
    } else {
      var init, last := digits[..|digits| - 1], digits[|digits| - 1];
      ZerosParse(n, init);
      assert Zeros(n) + digits == (Zeros(n) + init) + [last] && digits == init + [last];
      ParseOneMore(Zeros(n) + init, last);
      ParseOneMore(init, last);
    }
  }

  lemma DigitsOnly(s: string)
    requires OnlyDigits(s)
    ensures '/' !in s && '.' !in s
  {
  }

  lemma PaddedRoundTrip(n: nat, width: nat)
    ensures ParseDecimal(Padded(n, width)) == n
    ensures '/' !in Padded(n, width) && '.' !in Padded(n, width)
  {
    DecimalRoundTrip(n);
    ZerosParse(width - |Decimal(n)|, Decimal(n));
    DigitsOnly(Padded(n, width));
  }

  lemma CutAt(a: string, c: char, b: string)
    requires c !in a
    ensures Cut(a + [c] + b, c) == (a, b)
  {
    IndexOfCut(a, c, b);
    var s := a + [c] + b;
    assert s[..|a|] == a && s[|a| + 1..] == b;
  }

  /** Date, id and extension are recoverable from the key of any file whose id has no dot. */
  lemma ObjectKeyRoundTrip(date: Date, id: string, name: string)
    requires '.' !in id
    ensures ParseObjectKey(BuildObjectKey(date, id, name)) == KeyParts(date, id, Ext(name))
  {
    var y, m, d, e := Padded(date.year, 4), Padded(date.month, 2), Padded(date.day, 2), Ext(name);
    PaddedRoundTrip(date.year, 4);
    PaddedRoundTrip(date.month, 2);
    PaddedRoundTrip(date.day, 2);
    CutAt(y, '/', m + "/" + (d + "/" + (id + e)));
    CutAt(m, '/', d + "/" + (id + e));
    CutAt(d, '/', id + e);
    IdBeforeDot(id, name);
  }

  lemma IdBeforeDot(id: string, name: string)
    requires '.' !in id
    ensures IndexOf(id + Ext(name), '.') == |id|
    ensures (id + Ext(name))[..|id|] == id && (id + Ext(name))[|id|..] == Ext(name)
  {
    ExtShape(name);
    FirstDot(id, Ext(name));
  }

  lemma Halves(a: string, b: string)
    ensures (a + b)[..|a|] == a && (a + b)[|a|..] == b
  {
  }

  lemma FirstDot(id: string, e: string)
    requires '.' !in id && (e == "" || e[0] == '.')
    ensures IndexOf(id + e, '.') == |id| && (id + e)[..|id|] == id && (id + e)[|id|..] == e
  {
    Halves(id, e);
    DotIndex(id, e);
  }

  lemma DotIndex(id: string, e: string)
    requires '.' !in id && (e == "" || e[0] == '.')
    ensures IndexOf(id + e, '.') == |id|
  {
    if e == "" {
      assert id + e == id;
      IndexOfNone(id, '.');
    } else {
      assert id + e == id + "." + e[1..];
      IndexOfCut(id, '.', e[1..]);
    }
  }

  lemma DifferentIdsDifferentKeys(d1: Date, id1: string, n1: string, d2: Date, id2: string, n2: string)
    requires '.' !in id1 && '.' !in id2 && id1 != id2
    ensures BuildObjectKey(d1, id1, n1) != BuildObjectKey(d2, id2, n2)
  {
    ObjectKeyRoundTrip(d1, id1, n1);
    ObjectKeyRoundTrip(d2, id2, n2);
  }

  // Everything before the extension.
  function KeyFront(date: Date, id: string): string {
    Padded(date.year, 4) + "/" + (Padded(date.month, 2) + "/" + (Padded(date.day, 2) + "/" + id))
  }

  lemma FourParts(y: string, m: string, d: string, id: string, e: string)
    ensures y + "/" + (m + "/" + (d + "/" + (id + e))) == (y + "/" + (m + "/" + (d + "/" + id))) + e
  {
    assert d + "/" + (id + e) == (d + "/" + id) + e;
    assert m + "/" + ((d + "/" + id) + e) == (m + "/" + (d + "/" + id)) + e;
    assert y + "/" + ((m + "/" + (d + "/" + id)) + e) == (y + "/" + (m + "/" + (d + "/" + id))) + e;
  }

  lemma KeyFrontHasNoDot(date: Date, id: string)
    requires '.' !in id
    ensures '.' !in KeyFront(date, id)
  {
    PaddedRoundTrip(date.year, 4);
    PaddedRoundTrip(date.month, 2);
    PaddedRoundTrip(date.day, 2);
  }

  lemma KeyParted(date: Date, id: string, name: string)
    requires '.' !in id
    ensures BuildObjectKey(date, id, name) == KeyFront(date, id) + Ext(name) && '.' !in KeyFront(date, id)
  {
    FourParts(Padded(date.year, 4), Padded(date.month, 2), Padded(date.day, 2), id, Ext(name));
    KeyFrontHasNoDot(date, id);
  }

  lemma KeyKeepsExtension(date: Date, id: string, name: string)
    requires '.' !in id
    ensures Ext(BuildObjectKey(date, id, name)) == Ext(name)
  {
    KeyParted(date, id, name);
    ExtShape(name);
    ExtOfParts(KeyFront(date, id), Ext(name));
  }

  lemma ExtOfParts(front: string, e: string)
    requires '.' !in front && (e == "" || (e[0] == '.' && '.' !in e[1..] && '/' !in e[1..]))
    ensures Ext(front + e) == e
  {
    if e == "" {
      assert front + e == front;
      ExtWithoutDot(front);
    } else {
      assert e == "." + e[1..] && front + e == front + "." + e[1..];
      ExtAfterLastDot(front, e[1..]);
    }
  }

  // A text with a dot at either end is not found in one with a single dot.
  lemma OneDotHasNoPair(front: string, w: string, needle: string)
    requires '.' !in front && '.' !in w && |needle| >= 2 && needle[0] == '.' && needle[|needle| - 1] == '.'
    ensures !Contains(front + "." + w, needle)
  {
    ContainsCut(front, '.', w, needle);
    if Contains(w, needle) { ContainsChars(w, needle, '.'); }
    assert needle[1..][|needle| - 2] == '.' && ("." + w)[1..] == w;
    PrefixTail(needle, "." + w);
    PrefixChars(needle[1..], w, '.');
  }

  // The same of what stands in front of an extension, and the extension.
  lemma NameWithOneDot(lower: char -> char, front: string, e: string, needle: string)
    requires CaseMap(lower) && '.' !in front && (e == "" || (e[0] == '.' && '.' !in e[1..]))
    requires |needle| >= 2 && needle[0] == '.' && needle[|needle| - 1] == '.'
    ensures !Contains(ToLower(lower, front + e), needle)
  {
    ToLowerKeeps(lower, front);
    if e == "" {
      assert front + e == front;
      if Contains(ToLower(lower, front), needle) { ContainsChars(ToLower(lower, front), needle, '.'); }
    } else {
      assert front + e == front + "." + e[1..];
      ToLowerKeeps(lower, e[1..]);
      ToLowerCut(lower, front, e[1..]);
      OneDotHasNoPair(ToLower(lower, front), ToLower(lower, e[1..]), needle);
    }
  }

  // Whatever else the entry holds.
  lemma DottedEntryOnKey(lower: char -> char, entry: string, date: Date, id: string, name: string)
    requires CaseMap(lower) && '.' !in id && entry != "" && entry[0] == '.'
    ensures !Contains(ToLower(lower, BuildObjectKey(date, id, name)), ToLower(lower, entry) + ".")
  {
    KeyParted(date, id, name);
    ExtShape(name);
    NameWithOneDot(lower, KeyFront(date, id), Ext(name), ToLower(lower, entry) + ".");
  }

  /**
   The key of an accepted name is accepted under the same rules, if every entry starts with a
   dot, which the admin API insists on; entries with further dots or slashes do no harm here.
   */
  lemma KeyOfAcceptedNameIsAccepted(lower: char -> char, rules: Rules, date: Date, id: string, name: string)
    requires CaseMap(lower) && '.' !in id && Accepts(lower, rules, name)
    requires forall b | b in rules.blockedExtensions.Items() :: b != "" && b[0] == '.'
    ensures Accepts(lower, rules, BuildObjectKey(date, id, name))
  {
    KeyKeepsExtension(date, id, name);
    forall b | b in rules.blockedExtensions.Items()
      ensures !EntryMatches(lower, b, BuildObjectKey(date, id, name))
    {
      DottedEntryOnKey(lower, b, date, id, name);
      assert !EntryMatches(lower, b, name);
    }
  }

  // The id a key was built from.
  function KeyId(key: string): string {
    ParseObjectKey(key).id
  }

  lemma KeyIdOfBuilt(date: Date, id: string, name: string)
    requires '.' !in id
    ensures KeyId(BuildObjectKey(date, id, name)) == id
  {
    ObjectKeyRoundTrip(date, id, name);
  }
}
