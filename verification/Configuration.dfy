/** Lists in environment variables: entries separated by commas, with optional blanks. */
module Configuration {
  import opened Text
  import opened Validation

  method SplitAndTrim(space: char -> bool, raw: string) returns (result: seq<string>)
    ensures result == Normalized(space, Split(raw, ','))
  {
    var parts := Split(raw, ',');
    result := [];
    for i := 0 to |parts|
      invariant result == Normalized(space, parts[..i])
    {
      var trimmed := TrimSpace(space, parts[i]);
      assert parts[..i + 1][..i] == parts[..i];
      if trimmed != "" {
        result := result + [trimmed];
      }
    }
    assert parts[..|parts|] == parts;
  }

  function Join(entries: seq<string>): string {
    if entries == [] then "" else if |entries| == 1 then entries[0] else entries[0] + "," + Join(entries[1..])
  }

  lemma {:induction false} SplitJoin(entries: seq<string>)
    requires entries != [] && forall e | e in entries :: ',' !in e
    ensures Split(Join(entries), ',') == entries
  {
    if |entries| == 1 {
      SplitWhole(entries[0], ',');
    } else {
      assert entries == [entries[0]] + entries[1..];
      SplitJoin(entries[1..]);
      SplitCut(entries[0], ',', Join(entries[1..]));
    }
  }

  /** Any list of trimmed entries without commas, the empty one included, can be given this way. */
  lemma ListRoundTrip(space: char -> bool, entries: seq<string>)
    requires forall e | e in entries :: Trimmed(space, e) && ',' !in e
    ensures Normalized(space, Split(Join(entries), ',')) == entries
  {
    if entries == [] {
      SplitWhole("", ',');
    } else {
      SplitJoin(entries);
      NormalizedKeeps(space, entries);
    }
  }
}
