/**
 How upload settings reach the instances: an admin commits the one settings row and tells the
 validator of its own instance; every other instance polls the row.
 */
module Settings {
  import opened Metadata
  import opened Validation

  // The row of `upload_settings`; its lists come back from JSON.
  datatype UploadSettings =
    UploadSettings(maxUploadSizeMB: int, allowedMimeTypes: StringList, blockedExtensions: StringList)

  function MaxSizeBytes(s: UploadSettings): int {
    s.maxUploadSizeMB * 1024 * 1024
  }

  // These rules decide every upload as the settings say.
  predicate DecidesBy(rules: Rules, s: UploadSettings) {
    && rules.maxSizeBytes == s.maxUploadSizeMB * 1024 * 1024
    && rules.allowedMimeTypes.Items() == s.allowedMimeTypes.Items()
    && rules.blockedExtensions.Items() == s.blockedExtensions.Items()
  }

  // The rules a settings row stands for.
  function RulesOf(s: UploadSettings): Rules {
    Rules(MaxSizeBytes(s), Copied(s.allowedMimeTypes), Copied(s.blockedExtensions))
  }

  class SettingsStore {
    var row: Option<UploadSettings>

    method Fails(callsSucceed: bool) returns (fails: bool)
      ensures callsSucceed ==> !fails
    {
      fails := *;
      fails := fails && !callsSucceed;
    }

    // Any statement may fail, unless `callsSucceed`.
    method GetUploadSettings(callsSucceed: bool) returns (found: Option<UploadSettings>)
      ensures found.Some? || callsSucceed ==> found == row
    {
      var fails := Fails(callsSucceed);
      return if fails then None else row;
    }

    method SeedUploadSettingsIfMissing(settings: UploadSettings, callsSucceed: bool) returns (ok: bool)
      modifies this
      ensures old(row).Some? ==> row == old(row)
      ensures old(row).None? ==> row == Some(settings) || (!ok && row == None)
      ensures callsSucceed ==> ok
    {
      var fails := Fails(callsSucceed);
      if fails { return false; }
      if row.None? { row := Some(settings); }
      fails := Fails(callsSucceed);
      return !fails;
    }

    // No row, no update; an error may follow a commit.
    method UpdateUploadSettings(settings: UploadSettings, callsSucceed: bool) returns (ok: bool)
      modifies this
      ensures old(row).None? ==> !ok && row == None
      ensures row == Some(settings) || (!ok && row == old(row))
      ensures callsSucceed && old(row).Some? ==> ok
    {
      var fails := Fails(callsSucceed);
      if fails { return false; }
      if row.None? { return false; }
      row := Some(settings);
      fails := Fails(callsSucceed);
      return !fails;
    }
  }

  class SettingsSynchronizer {
    const repository: SettingsStore
    const validator: Validator

    constructor (repository: SettingsStore, validator: Validator)
      ensures this.repository == repository && this.validator == validator
    {
      this.repository := repository;
      this.validator := validator;
    }

    // Poll once. `wrote` tells whether the validator was updated.
    method SyncOnce(callsSucceed: bool) returns (read: bool, wrote: bool)
      modifies validator
      ensures callsSucceed && repository.row.Some? ==> read
      ensures read ==>
        var s, rules := repository.row, validator.rules;
        && s.Some? && rules.maxSizeBytes == s.value.maxUploadSizeMB * 1024 * 1024
        && rules.allowedMimeTypes.Items() == s.value.allowedMimeTypes.Items()
        && rules.blockedExtensions.Items() == s.value.blockedExtensions.Items()
      ensures wrote ==> read && validator.rules == RulesOf(repository.row.value)
      ensures !wrote ==> validator.rules == old(validator.rules)
      ensures read ==>
        var s, was := repository.row.value, old(validator.rules);
        !wrote <==> was.maxSizeBytes == s.maxUploadSizeMB * 1024 * 1024
                    && was.allowedMimeTypes == s.allowedMimeTypes && was.blockedExtensions == s.blockedExtensions
    {
      var found := repository.GetUploadSettings(callsSucceed);
      if found.None? { return false, false; }
      var settings := found.value;
      var maxSize, allowed, blocked := validator.Snapshot();
      var newMaxSize := settings.maxUploadSizeMB * 1024 * 1024;
      if newMaxSize == maxSize && allowed == settings.allowedMimeTypes && blocked == settings.blockedExtensions {
        return true, false;
      }
      validator.Update(newMaxSize, settings.allowedMimeTypes, settings.blockedExtensions);
      return true, true;
    }
  }

  // The comparison of the poll, reflect.DeepEqual on both lists.
  predicate Unchanged(rules: Rules, s: UploadSettings) {
    rules == Rules(MaxSizeBytes(s), s.allowedMimeTypes, s.blockedExtensions)
  }

  /**
   A poll that has just brought the validator up to date leaves the next poll of the same row
   nothing to write if and only if neither list is a non-nil empty one: for an empty list the
   comparison never succeeds and the validator is rewritten at every tick.
   */
  lemma PollSettlesUnlessAListIsEmpty(s: UploadSettings)
    ensures Unchanged(RulesOf(s), s) <==> s.allowedMimeTypes != Of([]) && s.blockedExtensions != Of([])
  {
  }

  // handler.UpdateUploadSettings: commit to the row, then tell the local validator.
  method UpdateUploadSettings(space: char -> bool, repository: SettingsStore, local: Validator, input: SettingsInput,
                              callsSucceed: bool)
    returns (r: Checked, stored: bool)
    modifies repository, local
    ensures r.Accepted? <==>
            && 0 < input.maxUploadSizeMB <= 10240 && Normalized(space, input.allowedMimeTypes) != []
            && forall e | e in Normalized(space, input.blockedExtensions) :: e != "" && e[0] == '.'
    ensures r.Accepted? && old(repository.row).Some? && callsSucceed ==> stored
    ensures stored ==>
      && r.Accepted? && r.settings.maxUploadSizeMB == input.maxUploadSizeMB
      && local.rules.maxSizeBytes == input.maxUploadSizeMB * 1024 * 1024
      && local.rules.allowedMimeTypes.Items() == r.settings.allowedMimeTypes
         == Normalized(space, input.allowedMimeTypes)
      && local.rules.blockedExtensions.Items() == r.settings.blockedExtensions
         == Normalized(space, input.blockedExtensions)
    ensures stored ==> repository.row == Some(UploadSettings(r.settings.maxUploadSizeMB,
              Of(r.settings.allowedMimeTypes), Of(r.settings.blockedExtensions)))
    // an update that reports an error may be in the row all the same, for the pollers to find
    ensures !stored ==> local.rules == old(local.rules)
    ensures r.Refused? || old(repository.row).None? ==> !stored && repository.row == old(repository.row)
    ensures !stored && r.Accepted? ==>
      || repository.row == old(repository.row)
      || repository.row == Some(UploadSettings(r.settings.maxUploadSizeMB,
              Of(r.settings.allowedMimeTypes), Of(r.settings.blockedExtensions)))
  {
    r := ValidateUploadSettings(space, input);
    if r.Refused? { return r, false; }
    var settings := UploadSettings(r.settings.maxUploadSizeMB,
                                   Of(r.settings.allowedMimeTypes), Of(r.settings.blockedExtensions));
    stored := repository.UpdateUploadSettings(settings, callsSucceed);
    if stored {
      local.Update(settings.maxUploadSizeMB * 1024 * 1024, settings.allowedMimeTypes, settings.blockedExtensions);
    }
  }

  /* Propagation is seen from one instance; the others act on it only through the row. */
  datatype Instance = Instance(
    past: seq<UploadSettings>,          // earlier values of the row
    row: UploadSettings,
    rules: Rules,                       // of this instance's validator
    polled: Option<UploadSettings>,     // read by the poller, not applied yet
    callbacks: seq<UploadSettings>)     // committed here, the callback not run yet
  {
    predicate Committed(s: UploadSettings) {
      s in past || s == row
    }
  }

  datatype Event =
    | CommitHere(settings: UploadSettings)
    | CommitElsewhere(settings: UploadSettings)
    | Callback(which: nat)
    | PollRead
    | PollApply
    | Restart

  function DropAt<T>(s: seq<T>, i: nat): seq<T>
    requires i < |s|
  {
    s[..i] + s[i + 1..]
  }

  // What an event does; one that is not possible in a state does nothing.
  function Next(i: Instance, e: Event): Instance {
    match e
    case CommitHere(settings) => i.(past := i.past + [i.row], row := settings, callbacks := i.callbacks + [settings])
    case CommitElsewhere(settings) => i.(past := i.past + [i.row], row := settings)
    case Callback(which) =>
      if which >= |i.callbacks| then i
      else i.(rules := RulesOf(i.callbacks[which]), callbacks := DropAt(i.callbacks, which))
    case PollRead => if i.polled.Some? then i else i.(polled := Some(i.row))
    case PollApply =>
      if i.polled.None? then i
      else i.(rules := if Unchanged(i.rules, i.polled.value) then i.rules else RulesOf(i.polled.value), polled := None)
    case Restart => i.(rules := RulesOf(i.row), polled := None, callbacks := [])
  }

  function After(i: Instance, run: seq<Event>): Instance
    decreases |run|
  {
    if run == [] then i else Next(After(i, run[..|run| - 1]), run[|run| - 1])
  }

  // The validator decides as one committed row does, and only committed rows are on the way.
  ghost predicate Whole(i: Instance) {
    && (exists s :: i.Committed(s) && DecidesBy(i.rules, s))
    && (i.polled.Some? ==> i.Committed(i.polled.value))
    && (forall s | s in i.callbacks :: i.Committed(s))
  }

  lemma CommittedStays(i: Instance, e: Event, s: UploadSettings)
    requires i.Committed(s)
    ensures Next(i, e).Committed(s)
  {
  }

  lemma StepWhole(i: Instance, e: Event)
    requires Whole(i)
    ensures Whole(Next(i, e))
  {
    var i' := Next(i, e);
    StepRules(i, e);
    if i.polled.Some? { CommittedStays(i, e, i.polled.value); }
    forall s | s in i'.callbacks
      ensures i'.Committed(s)
    {
      if s in i.callbacks { CommittedStays(i, e, s); }
    }
  }

  lemma StepRules(i: Instance, e: Event)
    requires Whole(i)
    ensures exists s :: Next(i, e).Committed(s) && DecidesBy(Next(i, e).rules, s)
  {
    var s :| i.Committed(s) && DecidesBy(i.rules, s);
    var cause :=
      if e.Callback? && e.which < |i.callbacks| then i.callbacks[e.which]
      else if e.PollApply? && i.polled.Some? then i.polled.value
      else if e.Restart? then i.row
      else s;
    CommittedStays(i, e, cause);
    assert DecidesBy(Next(i, e).rules, cause);
  }

  lemma {:induction false} StaysWhole(i: Instance, run: seq<Event>)
    requires Whole(i)
    ensures Whole(After(i, run))
    decreases |run|
  {
    if run != [] {
      StaysWhole(i, run[..|run| - 1]);
      StepWhole(After(i, run[..|run| - 1]), run[|run| - 1]);
    }
  }

  /** At all times the validator holds one whole committed value, never a mix of two. */
  lemma ValidatorHoldsAWholeCommittedValue(i: Instance, run: seq<Event>) returns (s: UploadSettings)
    requires Whole(i)
    ensures Whole(After(i, run)) && (s in After(i, run).past || s == After(i, run).row)
    ensures var rules := After(i, run).rules;
      && rules.maxSizeBytes == s.maxUploadSizeMB * 1024 * 1024
      && rules.allowedMimeTypes.Items() == s.allowedMimeTypes.Items()
      && rules.blockedExtensions.Items() == s.blockedExtensions.Items()
  {
    StaysWhole(i, run);
    s :| After(i, run).Committed(s) && DecidesBy(After(i, run).rules, s);
  }

  ghost predicate NoCommits(run: seq<Event>) {
    forall k | 0 <= k < |run| :: !run[k].CommitHere? && !run[k].CommitElsewhere?
  }

  // Nothing older than the row is on its way to the validator.
  predicate Caught(i: Instance) {
    i.callbacks == [] && (i.polled.Some? ==> i.polled.value == i.row)
  }

  predicate UpToDate(i: Instance) {
    DecidesBy(i.rules, i.row)
  }

  lemma {:induction false} AfterConcat(i: Instance, first: seq<Event>, rest: seq<Event>)
    ensures After(i, first + rest) == After(After(i, first), rest)
    decreases |rest|
  {
    var whole := first + rest;
    if rest == [] {
      assert whole == first;
    } else {
      assert whole[..|whole| - 1] == first + rest[..|rest| - 1];
      AfterConcat(i, first, rest[..|rest| - 1]);
    }
  }

  lemma AfterOne(i: Instance, run: seq<Event>, e: Event)
    ensures After(i, run + [e]) == Next(After(i, run), e)
  {
    assert (run + [e])[..|run|] == run;
  }

  // Without commits the row stays, and an instance that has caught up stays so; once its
  // rules are those of the row, or the row is polled and only waits to be applied, that stays.
  lemma {:induction false} Settled(i: Instance, run: seq<Event>)
    requires Caught(i) && NoCommits(run)
    ensures Caught(After(i, run)) && After(i, run).row == i.row
    ensures UpToDate(i) ==> UpToDate(After(i, run))
    ensures i.polled.Some? ==> After(i, run).polled.Some? || UpToDate(After(i, run))
    decreases |run|
  {
    if run != [] {
      Settled(i, run[..|run| - 1]);
    }
  }

  /**
   Convergence. Once the last commit has been made and the instance has run its callbacks, a
   poll that starts afterwards and reads successfully has the validator decide by the row when
   it has been applied, and so it does from then on, whatever happens but a further commit.
   */
  lemma PollingConverges(i: Instance, before: seq<Event>, between: seq<Event>, later: seq<Event>)
    requires After(i, before).callbacks == [] && After(i, before).polled.None?
    requires NoCommits(between) && NoCommits(later)
    ensures var end := After(i, before + [PollRead] + between + [PollApply] + later);
      end.row == After(i, before).row && UpToDate(end)
  {
    var r1 := before + [PollRead];
    var r2 := r1 + between;
    var r3 := r2 + [PollApply];
    AfterOne(i, before, PollRead);
    AfterConcat(i, r1, between);
    AfterOne(i, r2, PollApply);
    AfterConcat(i, r3, later);
    PollSettles(After(i, before), between, later);
  }

  lemma PollSettles(i: Instance, between: seq<Event>, later: seq<Event>)
    requires i.callbacks == [] && i.polled.None? && NoCommits(between) && NoCommits(later)
    ensures var end := After(Next(After(Next(i, PollRead), between), PollApply), later);
      end.row == i.row && UpToDate(end)
  {
    var polled := Next(i, PollRead);
    Settled(polled, between);
    Settled(Next(After(polled, between), PollApply), later);
  }

  // What is on its way to the validator decides as the row does.
  ghost predicate OnlyTheRowIsPending(i: Instance) {
    && (i.polled.Some? ==> DecidesBy(RulesOf(i.polled.value), i.row))
    && forall s | s in i.callbacks :: DecidesBy(RulesOf(s), i.row)
  }

  lemma {:induction false} StaysUpToDate(i: Instance, run: seq<Event>)
    requires UpToDate(i) && OnlyTheRowIsPending(i) && NoCommits(run)
    ensures var end := After(i, run); UpToDate(end) && OnlyTheRowIsPending(end) && end.row == i.row
    decreases |run|
  {
    if run != [] {
      StaysUpToDate(i, run[..|run| - 1]);
    }
  }

  /**
   The exact condition. An up-to-date instance stays so in every run without a commit, if and
   only if the poll under way, if any, and all its callbacks yet to run carry the rules of the row.
   */
  lemma StaysUpToDateIff(i: Instance)
    requires UpToDate(i)
    ensures (forall run | NoCommits(run) :: UpToDate(After(i, run))) <==> OnlyTheRowIsPending(i)
  {
    if OnlyTheRowIsPending(i) {
      forall run | NoCommits(run)
        ensures UpToDate(After(i, run))
      {
        StaysUpToDate(i, run);
      }
    } else if i.polled.Some? && !DecidesBy(RulesOf(i.polled.value), i.row) {
      AfterOne(i, [], PollApply);
      assert NoCommits([] + [PollApply]) && !UpToDate(After(i, [] + [PollApply]));
    } else {
      var k :| 0 <= k < |i.callbacks| && !DecidesBy(RulesOf(i.callbacks[k]), i.row);
      AfterOne(i, [], Callback(k));
      assert NoCommits([] + [Callback(k)]) && !UpToDate(After(i, [] + [Callback(k)]));
    }
  }

  /** Until then an older value can come back: a poll that read before a commit undoes it. */
  lemma StalePollRestoresTheOldValue(i: Instance, settings: UploadSettings)
    requires i.callbacks == [] && i.polled.None? && UpToDate(i) && !DecidesBy(RulesOf(i.row), settings)
    ensures UpToDate(After(i, [] + [PollRead] + [CommitHere(settings)] + [Callback(0)]))
    ensures var end := After(i, [] + [PollRead] + [CommitHere(settings)] + [Callback(0)] + [PollApply]);
      !UpToDate(end) && end.callbacks == []
  {
    AfterOne(i, [], PollRead);
    AfterOne(i, [] + [PollRead], CommitHere(settings));
    AfterOne(i, [] + [PollRead] + [CommitHere(settings)], Callback(0));
    AfterOne(i, [] + [PollRead] + [CommitHere(settings)] + [Callback(0)], PollApply);
    assert DropAt([settings], 0) == [];
  }

  /** So can callbacks that run in another order than their commits. */
  lemma ReorderedCallbacksRestoreTheOldValue(i: Instance, first: UploadSettings, second: UploadSettings)
    requires i.callbacks == [] && !DecidesBy(RulesOf(first), second)
    ensures var end := After(i, [] + [CommitHere(first)] + [CommitHere(second)] + [Callback(1)] + [Callback(0)]);
      end.row == second && end.callbacks == [] && !UpToDate(end)
  {
    var i2 := After(i, [] + [CommitHere(first)] + [CommitHere(second)]);
    AfterOne(i, [], CommitHere(first));
    AfterOne(i, [] + [CommitHere(first)], CommitHere(second));
    assert i2.callbacks == [first, second] && i2.row == second;
    LastFirst(i2, first, second);
    AfterOne(i, [] + [CommitHere(first)] + [CommitHere(second)], Callback(1));
    AfterOne(i, [] + [CommitHere(first)] + [CommitHere(second)] + [Callback(1)], Callback(0));
  }

  lemma LastFirst(i: Instance, first: UploadSettings, second: UploadSettings)
    requires i.callbacks == [first, second]
    ensures var end := Next(Next(i, Callback(1)), Callback(0));
      end.callbacks == [] && end.rules == RulesOf(first) && end.row == i.row
  {
    assert DropAt([first, second], 1) == [first] && DropAt([first], 0) == [];
  }
}
