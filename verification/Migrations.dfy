/**
 The migration runner. Every instance runs it at startup, over one connection that holds an
 advisory lock; each file is executed and recorded in one transaction.
 */
module Migrations {
  import opened Metadata

  // Byte-wise order of strings.
  predicate Before(a: string, b: string) {
    b != [] && (a == [] || a[0] < b[0] || (a[0] == b[0] && Before(a[1..], b[1..])))
  }

  lemma {:induction false} BeforeIsTotal(a: string, b: string)
    ensures a == b || Before(a, b) || Before(b, a)
  {
    if a != [] && b != [] && a[0] == b[0] {
      BeforeIsTotal(a[1..], b[1..]);
      assert a == [a[0]] + a[1..] && b == [b[0]] + b[1..];
    }
  }

  lemma {:induction false} BeforeIsTransitive(a: string, b: string, c: string)
    requires Before(a, b) && Before(b, c)
    ensures Before(a, c)
  {
    if a != [] && b[0] == a[0] && c[0] == a[0] {
      BeforeIsTransitive(a[1..], b[1..], c[1..]);
    }
  }

  lemma {:induction false} BeforeIsStrict(a: string)
    ensures !Before(a, a)
  {
    if a != [] {
      BeforeIsStrict(a[1..]);
    }
  }

  // The first difference is at `k`, where `a` has the smaller character.
  predicate SmallerAt(a: string, b: string, k: int) {
    0 <= k < |a| && k < |b| && a[..k] == b[..k] && a[k] < b[k]
  }

  lemma SmallerLater(a: string, b: string, k: nat)
    requires a != [] && b != [] && a[0] == b[0]
    ensures SmallerAt(a[1..], b[1..], k) <==> SmallerAt(a, b, k + 1)
  {
    if k + 1 < |a| && k + 1 < |b| {
      assert a[..k + 1] == [a[0]] + a[1..][..k] && b[..k + 1] == [b[0]] + b[1..][..k];
      assert a[1..][..k] == a[..k + 1][1..] && b[1..][..k] == b[..k + 1][1..];
    }
  }

  lemma PrefixLater(a: string, b: string)
    requires a != [] && b != [] && a[0] == b[0]
    ensures a < b <==> a[1..] < b[1..]
  {
    assert a == [a[0]] + a[1..] && b == [b[0]] + b[1..];
    if a < b { assert a[1..] == b[..|a|][1..] == b[1..][..|a| - 1]; }
    if a[1..] < b[1..] { assert b == a + b[|a|..]; }
  }

  // Byte-wise order: a proper prefix comes first, otherwise the first difference decides.
  lemma {:induction false} BeforeMeans(a: string, b: string)
    ensures Before(a, b) <==> a < b || exists k :: SmallerAt(a, b, k)
  {
    if a != [] && b != [] {
      assert a < b ==> a[0] == b[0];
      if a[0] == b[0] {
        BeforeMeans(a[1..], b[1..]);
        PrefixLater(a, b);
        if k :| SmallerAt(a, b, k) { SmallerLater(a, b, k - 1); }
        if k :| SmallerAt(a[1..], b[1..], k) { SmallerLater(a, b, k); }
      } else {
        assert SmallerAt(a, b, 0) <==> a[0] < b[0];
      }
    }
  }

  ghost predicate InOrder(names: seq<string>) {
    forall i, j | 0 <= i < j < |names| :: Before(names[i], names[j])
  }

  lemma InOrderHasNoRepeats(names: seq<string>, i: nat, j: nat)
    requires InOrder(names) && i < |names| && j < |names| && names[i] == names[j]
    ensures i == j
  {
    BeforeIsStrict(names[i]);
  }

  function Inserted(name: string, names: seq<string>): (r: seq<string>)
    ensures forall n :: n in r <==> n == name || n in names
  {
    if names == [] then [name]
    else if Before(name, names[0]) then [name] + names
    else
      assert names == [names[0]] + names[1..];
      [names[0]] + Inserted(name, names[1..])
  }

  lemma {:induction false} InsertedIsInOrder(name: string, names: seq<string>)
    requires InOrder(names) && name !in names
    ensures InOrder(Inserted(name, names))
  {
    if names != [] {
      var first, rest := names[0], names[1..];
      assert forall n | n in rest :: Before(first, n);
      if Before(name, first) {
        forall n | n in names ensures Before(name, n) {
          if n != first { BeforeIsTransitive(name, first, n); }
        }
      } else {
        BeforeIsTotal(name, first);
        InsertedIsInOrder(name, rest);
        var r := Inserted(name, rest);
        assert forall k | 0 <= k < |r| :: r[k] in r;
      }
    }
  }

  datatype Entry = Entry(name: string, isDir: bool)

  // A directory does not list a name twice.
  ghost predicate IsListing(entries: seq<Entry>) {
    forall i, j | 0 <= i < j < |entries| :: entries[i].name != entries[j].name
  }

  // The names of the files, sorted.
  function FilesOf(entries: seq<Entry>): seq<string> {
    if entries == [] then []
    else
      var rest, last := FilesOf(entries[..|entries| - 1]), entries[|entries| - 1];
      if last.isDir then rest else Inserted(last.name, rest)
  }

  lemma {:induction false} FilesInOrder(entries: seq<Entry>)
    requires IsListing(entries)
    ensures InOrder(FilesOf(entries))
    ensures forall n :: n in FilesOf(entries) <==> Entry(n, false) in entries
  {
    if entries != [] {
      var front, last := entries[..|entries| - 1], entries[|entries| - 1];
      assert entries == front + [last];
      FilesInOrder(front);
      if !last.isDir {
        InsertedIsInOrder(last.name, FilesOf(front));
      }
    }
  }

  // In byte-wise order, spelled out.
  ghost predicate Ascending(names: seq<string>) {
    forall i, j | 0 <= i < j < |names| ::
      || (|names[i]| < |names[j]| && names[i] == names[j][..|names[i]|])
      || exists k :: 0 <= k < |names[i]| && k < |names[j]| && names[i][..k] == names[j][..k]
           && names[i][k] < names[j][k]
  }

  lemma InOrderAscends(names: seq<string>)
    requires InOrder(names)
    ensures Ascending(names)
  {
    forall i, j | 0 <= i < j < |names|
      ensures || (|names[i]| < |names[j]| && names[i] == names[j][..|names[i]|])
              || exists k :: 0 <= k < |names[i]| && k < |names[j]| && names[i][..k] == names[j][..k]
                   && names[i][k] < names[j][k]
    {
      BeforeMeans(names[i], names[j]);
      if k :| SmallerAt(names[i], names[j], k) {
        assert names[i][..k] == names[j][..k] && names[i][k] < names[j][k];
      }
    }
  }

  /** The files of a directory, in byte-wise order: of two names the earlier is a proper prefix of
      the later, or has the smaller character where they first differ. */
  lemma FilesOfListing(entries: seq<Entry>)
    requires IsListing(entries)
    ensures InOrder(FilesOf(entries))
    ensures forall n :: n in FilesOf(entries) <==> Entry(n, false) in entries
    ensures var names := FilesOf(entries);
      forall i, j | 0 <= i < j < |names| ::
        || (|names[i]| < |names[j]| && names[i] == names[j][..|names[i]|])
        || exists k :: 0 <= k < |names[i]| && k < |names[j]| && names[i][..k] == names[j][..k]
             && names[i][k] < names[j][k]
  {
    FilesInOrder(entries);
    InOrderAscends(FilesOf(entries));
  }

  // ----- the database -----

  // `recorded` are the rows of schema_migrations; `schema` is what was done to the schema.
  ghost predicate Consistent(files: seq<string>, recorded: set<string>, schema: seq<string>) {
    schema <= files && recorded == set f | f in schema
  }

  // A file is recorded exactly if it is among the first |schema|.
  lemma RecordedMeansEarlier(files: seq<string>, recorded: set<string>, schema: seq<string>, i: nat)
    requires InOrder(files) && Consistent(files, recorded, schema) && i < |files|
    ensures files[i] in recorded <==> i < |schema|
  {
    if i < |schema| {
      assert schema[i] in schema;
    } else if files[i] in recorded {
      var k :| 0 <= k < |schema| && schema[k] == files[i];
      InOrderHasNoRepeats(files, k, i);
    }
  }

  lemma CommitKeepsConsistent(files: seq<string>, recorded: set<string>, schema: seq<string>)
    requires Consistent(files, recorded, schema) && |schema| < |files|
    ensures Consistent(files, recorded + {files[|schema|]}, schema + [files[|schema|]])
  {
  }

  method ListFiles(entries: seq<Entry>) returns (filenames: seq<string>)
    ensures filenames == FilesOf(entries)
  {
    filenames := [];
    var n := 0;
    while n < |entries|
      invariant 0 <= n <= |entries| && filenames == FilesOf(entries[..n])
    {
      assert entries[..n + 1][..n] == entries[..n];
      if !entries[n].isDir {
        filenames := Inserted(entries[n].name, filenames);
      }
      n := n + 1;
    }
    assert entries[..n] == entries;
  }

  class Database {
    var ready: bool
    var recorded: set<string>
    var schema: seq<string>

    ghost predicate Valid(files: seq<string>)
      reads this
    {
      Consistent(files, recorded, schema) && (schema != [] ==> ready)
    }

    // The transaction of one file: execute, record, commit. A failing commit may have been made.
    method Apply(filename: string, ghost files: seq<string>, callsSucceed: bool) returns (ok: bool)
      requires Valid(files) && ready && |schema| < |files| && filename == files[|schema|]
      modifies this
      ensures Valid(files) && ready && (callsSucceed ==> ok)
      ensures schema == old(schema) + [filename] || (!ok && schema == old(schema))
    {
      var effects, records := schema, recorded;
      var fails := Fails(callsSucceed);
      if fails { return false; }
      effects := effects + [filename];
      fails := Fails(callsSucceed);
      if fails { return false; }
      records := records + {filename};
      fails := Fails(callsSucceed);
      if fails { return false; }
      CommitKeepsConsistent(files, recorded, schema);
      schema, recorded := effects, records;
      fails := Fails(callsSucceed);
      return !fails;
    }

    method Fails(callsSucceed: bool) returns (fails: bool)
      ensures callsSucceed ==> !fails
    {
      fails := *;
      fails := fails && !callsSucceed;
    }

    // One call of Migrate while it holds the lock; each statement may fail, unless `callsSucceed`.
    method Migrate(entries: seq<Entry>, callsSucceed: bool) returns (ok: bool)
      requires IsListing(entries) && Valid(FilesOf(entries))
      modifies this
      ensures Valid(FilesOf(entries)) && old(schema) <= schema <= FilesOf(entries)
      ensures recorded == (set f | f in schema) && (callsSucceed ==> ok)
      ensures ok ==> schema == FilesOf(entries)
      // all files of the directory, each once, in byte-wise order
      ensures ok ==> recorded == (set e | e in entries && !e.isDir :: e.name) == (set n | n in schema)
      ensures ok ==>
        forall i, j | 0 <= i < j < |schema| ::
          || (|schema[i]| < |schema[j]| && schema[i] == schema[j][..|schema[i]|])
          || exists k :: 0 <= k < |schema[i]| && k < |schema[j]| && schema[i][..k] == schema[j][..k]
               && schema[i][k] < schema[j][k]
      ensures old(schema) == FilesOf(entries) ==> schema == old(schema) && recorded == old(recorded)
    {
      FilesOfListing(entries);
      var fails := Fails(callsSucceed);
      if fails { return false; }
      ready := true;
      var filenames := ListFiles(entries);
      var i := 0;
      while i < |filenames|
        invariant 0 <= i <= |filenames| && i <= |schema|
        invariant Valid(filenames) && ready && old(schema) <= schema
        invariant old(schema) == filenames ==> schema == old(schema) && recorded == old(recorded)
      {
        var filename := filenames[i];
        RecordedMeansEarlier(filenames, recorded, schema, i);
        fails := Fails(callsSucceed);
        if fails { return false; }
        if filename !in recorded {
          var done := Apply(filename, filenames, callsSucceed);
          if !done { return false; }
        }
        i := i + 1;
      }
      RecordedAreTheFiles(entries);
      return true;
    }

    lemma RecordedAreTheFiles(entries: seq<Entry>)
      requires IsListing(entries) && recorded == set f | f in FilesOf(entries)
      ensures recorded == set e | e in entries && !e.isDir :: e.name
    {
      FilesOfListing(entries);
      forall n
        ensures n in recorded <==> n in set e | e in entries && !e.isDir :: e.name
      {
        if e :| e in entries && !e.isDir && e.name == n { assert e == Entry(n, false); }
      }
    }
  }

  // ----- any number of instances -----

  // What a transaction did and nobody sees yet.
  datatype Tx = Tx(effects: seq<string>, records: set<string>)

  datatype Phase =
    | Waiting                        // for the lock
    | Preparing                      // the table of migrations
    | Checking(i: nat)               // whether file i is recorded
    | InTransaction(i: nat, tx: Tx)
    | Unlocking

  // An instance is its connection; the lock belongs to a connection.
  datatype State = State(ready: bool, recorded: set<string>, schema: seq<string>, lock: Option<nat>,
                         runners: map<nat, Phase>, succeeded: set<nat>)

  datatype Event =
    | Call(p: nat)
    | Lock(p: nat)
    | Prepare(p: nat)
    | Check(p: nat)
    | Execute(p: nat)
    | Record(p: nat)
    | Commit(p: nat)
    | CommitUnheard(p: nat)          // made, but its answer is lost
    | Fail(p: nat)                   // of whatever call is next; a transaction is rolled back
    | Finish(p: nat)                 // all files are done
    | Unlock(p: nat)
    | UnlockFails(p: nat)            // the connection goes back to the pool with the lock
    | Disconnect(p: nat)             // crash, or loss of the connection: its lock is released

  function Go(s: State, p: nat, phase: Phase): State {
    s.(runners := s.runners[p := phase])
  }

  function Committed(s: State, tx: Tx): State {
    s.(recorded := s.recorded + tx.records, schema := s.schema + tx.effects)
  }

  function Next(files: seq<string>, s: State, e: Event): State {
    match e
    case Call(p) => if p in s.runners then s else Go(s, p, Waiting)
    case Disconnect(p) => s.(runners := s.runners - {p}, lock := if s.lock == Some(p) then None else s.lock)
    case _ => if e.p in s.runners then Advance(files, s, e, s.runners[e.p]) else s
  }

  // A step whose turn it is not changes nothing.
  function Advance(files: seq<string>, s: State, e: Event, phase: Phase): State
    requires !e.Call? && !e.Disconnect?
  {
    var p := e.p;
    match e
    // the lock is reentrant: a connection that kept it gets it at once
    case Lock(_) =>
      if phase.Waiting? && (s.lock == None || s.lock == Some(p)) then Go(s, p, Preparing).(lock := Some(p)) else s
    case Prepare(_) => if phase.Preparing? then Go(s, p, Checking(0)).(ready := true) else s
    case Check(_) =>
      if phase.Checking? && phase.i < |files|
      then Go(s, p, if files[phase.i] in s.recorded then Checking(phase.i + 1) else InTransaction(phase.i, Tx([], {})))
          else s
    case Execute(_) =>
      if phase.InTransaction? && phase.i < |files| && phase.tx == Tx([], {})
      then Go(s, p, InTransaction(phase.i, Tx([files[phase.i]], {}))) else s
    // the file name is the primary key
    case Record(_) =>
      if phase.InTransaction? && phase.i < |files| && phase.tx.effects != [] && files[phase.i] !in s.recorded
      then Go(s, p, InTransaction(phase.i, Tx(phase.tx.effects, {files[phase.i]}))) else s
    case Commit(_) =>
      if phase.InTransaction? && phase.tx.records != {} then Committed(Go(s, p, Checking(phase.i + 1)), phase.tx) else s
    case CommitUnheard(_) =>
      if phase.InTransaction? && phase.tx.records != {} then Committed(Go(s, p, Unlocking), phase.tx) else s
    case Fail(_) => if phase.Waiting? then s.(runners := s.runners - {p}) else Go(s, p, Unlocking)
    case Finish(_) =>
      if phase == Checking(|files|) then Go(s, p, Unlocking).(succeeded := s.succeeded + {p}) else s
    case Unlock(_) => if phase.Unlocking? then s.(runners := s.runners - {p}, lock := None) else s
    case UnlockFails(_) => if phase.Unlocking? then s.(runners := s.runners - {p}) else s
  }

  function Init(): State {
    State(false, {}, [], None, map[], {})
  }

  function After(files: seq<string>, s: State, run: seq<Event>): State
    decreases |run|
  {
    if run == [] then s else Next(files, After(files, s, run[..|run| - 1]), run[|run| - 1])
  }

  // What an instance that holds the lock knows.
  ghost predicate PhaseInv(files: seq<string>, s: State, p: nat, phase: Phase) {
    && (phase != Waiting ==> s.lock == Some(p))
    && (phase.Checking? ==> phase.i <= |s.schema| && s.ready)
    && (phase.InTransaction? ==>
        && phase.i == |s.schema| < |files| && s.ready
        && (phase.tx == Tx([], {}) || phase.tx == Tx([files[phase.i]], {})
            || phase.tx == Tx([files[phase.i]], {files[phase.i]})))
  }

  ghost predicate Inv(files: seq<string>, s: State) {
    && Consistent(files, s.recorded, s.schema)
    && (s.schema != [] ==> s.ready)
    && (forall p | p in s.runners :: PhaseInv(files, s, p, s.runners[p]))
    && (s.succeeded != {} ==> s.schema == files)
  }

  lemma StepInv(files: seq<string>, s: State, e: Event)
    requires InOrder(files) && Inv(files, s)
    ensures Inv(files, Next(files, s, e)) && s.schema <= Next(files, s, e).schema
  {
    var s' := Next(files, s, e);
    if e.p in s.runners {
      var phase := s.runners[e.p];
      assert PhaseInv(files, s, e.p, phase);
      if phase.Checking? && phase.i < |files| {
        RecordedMeansEarlier(files, s.recorded, s.schema, phase.i);
      }
      if phase.InTransaction? {
        CommitKeepsConsistent(files, s.recorded, s.schema);
      }
    }
    forall p | p in s'.runners ensures PhaseInv(files, s', p, s'.runners[p]) {
      if p in s.runners {
        assert PhaseInv(files, s, p, s.runners[p]);
      }
    }
  }

  lemma {:induction false} RunInv(files: seq<string>, s: State, run: seq<Event>)
    requires InOrder(files) && Inv(files, s)
    ensures Inv(files, After(files, s, run)) && s.schema <= After(files, s, run).schema
    decreases |run|
  {
    if run != [] {
      RunInv(files, s, run[..|run| - 1]);
      StepInv(files, After(files, s, run[..|run| - 1]), run[|run| - 1]);
    }
  }

  /**
   However many instances migrate at once, fail or crash: the files executed are the first so many
   of the sorted names, each once and in order; exactly these are recorded; and as soon as one
   call has succeeded, these are all.
   */
  lemma AppliedInOrderExactlyOnce(files: seq<string>, run: seq<Event>)
    requires InOrder(files)
    ensures var s := After(files, Init(), run);
      && s.schema <= files && s.recorded == (set f | f in s.schema)
      && (forall i, j | 0 <= i < j < |s.schema| :: s.schema[i] != s.schema[j])
      && (s.succeeded != {} ==> s.schema == files)
  {
    RunInv(files, Init(), run);
    var s := After(files, Init(), run);
    forall i, j | 0 <= i < j < |s.schema| ensures s.schema[i] != s.schema[j] {
      if s.schema[i] == s.schema[j] {
        InOrderHasNoRepeats(files, i, j);
      }
    }
  }

  /** Nothing is ever undone, and once everything is applied no further call changes anything. */
  lemma RerunChangesNothing(files: seq<string>, run: seq<Event>, more: seq<Event>)
    requires InOrder(files)
    ensures var s := After(files, Init(), run);
      var s' := After(files, s, more);
      s.schema <= s'.schema && (s.succeeded != {} ==> s'.schema == s.schema && s'.recorded == s.recorded)
  {
    RunInv(files, Init(), run);
    RunInv(files, After(files, Init(), run), more);
  }

  /** At most one instance is past the lock. */
  lemma OneAtATime(files: seq<string>, run: seq<Event>, p: nat, q: nat)
    requires InOrder(files)
    ensures var r := After(files, Init(), run).runners;
      p in r && q in r && r[p] != Waiting && r[q] != Waiting ==> p == q
  {
    RunInv(files, Init(), run);
    var s := After(files, Init(), run);
    if p in s.runners && q in s.runners {
      assert PhaseInv(files, s, p, s.runners[p]) && PhaseInv(files, s, q, s.runners[q]);
    }
  }

  lemma AfterOneMore(files: seq<string>, s: State, run: seq<Event>, e: Event)
    ensures After(files, s, run + [e]) == Next(files, After(files, s, run), e)
  {
    assert (run + [e])[..|run + [e]| - 1] == run;
  }

  // The run leads to s, in which p is in this phase.
  ghost predicate Reaches(files: seq<string>, run: seq<Event>, s: State, p: nat, phase: Phase) {
    After(files, Init(), run) == s && Inv(files, s) && p in s.runners && s.runners[p] == phase
  }

  // Another step of p takes it to its next phase.
  lemma Step(files: seq<string>, run: seq<Event>, s: State, p: nat, phase: Phase, e: Event, next: Phase)
    requires InOrder(files) && Reaches(files, run, s, p, phase)
    requires e.p == p && p in Next(files, s, e).runners && Next(files, s, e).runners[p] == next
    ensures Reaches(files, run + [e], Next(files, s, e), p, next)
  {
    AfterOneMore(files, Init(), run, e);
    StepInv(files, s, e);
  }

  // The steps of an instance that nobody disturbs.
  ghost predicate Extends(run: seq<Event>, run': seq<Event>, p: nat) {
    run <= run' && forall k | |run| <= k < |run'| :: run'[k].p == p
  }

  lemma OneFile(files: seq<string>, run: seq<Event>, s: State, p: nat, i: nat) returns (run': seq<Event>, s': State)
    requires InOrder(files) && i < |files| && Reaches(files, run, s, p, Checking(i))
    ensures Extends(run, run', p) && Reaches(files, run', s', p, Checking(i + 1))
  {
    run', s' := run + [Check(p)], Next(files, s, Check(p));
    if files[i] in s.recorded {
      Step(files, run, s, p, Checking(i), Check(p), Checking(i + 1));
    } else {
      Step(files, run, s, p, Checking(i), Check(p), InTransaction(i, Tx([], {})));
      Step(files, run', s', p, InTransaction(i, Tx([], {})), Execute(p), InTransaction(i, Tx([files[i]], {})));
      run', s' := run' + [Execute(p)], Next(files, s', Execute(p));
      Step(files, run', s', p, InTransaction(i, Tx([files[i]], {})), Record(p),
           InTransaction(i, Tx([files[i]], {files[i]})));
      run', s' := run' + [Record(p)], Next(files, s', Record(p));
      Step(files, run', s', p, InTransaction(i, Tx([files[i]], {files[i]})), Commit(p), Checking(i + 1));
      run', s' := run' + [Commit(p)], Next(files, s', Commit(p));
    }
  }

  // Taking the lock.
  lemma Begin(files: seq<string>, run: seq<Event>, p: nat) returns (run': seq<Event>, s': State)
    requires InOrder(files)
    requires var s := After(files, Init(), run); s.lock == None && p !in s.runners
    ensures Extends(run, run', p) && Reaches(files, run', s', p, Checking(0))
  {
    RunInv(files, Init(), run);
    var s := After(files, Init(), run);
    AfterOneMore(files, Init(), run, Call(p));
    StepInv(files, s, Call(p));
    run', s' := run + [Call(p)], Next(files, s, Call(p));
    Step(files, run', s', p, Waiting, Lock(p), Preparing);
    run', s' := run' + [Lock(p)], Next(files, s', Lock(p));
    Step(files, run', s', p, Preparing, Prepare(p), Checking(0));
    run', s' := run' + [Prepare(p)], Next(files, s', Prepare(p));
  }

  /** From every state in which the lock is free, whatever failures led there, a call that nothing
      disturbs applies what is left, succeeds and frees the lock. */
  lemma UndisturbedCallSucceeds(files: seq<string>, run: seq<Event>, p: nat) returns (run': seq<Event>)
    requires InOrder(files)
    requires var s := After(files, Init(), run); s.lock == None && p !in s.runners
    ensures Extends(run, run', p)
    ensures var s := After(files, Init(), run');
      p in s.succeeded && s.schema == files && s.lock == None && p !in s.runners
  {
    var s;
    run', s := Begin(files, run, p);
    for i := 0 to |files|
      invariant Extends(run, run', p) && Reaches(files, run', s, p, Checking(i))
    {
      run', s := OneFile(files, run', s, p, i);
    }
    Step(files, run', s, p, Checking(|files|), Finish(p), Unlocking);
    run', s := run' + [Finish(p)], Next(files, s, Finish(p));
    AfterOneMore(files, Init(), run', Unlock(p));
    run' := run' + [Unlock(p)];
  }
}
