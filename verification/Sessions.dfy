/**
 Admin sessions: opaque tokens, valid for 24 hours from login, revocable, purged in the
 background. Nothing but login, logout and time decides whether a token is accepted.
 */
module Sessions {
  import opened Metadata

  // 24 hours, in the clock's unit of one second.
  const SESSION_TTL := 24 * 60 * 60

  datatype AdminSession = AdminSession(adminId: string, createdAt: Time, expiresAt: Time, lastUsedAt: Time) {
    predicate IsExpired(now: Time) {
      now > expiresAt
    }
  }

  // `admin_sessions`, by token hash.
  type SessionTable = map<string, AdminSession>

  // What the statements of the repository do to the table.
  function Inserted(t: SessionTable, hash: string, adminId: string, now: Time): SessionTable {
    t[hash := AdminSession(adminId, now, now + SESSION_TTL, now)]
  }

  function Touched(t: SessionTable, hash: string, now: Time): SessionTable {
    if hash in t then t[hash := t[hash].(lastUsedAt := now)] else t
  }

  function Deleted(t: SessionTable, hash: string): SessionTable {
    t - {hash}
  }

  function Purged(t: SessionTable, before: Time): SessionTable {
    map h | h in t && t[h].expiresAt > before :: t[h]
  }

  // The verdict on a token hash: its row exists, is not past its expiry, and its admin exists.
  predicate Accepts(t: SessionTable, admins: set<string>, hash: string, now: Time) {
    hash in t && !t[hash].IsExpired(now) && t[hash].adminId in admins
  }

  // What VerifySession leaves behind when no call fails: a touch, or the deletion of a row
  // that is past its expiry or has lost its admin.
  function Verified(t: SessionTable, admins: set<string>, hash: string, now: Time): SessionTable {
    if hash !in t then t
    else if !Accepts(t, admins, hash, now) then Deleted(t, hash)
    else Touched(t, hash, now)
  }

  datatype VerifyResult = Valid(session: AdminSession) | SessionInvalid | RepositoryError

  datatype LoginResult = LoggedIn(token: string, session: AdminSession) | InvalidCredentials | LoginError

  class AdminRepository {
    var usernames: map<string, string>        // username to admin id, unique
    var passwordHashes: map<string, string>   // of each admin, by id
    var sessions: SessionTable
    var lastLogins: map<string, Time>         // by admin id

    function Admins(): set<string>
      reads this
    {
      passwordHashes.Keys
    }
  }

  class Service {
    const repository: AdminRepository
    const hashToken: string -> string
    const passwordMatches: (string, string) -> bool     // bcrypt
    const trim: string -> string

    constructor (repository: AdminRepository, hashToken: string -> string,
                 passwordMatches: (string, string) -> bool, trim: string -> string)
      ensures this.repository == repository && this.hashToken == hashToken
      ensures this.passwordMatches == passwordMatches && this.trim == trim
    {
      this.repository, this.hashToken := repository, hashToken;
      this.passwordMatches, this.trim := passwordMatches, trim;
    }

    // `token` is what the generator returns. Any repository call may fail, unless `callsSucceed`.
    method Login(username: string, password: string, token: string, now: Time,
                 callsSucceed: bool) returns (r: LoginResult)
      modifies repository`sessions, repository`lastLogins
      ensures var name := trim(username);
        var right := name != "" && password != "" && name in repository.usernames
            && repository.usernames[name] in repository.passwordHashes
            && passwordMatches(repository.passwordHashes[repository.usernames[name]], password);
        && (r.LoggedIn? ==>
            && right && hashToken(token) !in old(repository.sessions) && r.token == token
            && r.session == AdminSession(repository.usernames[name], now, now + 86400, now)
            && repository.sessions == old(repository.sessions)[hashToken(token) := r.session]
            && repository.lastLogins == old(repository.lastLogins)[repository.usernames[name] := now])
        && (r.InvalidCredentials? ==>
            && !right && repository.sessions == old(repository.sessions)
            && repository.lastLogins == old(repository.lastLogins))
        // when nothing fails and the token is new, the credentials decide
        && (callsSucceed && hashToken(token) !in old(repository.sessions) ==>
            if right then r.LoggedIn? else r.InvalidCredentials?)
        // an error can leave a session whose token nobody was given
        && (r.LoginError? ==>
            || repository.sessions == old(repository.sessions)
            || (right && repository.sessions == old(repository.sessions)[
                  hashToken(token) := AdminSession(repository.usernames[name], now, now + 86400, now)]))
    {
      var name := trim(username);
      if name == "" || password == "" { return InvalidCredentials; }
      var fails := Fails(callsSucceed);
      if fails { return LoginError; }
      if name !in repository.usernames { return InvalidCredentials; }
      var id := repository.usernames[name];
      if id !in repository.passwordHashes || !passwordMatches(repository.passwordHashes[id], password) {
        return InvalidCredentials;
      }
      var hash := hashToken(token);
      fails := Fails(callsSucceed);
      if fails || hash in repository.sessions { return LoginError; }   // the primary key
      repository.sessions := Inserted(repository.sessions, hash, id, now);
      fails := Fails(callsSucceed);
      if fails { return LoginError; }
      repository.lastLogins := repository.lastLogins[id := now];
      fails := Fails(callsSucceed);
      if fails { return LoginError; }
      return LoggedIn(token, repository.sessions[hash]);
    }

    method Fails(callsSucceed: bool) returns (fails: bool)
      ensures callsSucceed ==> !fails
    {
      fails := *;
      fails := fails && !callsSucceed;
    }

    method VerifySession(token: string, now: Time, callsSucceed: bool) returns (r: VerifyResult)
      modifies repository`sessions
      ensures callsSucceed ==> !r.RepositoryError?
      ensures r.Valid? ==>
        var was, hash := old(repository.sessions), hashToken(token);
        && token != "" && hash in was && now <= was[hash].expiresAt && was[hash].adminId in repository.passwordHashes
        && r.session == was[hash] && repository.sessions == was[hash := was[hash].(lastUsedAt := now)]
        && repository.sessions == Verified(was, repository.Admins(), hash, now)
      ensures r.SessionInvalid? ==>
        var was, hash := old(repository.sessions), hashToken(token);
        && (token == "" || hash !in was || was[hash].expiresAt < now
            || was[hash].adminId !in repository.passwordHashes)
        && (repository.sessions == was || repository.sessions == was - {hash})
        && (callsSucceed && token != "" ==>
            hash !in repository.sessions && repository.sessions == Verified(was, repository.Admins(), hash, now))
      ensures r.RepositoryError? ==>
        var was, hash := old(repository.sessions), hashToken(token);
        repository.sessions == was
        || (hash in was && repository.sessions == was[hash := was[hash].(lastUsedAt := now)])
    {
      if token == "" { return SessionInvalid; }
      var hash := hashToken(token);
      var fails := Fails(callsSucceed);
      if fails { return RepositoryError; }
      if hash !in repository.sessions { return SessionInvalid; }
      var session := repository.sessions[hash];
      if session.IsExpired(now) {
        fails := Fails(callsSucceed);
        if !fails { repository.sessions := Deleted(repository.sessions, hash); }
        return SessionInvalid;
      }
      fails := Fails(callsSucceed);
      if fails { return RepositoryError; }
      if session.adminId !in repository.Admins() {
        fails := Fails(callsSucceed);
        if !fails { repository.sessions := Deleted(repository.sessions, hash); }
        return SessionInvalid;
      }
      fails := Fails(callsSucceed);
      if fails { return RepositoryError; }
      repository.sessions := Touched(repository.sessions, hash, now);
      fails := Fails(callsSucceed);
      if fails { return RepositoryError; }
      return Valid(session);
    }

    // After a reported success nothing accepts the token any more; no other session is touched,
    // and a failed call at most deletes this one.
    method Logout(token: string, callsSucceed: bool) returns (ok: bool)
      modifies repository`sessions
      ensures callsSucceed ==> ok
      ensures ok && token != "" ==> hashToken(token) !in repository.sessions
      ensures ok && token != "" ==> forall admins, now :: !Accepts(repository.sessions, admins, hashToken(token), now)
      ensures forall h | h in repository.sessions ::
        h in old(repository.sessions) && repository.sessions[h] == old(repository.sessions)[h]
      ensures forall h | h in old(repository.sessions) && h !in repository.sessions :: h == hashToken(token)
      ensures token == "" ==> ok && repository.sessions == old(repository.sessions)
    {
      if token == "" { return true; }
      var fails := Fails(callsSucceed);
      if fails { return false; }
      repository.sessions := Deleted(repository.sessions, hashToken(token));
      fails := Fails(callsSucceed);
      return !fails;
    }

    // One turn of the session janitor. It never touches a session before its expiry, so no verdict
    // changes but of those that expire at this very instant.
    method PurgeExpired(now: Time, callsSucceed: bool) returns (ok: bool)
      modifies repository`sessions
      ensures callsSucceed ==> ok
      ensures ok ==> forall h | h in old(repository.sessions) ::
              h in repository.sessions <==> old(repository.sessions)[h].expiresAt > now
      ensures forall h | h in repository.sessions ::
        h in old(repository.sessions) && repository.sessions[h] == old(repository.sessions)[h]
      ensures forall h, admins | h in old(repository.sessions) && old(repository.sessions)[h].expiresAt != now ::
                Accepts(repository.sessions, admins, h, now) <==> Accepts(old(repository.sessions), admins, h, now)
    {
      var fails := Fails(callsSucceed);
      if fails { return false; }
      repository.sessions := Purged(repository.sessions, now);
      fails := Fails(callsSucceed);
      return !fails;
    }
  }

  // The history of the session table, call by call: a verification is a lookup, a look at the
  // clock, a search for the admin, and then a deletion or a touch, and anything may happen
  // between two of these. A call that fails or never comes is an Abandon.
  datatype Event =
    | Tick(elapsed: nat)
    | AddAdmin(adminId: string)
    | RemoveAdmin(adminId: string)          // its sessions go with it
    | Login(hash: string, adminId: string)
    | Logout(hash: string)
    | Purge                                 // by the janitor
    | Lookup(v: nat, hash: string)
    | ReadClock(v: nat)
    | FindAdmin(v: nat)
    | Drop(v: nat)
    | Touch(v: nat)
    | Abandon(v: nat)
  {
    predicate IsHousekeeping() {
      Purge? || Lookup? || ReadClock? || FindAdmin? || Drop? || Touch? || Abandon?
    }
  }

  datatype Stage = Found | Live | Lapsed | Cleared | Orphaned

  // A verification between two of its calls: the row it found, and when it read the clock.
  datatype Check = Check(hash: string, session: AdminSession, stage: Stage, at: Time)

  // `used` are the token hashes ever stored: the generator does not repeat itself.
  datatype State = State(now: Time, admins: set<string>, sessions: SessionTable, used: set<string>,
                         checks: map<nat, Check>)

  function Init(start: Time): State {
    State(start, {}, map[], {}, map[])
  }

  // A step whose turn it is not changes nothing.
  function Next(s: State, e: Event): State {
    match e
    case Tick(elapsed) => s.(now := s.now + elapsed)
    case AddAdmin(adminId) => s.(admins := s.admins + {adminId})
    case RemoveAdmin(adminId) =>
      s.(admins := s.admins - {adminId},
         sessions := map h | h in s.sessions && s.sessions[h].adminId != adminId :: s.sessions[h])
    case Login(hash, adminId) =>
      if adminId in s.admins && hash !in s.used
      then s.(sessions := Inserted(s.sessions, hash, adminId, s.now), used := s.used + {hash}) else s
    case Logout(hash) => s.(sessions := Deleted(s.sessions, hash))
    case Purge => s.(sessions := Purged(s.sessions, s.now))
    case Lookup(v, hash) =>
      if v !in s.checks && hash in s.sessions
      then s.(checks := s.checks[v := Check(hash, s.sessions[hash], Found, s.now)]) else s
    case Abandon(v) => s.(checks := s.checks - {v})
    case _ => if e.v in s.checks then Advance(s, e, s.checks[e.v]) else s
  }

  function Advance(s: State, e: Event, c: Check): State
    requires e.ReadClock? || e.FindAdmin? || e.Drop? || e.Touch?
  {
    match e
    case ReadClock(v) =>
      if c.stage == Found
      then s.(checks := s.checks[v := c.(at := s.now, stage := if c.session.IsExpired(s.now) then Lapsed else Live)])
          else s
    case FindAdmin(v) =>
      if c.stage == Live
      then s.(checks := s.checks[v := c.(stage := if c.session.adminId in s.admins then Cleared else Orphaned)]) else s
    case Drop(v) =>
      if c.stage == Lapsed || c.stage == Orphaned
      then s.(sessions := Deleted(s.sessions, c.hash), checks := s.checks - {v}) else s
    case Touch(v) =>
      if c.stage == Cleared
      then s.(sessions := Touched(s.sessions, c.hash, c.at), checks := s.checks - {v}) else s
  }

  function After(start: Time, run: seq<Event>): State {
    if run == [] then Init(start) else Next(After(start, run[..|run| - 1]), run[|run| - 1])
  }

  // Two readings of one row; only the time of its last use may differ.
  predicate SameLogin(a: AdminSession, b: AdminSession) {
    a.adminId == b.adminId && a.createdAt == b.createdAt && a.expiresAt == b.expiresAt
  }

  ghost predicate CheckInv(s: State, c: Check) {
    && c.hash in s.used
    && (c.hash in s.sessions ==> SameLogin(s.sessions[c.hash], c.session))
    && (c.stage == Lapsed ==> c.session.IsExpired(s.now))
    && (c.stage == Orphaned ==> c.hash !in s.sessions)
  }

  // The row a verification holds is still the row of the table, if that has one; what it is
  // about to delete is past its time or gone already.
  ghost predicate Inv(s: State) {
    && (forall h | h in s.sessions :: h in s.used && s.sessions[h].adminId in s.admins)
    && (forall v | v in s.checks :: CheckInv(s, s.checks[v]))
  }

  lemma StepInv(s: State, e: Event)
    requires Inv(s)
    ensures Inv(Next(s, e))
  {
    var s' := Next(s, e);
    forall v | v in s'.checks ensures CheckInv(s', s'.checks[v]) {
      if v in s.checks {
        assert CheckInv(s, s.checks[v]);
      }
    }
  }

  lemma {:induction false} RunInv(start: Time, run: seq<Event>)
    ensures Inv(After(start, run))
  {
    if run != [] {
      RunInv(start, run[..|run| - 1]);
      StepInv(After(start, run[..|run| - 1]), run[|run| - 1]);
    }
  }

  // What a verification undisturbed by others answers.
  predicate Answer(s: State, hash: string) {
    Accepts(s.sessions, s.admins, hash, s.now)
  }

  datatype Issue = Issue(at: Time, adminId: string)

  // When and to whom a token was issued, if it was, was not logged out since, and its admin
  // was not removed since.
  function Issued(start: Time, run: seq<Event>, hash: string): Option<Issue> {
    if run == [] then None
    else
      var front, e := run[..|run| - 1], run[|run| - 1];
      NextIssued(After(start, front), e, hash, Issued(start, front, hash))
  }

  function NextIssued(s: State, e: Event, hash: string, before: Option<Issue>): Option<Issue> {
    match e
    case Login(h, adminId) => if h == hash && adminId in s.admins && h !in s.used then Some(Issue(s.now, adminId))
        else before
    case Logout(h) => if h == hash then None else before
    case RemoveAdmin(adminId) => if before.Some? && before.value.adminId == adminId then None else before
    case _ => before
  }

  // A row never says anything else than its login; a missing row of an issued token is one
  // whose time was up.
  ghost predicate TellsItsLogin(s: State, hash: string, issued: Option<Issue>) {
    match issued
    case None => hash !in s.sessions
    case Some(i) =>
      && i.at <= s.now && i.adminId in s.admins && hash in s.used
      && (hash in s.sessions ==> SameLogin(s.sessions[hash], AdminSession(i.adminId, i.at, i.at + SESSION_TTL, i.at)))
      && (hash !in s.sessions ==> i.at + SESSION_TTL <= s.now)
  }

  lemma StepTells(s: State, e: Event, hash: string, issued: Option<Issue>)
    requires Inv(s) && TellsItsLogin(s, hash, issued)
    ensures TellsItsLogin(Next(s, e), hash, NextIssued(s, e, hash, issued))
  {
    if e.Drop? && e.v in s.checks {
      assert CheckInv(s, s.checks[e.v]);
    }
  }

  lemma {:induction false} RowsTellTheirLogin(start: Time, run: seq<Event>, hash: string)
    ensures TellsItsLogin(After(start, run), hash, Issued(start, run, hash))
  {
    if run != [] {
      var front := run[..|run| - 1];
      RowsTellTheirLogin(start, front, hash);
      RunInv(start, front);
      StepTells(After(start, front), run[|run| - 1], hash, Issued(start, front, hash));
    }
  }

  /**
   Session soundness and completeness. Whatever verifications and purges took or take place, a
   token is accepted now if it was issued at t0 to an admin, neither logged out nor lost its
   admin since, and now < t0 + 24h; and only if all that holds with now <= t0 + 24h. At the one
   instant t0 + 24h both answers are possible: a purge deletes the row that a verification
   would still accept.
   */
  lemma TokenAcceptedIffIssuedAndFresh(start: Time, run: seq<Event>, hash: string)
    ensures var s, issued := After(start, run), Issued(start, run, hash);
      && (issued.Some? && s.now < issued.value.at + SESSION_TTL ==> Answer(s, hash))
      && (Answer(s, hash) ==>
          issued.Some? && issued.value.at <= s.now <= issued.value.at + SESSION_TTL && issued.value.adminId in s.admins)
  {
    RowsTellTheirLogin(start, run, hash);
  }

  // After the first `i` steps of the run.
  function At(start: Time, run: seq<Event>, i: nat): State
    requires i <= |run|
  {
    After(start, run[..i])
  }

  // What a verification knows, it saw: the row at step i, the time at step j, the admin at k.
  ghost predicate Saw(start: Time, run: seq<Event>, c: Check, i: nat, j: nat, k: nat) {
    && i <= j <= k <= |run|
    && c.hash in At(start, run, i).sessions && At(start, run, i).sessions[c.hash] == c.session
    && (c.stage != Found ==> At(start, run, j).now == c.at)
    && (c.stage == Live || c.stage == Cleared ==> !c.session.IsExpired(c.at))
    && (c.stage == Cleared ==> c.session.adminId in At(start, run, k).admins)
  }

  lemma SawBefore(start: Time, run: seq<Event>, e: Event, c: Check, i: nat, j: nat, k: nat)
    requires Saw(start, run, c, i, j, k)
    ensures Saw(start, run + [e], c, i, j, k)
  {
    assert (run + [e])[..i] == run[..i] && (run + [e])[..j] == run[..j] && (run + [e])[..k] == run[..k];
  }

  lemma {:induction false} WhatAVerificationSaw(start: Time, run: seq<Event>, v: nat) returns (i: nat, j: nat, k: nat)
    requires v in After(start, run).checks
    ensures Saw(start, run, After(start, run).checks[v], i, j, k)
    decreases |run|
  {
    assert run != [];
    var front, e := run[..|run| - 1], run[|run| - 1];
    var s, n := After(start, front), |run| - 1;
    assert run == front + [e] && run[..n] == front;
    if v in s.checks {
      i, j, k := WhatAVerificationSaw(start, front, v);
      SawBefore(start, front, e, s.checks[v], i, j, k);
      if e == ReadClock(v) && s.checks[v].stage == Found {
        j, k := n, n;
      } else if e == FindAdmin(v) && s.checks[v].stage == Live {
        k := n;
      }
    } else {
      i, j, k := n, n, n;
    }
  }

  /**
   Soundness under interleaving. A verification about to succeed, whatever was logged out,
   removed or purged since it began, looked its session up at a moment i when the token had
   been issued, at t0, and not logged out; read the clock at a later moment j between t0 and
   t0 + 24h; and found the admin at k.
   */
  lemma VerificationIsSound(start: Time, run: seq<Event>, v: nat) returns (i: nat, j: nat, k: nat)
    requires v in After(start, run).checks && After(start, run).checks[v].stage == Cleared
    ensures i <= j <= k <= |run|
    ensures var hash := After(start, run).checks[v].hash;
      var issued := Issued(start, run[..i], hash);
      issued.Some? && issued.value.at <= At(start, run, j).now <= issued.value.at + SESSION_TTL
      && issued.value.adminId in At(start, run, k).admins
  {
    i, j, k := WhatAVerificationSaw(start, run, v);
    RowsTellTheirLogin(start, run[..i], After(start, run).checks[v].hash);
    TimeMovesOn(start, run, i, j);
  }

  lemma {:induction false} TimeMovesOn(start: Time, run: seq<Event>, i: nat, j: nat)
    requires i <= j <= |run|
    ensures At(start, run, i).now <= At(start, run, j).now
    decreases j
  {
    if i < j {
      TimeMovesOn(start, run, i, j - 1);
      assert run[..j][..j - 1] == run[..j - 1];
    }
  }

  // The same history without verifications and purges.
  function WithoutHousekeeping(run: seq<Event>): seq<Event> {
    if run == [] then []
    else
      var front := WithoutHousekeeping(run[..|run| - 1]);
      if run[|run| - 1].IsHousekeeping() then front else front + [run[|run| - 1]]
  }

  lemma AfterOneMore(start: Time, run: seq<Event>, e: Event, hash: string)
    ensures After(start, run + [e]) == Next(After(start, run), e)
    ensures Issued(start, run + [e], hash) == NextIssued(After(start, run), e, hash, Issued(start, run, hash))
  {
    assert (run + [e])[..|run + [e]| - 1] == run;
  }

  // What logins depend on.
  predicate SameLogins(s: State, s': State) {
    s.now == s'.now && s.admins == s'.admins && s.used == s'.used
  }

  lemma HousekeepingStep(s: State, e: Event, hash: string, issued: Option<Issue>)
    requires e.IsHousekeeping()
    ensures SameLogins(Next(s, e), s) && NextIssued(s, e, hash, issued) == issued
  {
  }

  lemma OtherStep(s: State, s': State, e: Event, hash: string, issued: Option<Issue>)
    requires !e.IsHousekeeping() && SameLogins(s, s')
    ensures SameLogins(Next(s, e), Next(s', e)) && NextIssued(s, e, hash, issued) == NextIssued(s', e, hash, issued)
  {
  }

  lemma {:induction false} HousekeepingLeavesLogins(start: Time, run: seq<Event>, hash: string)
    ensures SameLogins(After(start, run), After(start, WithoutHousekeeping(run)))
    ensures Issued(start, WithoutHousekeeping(run), hash) == Issued(start, run, hash)
  {
    if run != [] {
      var front, e := run[..|run| - 1], run[|run| - 1];
      HousekeepingLeavesLogins(start, front, hash);
      var s, s', issued := After(start, front), After(start, WithoutHousekeeping(front)), Issued(start, front, hash);
      assert run == front + [e];
      AfterOneMore(start, front, e, hash);
      if e.IsHousekeeping() {
        HousekeepingStep(s, e, hash, issued);
      } else {
        OtherStep(s, s', e, hash, issued);
        AfterOneMore(start, WithoutHousekeeping(front), e, hash);
      }
    }
  }

  /**
   Purging is unobservable: with and without the janitor, and with and without the deletions
   and touches of verifications, finished or not, every token gets the same answer, unless it is
   exactly 24 hours old.
   */
  lemma HousekeepingIsInvisible(start: Time, run: seq<Event>, hash: string)
    requires var issued := Issued(start, run, hash);
      issued.Some? ==> After(start, run).now != issued.value.at + SESSION_TTL
    ensures Answer(After(start, run), hash) <==> Answer(After(start, WithoutHousekeeping(run)), hash)
  {
    HousekeepingLeavesLogins(start, run, hash);
    RowsTellTheirLogin(start, run, hash);
    RowsTellTheirLogin(start, WithoutHousekeeping(run), hash);
  }

  /** At that instant the janitor does make a difference. */
  lemma PurgeShowsAtTheLastInstant(start: Time, hash: string, adminId: string)
    ensures var run := [] + [AddAdmin(adminId)] + [Login(hash, adminId)] + [Tick(SESSION_TTL)];
      Answer(After(start, run), hash) && !Answer(After(start, run + [Purge]), hash)
  {
    var run0: seq<Event> := [];
    var run1 := run0 + [AddAdmin(adminId)];
    var run2 := run1 + [Login(hash, adminId)];
    var run3 := run2 + [Tick(SESSION_TTL)];
    AfterOneMore(start, run0, AddAdmin(adminId), hash);
    AfterOneMore(start, run1, Login(hash, adminId), hash);
    AfterOneMore(start, run2, Tick(SESSION_TTL), hash);
    AfterOneMore(start, run3, Purge, hash);
  }

  // No step moves a session's expiry, and a hash is used once.
  lemma StepNeverExtends(s: State, e: Event, hash: string)
    requires Inv(s)
    ensures s.used <= Next(s, e).used
    ensures hash in s.sessions && hash in Next(s, e).sessions ==> SameLogin(Next(s, e).sessions[hash], s.sessions[hash])
    ensures hash in s.used && hash !in s.sessions ==> hash !in Next(s, e).sessions
  {
  }

  /**
   Using a session neither extends nor revives it. From any moment on, however often it is
   verified and however late the touches of interrupted verifications arrive, a session keeps
   its expiry as long as it is there; once it is gone it stays gone; and past its 24 hours its
   token is refused.
   */
  lemma {:induction false} VerifyingNeitherExtendsNorRevives(start: Time, run: seq<Event>, more: seq<Event>,
      hash: string)
    ensures var s, s' := After(start, run), After(start, run + more);
      && s.used <= s'.used
      && (hash in s.sessions && hash in s'.sessions ==> s'.sessions[hash].expiresAt == s.sessions[hash].expiresAt)
      && (hash in s.used && hash !in s.sessions ==> hash !in s'.sessions)
    ensures var issued := Issued(start, run + more, hash);
      issued.None? || After(start, run + more).now > issued.value.at + SESSION_TTL ==> !Answer(After(start, run
          + more), hash)
    decreases |more|
  {
    RowsTellTheirLogin(start, run + more, hash);
    if more == [] {
      assert run + more == run;
    } else {
      var front, e := more[..|more| - 1], more[|more| - 1];
      VerifyingNeitherExtendsNorRevives(start, run, front, hash);
      assert run + more == (run + front) + [e];
      AfterOneMore(start, run + front, e, hash);
      RunInv(start, run);
      RunInv(start, run + front);
      StepNeverExtends(After(start, run + front), e, hash);
    }
  }

  /** A session ends with its logout or its admin, for good: whatever follows, its token is refused. */
  lemma EndedIsEnded(start: Time, run: seq<Event>, hash: string, end: Event, more: seq<Event>)
    requires hash in After(start, run).sessions
    requires end == Logout(hash) || end == RemoveAdmin(After(start, run).sessions[hash].adminId)
    ensures hash !in After(start, run + [end] + more).sessions && !Answer(After(start, run + [end] + more), hash)
  {
    RunInv(start, run);
    AfterOneMore(start, run, end, hash);
    VerifyingNeitherExtendsNorRevives(start, run + [end], more, hash);
  }

  /** A verification that nothing interrupts is what VerifySession does in one go. */
  lemma UndisturbedVerification(s: State, v: nat, hash: string)
    requires v !in s.checks
    ensures var s' := Next(Next(Next(s, Lookup(v, hash)), ReadClock(v)), FindAdmin(v));
      && (v in s'.checks && s'.checks[v].stage == Cleared <==> Answer(s, hash))
      && Next(Next(s', Drop(v)), Touch(v)).sessions == Verified(s.sessions, s.admins, hash, s.now)
  {
    if hash in s.sessions {
      var s1 := Next(s, Lookup(v, hash));
      var s2 := Next(s1, ReadClock(v));
      var s3 := Next(s2, FindAdmin(v));
      assert s3.sessions == s.sessions && v in s3.checks && s3.checks[v].hash == hash && s3.checks[v].at == s.now;
    }
  }
}
