/** API keys: the first revocation wins and is final. */
module ApiKeys {
  import opened Metadata

  datatype ApiKey = ApiKey(id: string, name: string, tokenHash: string, createdAt: Time,
                           lastUsedAt: Option<Time>, revokedAt: Option<Time>)
  {
    predicate IsRevoked() {
      revokedAt.Some?
    }
  }

  // `api_keys`, by id; token hashes are unique.
  type KeyTable = map<string, ApiKey>

  ghost predicate UniqueHashes(t: KeyTable) {
    && (forall id | id in t :: t[id].id == id)
    && (forall a, b | a in t && b in t && t[a].tokenHash == t[b].tokenHash :: a == b)
  }

  function Touched(t: KeyTable, id: string, now: Time): KeyTable {
    if id in t then t[id := t[id].(lastUsedAt := Some(now))] else t
  }

  // UPDATE ... WHERE id = $1 AND revoked_at IS NULL
  function Revoked(t: KeyTable, id: string, now: Time): KeyTable {
    if id in t && t[id].revokedAt.None? then t[id := t[id].(revokedAt := Some(now))] else t
  }

  // INSERT: the id is the primary key and token hashes are unique.
  predicate Insertable(t: KeyTable, key: ApiKey) {
    key.id !in t && key.revokedAt.None? && forall id | id in t :: t[id].tokenHash != key.tokenHash
  }

  datatype CreateResult = Created(key: ApiKey) | EmptyName | CreateError

  datatype VerifyResult = Accepted(key: ApiKey) | KeyInvalid | RepositoryError

  class KeyRepository {
    var keys: KeyTable

    ghost predicate Valid()
      reads this
    {
      UniqueHashes(keys)
    }

    method Fails(callsSucceed: bool) returns (fails: bool)
      ensures callsSucceed ==> !fails
    {
      fails := *;
      fails := fails && !callsSucceed;
    }

    // Any statement may fail, unless `callsSucceed`.
    method FindByTokenHash(hash: string, callsSucceed: bool) returns (found: Option<ApiKey>, ok: bool)
      requires Valid()
      ensures callsSucceed ==> ok
      ensures found.Some? ==>
        ok && found.value.id in keys && keys[found.value.id] == found.value && found.value.tokenHash == hash
      ensures ok && found.None? ==> forall id | id in keys :: keys[id].tokenHash != hash
    {
      var fails := Fails(callsSucceed);
      if fails { return None, false; }
      var rest := keys.Keys;
      while rest != {}
        invariant rest <= keys.Keys
        invariant forall id | id in keys && id !in rest :: keys[id].tokenHash != hash
      {
        var id :| id in rest;
        rest := rest - {id};
        if keys[id].tokenHash == hash { return Some(keys[id]), true; }
      }
      return None, true;
    }

    // CreateAPIKey: id and hash come from the generators.
    method Create(name: string, trim: string -> string, id: string, hash: string, now: Time, callsSucceed: bool)
      returns (r: CreateResult)
      requires Valid()
      modifies this
      ensures Valid()
      ensures r.EmptyName? <==> trim(name) == ""
      ensures r.Created? ==>
        && id !in old(keys) && (forall other | other in old(keys) :: old(keys)[other].tokenHash != hash)
        && r.key == ApiKey(id, trim(name), hash, now, None, None) && keys == old(keys)[id := r.key]
      // when nothing fails, a name and a new id and hash are enough
      ensures callsSucceed && r.CreateError? ==>
        id in old(keys) || exists other :: other in old(keys) && old(keys)[other].tokenHash == hash
      ensures !r.Created? ==>
        keys == old(keys) || keys == old(keys)[id := ApiKey(id, trim(name), hash, now, None, None)]
    {
      var trimmed := trim(name);
      if trimmed == "" { return EmptyName; }
      var key := ApiKey(id, trimmed, hash, now, None, None);
      if !Insertable(keys, key) { return CreateError; }
      var fails := Fails(callsSucceed);
      if fails { return CreateError; }
      keys := keys[id := key];
      fails := Fails(callsSucceed);
      return if fails then CreateError else Created(key);
    }

    // VerifyAPIKey
    method Verify(key: string, hashKey: string -> string, now: Time, callsSucceed: bool) returns (r: VerifyResult)
      requires Valid()
      modifies this
      ensures Valid()
      ensures callsSucceed ==> !r.RepositoryError?
      // accepted: an unrevoked key with this hash, which alone is touched
      ensures r.Accepted? ==>
        && key != "" && r.key.tokenHash == hashKey(key) && r.key.revokedAt == None
        && r.key.id in old(keys) && old(keys)[r.key.id] == r.key
        && keys == old(keys)[r.key.id := r.key.(lastUsedAt := Some(now))]
      // refused: there is none
      ensures r.KeyInvalid? ==>
        && keys == old(keys)
        && (key == "" || forall id | id in keys && keys[id].tokenHash == hashKey(key) :: keys[id].revokedAt != None)
      ensures r.RepositoryError? ==>
        || keys == old(keys)
        || exists id | id in old(keys) && old(keys)[id].tokenHash == hashKey(key) ::
             keys == old(keys)[id := old(keys)[id].(lastUsedAt := Some(now))]
    {
      if key == "" { return KeyInvalid; }
      var found, ok := FindByTokenHash(hashKey(key), callsSucceed);
      if !ok { return RepositoryError; }
      if found.None? || found.value.IsRevoked() { return KeyInvalid; }
      var fails := Fails(callsSucceed);
      if fails { return RepositoryError; }
      keys := Touched(keys, found.value.id, now);
      fails := Fails(callsSucceed);
      return if fails then RepositoryError else Accepted(found.value);
    }

    // RevokeAPIKey. The key is refused from then on, and keeps the time of its first revocation;
    // revoking it again, or a key that does not exist, succeeds and changes nothing.
    method Revoke(id: string, now: Time, callsSucceed: bool) returns (ok: bool)
      requires Valid()
      modifies this
      ensures Valid() && keys.Keys == old(keys).Keys && (callsSucceed ==> ok)
      ensures forall other | other in keys && other != id :: keys[other] == old(keys)[other]
      ensures id !in old(keys) || old(keys)[id].revokedAt != None ==> keys == old(keys)
      ensures ok && id in keys ==> keys[id].revokedAt != None
      ensures id in keys && keys[id] != old(keys)[id] ==> keys[id] == old(keys)[id].(revokedAt := Some(now))
    {
      var fails := Fails(callsSucceed);
      if fails { return false; }
      keys := Revoked(keys, id, now);
      fails := Fails(callsSucceed);
      return !fails;
    }
  }

  datatype Event = Create(key: ApiKey) | Touch(id: string, at: Time) | Revoke(id: string, at: Time)

  // A touch may come at any time after the lookup that led to it.
  function Next(t: KeyTable, e: Event): KeyTable {
    match e
    case Create(key) => if Insertable(t, key) then t[key.id := key] else t
    case Touch(id, at) => Touched(t, id, at)
    case Revoke(id, at) => Revoked(t, id, at)
  }

  function After(t: KeyTable, run: seq<Event>): KeyTable {
    if run == [] then t else Next(After(t, run[..|run| - 1]), run[|run| - 1])
  }

  // The first revocation of a key the table holds.
  function FirstRevocation(run: seq<Event>, id: string): Option<Time> {
    if run == [] then None
    else
      var earlier := FirstRevocation(run[..|run| - 1], id);
      var e := run[|run| - 1];
      if earlier.None? && e.Revoke? && e.id == id then Some(e.at) else earlier
  }

  /**
   The first revocation is final: whatever follows it, further revocations and uses of the key
   included, the key is revoked as of that time, and a key never revoked is not.
   */
  lemma {:induction false} FirstRevocationIsFinal(t: KeyTable, run: seq<Event>, id: string)
    requires id in t && t[id].revokedAt.None?
    ensures id in After(t, run) && After(t, run)[id].revokedAt == FirstRevocation(run, id)
    ensures After(t, run)[id].tokenHash == t[id].tokenHash
  {
    if run != [] {
      FirstRevocationIsFinal(t, run[..|run| - 1], id);
    }
  }

  lemma {:induction false} HashesStayUnique(t: KeyTable, run: seq<Event>)
    requires UniqueHashes(t)
    ensures UniqueHashes(After(t, run))
  {
    if run != [] {
      HashesStayUnique(t, run[..|run| - 1]);
    }
  }

  /**
   A token of a key is refused at every lookup from its revocation on, and until then accepted:
   no other key answers to it.
   */
  lemma TokenWorksUntilRevoked(t: KeyTable, run: seq<Event>, id: string)
    requires UniqueHashes(t) && id in t && t[id].revokedAt.None?
    ensures var t' := After(t, run);
      forall other | other in t' && t'[other].tokenHash == t[id].tokenHash ::
        other == id && (t'[other].revokedAt != None <==> exists i | 0 <= i < |run| :: run[i].Revoke? && run[i].id == id)
  {
    FirstRevocationIsFinal(t, run, id);
    HashesStayUnique(t, run);
    RevocationIsAnEvent(run, id);
  }

  lemma {:induction false} RevocationIsAnEvent(run: seq<Event>, id: string)
    ensures FirstRevocation(run, id).Some? <==> exists i | 0 <= i < |run| :: run[i].Revoke? && run[i].id == id
  {
    if run != [] {
      var front := run[..|run| - 1];
      RevocationIsAnEvent(front, id);
      assert forall i | 0 <= i < |front| :: front[i] == run[i];
    }
  }
}
