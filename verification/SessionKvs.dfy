/**
 The session store over a key-value backend (session/backend/kvs/kvs.go): sessions and per-user index
 records live in one flat key space.  JSON encoding is abstracted to the two kinds of record; reading a
 record as the other kind is an error.
 */
module SessionKvs {
  import opened Wrappers
  import opened SessionModel
  import KV = KeyValue

  datatype Record = SessionRecord(s: Session) | IndexRecord(ids: seq<string>)

  type Data = KV.Data<Record>

  /** Key prefix and default time to live. */
  datatype Env = Env(prefix: string, defaultTTL: int)

  const HOUR := 3_600_000_000_000

  function SessionKey(env: Env, id: string): string {
    env.prefix + id
  }

  function UserKey(env: Env, user: string): string {
    env.prefix + "user:" + user
  }

  /** A well-formed session ID cannot address an index record: its fifth character would be a colon. */
  lemma KeysDisjoint(env: Env, id: string, user: string)
    requires ValidId(id)
    ensures SessionKey(env, id) != UserKey(env, user)
  {
    var n := |env.prefix|;
    assert SessionKey(env, id)[n..] == id;
    assert UserKey(env, user)[n..] == "user:" + user;
    assert ("user:" + user)[4] == ':';
    assert |id| > 4 ==> UrlSafe(id[4]);
  }

  lemma SessionKeysDistinct(env: Env, id1: string, id2: string)
    ensures SessionKey(env, id1) == SessionKey(env, id2) ==> id1 == id2
  {
    var n := |env.prefix|;
    assert SessionKey(env, id1)[n..] == id1 && SessionKey(env, id2)[n..] == id2;
  }

  lemma UserKeysDistinct(env: Env, user1: string, user2: string)
    ensures UserKey(env, user1) == UserKey(env, user2) ==> user1 == user2
  {
    var n := |env.prefix| + 5;
    assert UserKey(env, user1)[n..] == user1 && UserKey(env, user2)[n..] == user2;
  }

  // ----- the operations as functions of the stored records -----

  /** The entry's time to live: what the session has left, or the default. */
  function EntryTTL(env: Env, s: Session, now: Time): int {
    if TTL(s, now) <= 0 && env.defaultTTL > 0 then env.defaultTTL else TTL(s, now)
  }

  function Without(ids: seq<string>, id: string): seq<string> {
    if ids == [] then []
    else Without(ids[..|ids| - 1], id) + if ids[|ids| - 1] != id then [ids[|ids| - 1]] else []
  }

  function UserIds(data: Data, key: string, now: Time): Result<seq<string>, Error> {
    match KV.Lookup<Record>(data, key, now)
    case None => Ok([])
    case Some(IndexRecord(ids)) => Ok(ids)
    case Some(SessionRecord(_)) => Err(BadRecord)
  }

  function AddToIndex(data: Data, key: string, id: string, ttl: int, now: Time): Data {
    var ids := UserIds(data, key, now);
    if ids.Err? || id in ids.value then data
    else KV.Put(data, key, IndexRecord(ids.value + [id]), ttl + HOUR, now)
  }

  function RemoveFromIndex(data: Data, key: string, id: string, now: Time): Data {
    var ids := UserIds(data, key, now);
    if ids.Err? || ids.value == [] then data
    else if Without(ids.value, id) == [] then data - {key}
    else KV.Put(data, key, IndexRecord(Without(ids.value, id)), 0, now)
  }

  function CreateData(env: Env, data: Data, s: Session, now: Time): Data {
    var ttl := EntryTTL(env, s, now);
    AddToIndex(KV.Put(data, SessionKey(env, s.id), SessionRecord(s), ttl, now), UserKey(env, s.user), s.id, ttl, now)
  }

  function DeleteData(env: Env, data: Data, id: string, now: Time): Data {
    if !ValidId(id) then data
    else
      match KV.Lookup<Record>(data, SessionKey(env, id), now)
      case Some(SessionRecord(s)) =>
        if s.id != id then data
        else RemoveFromIndex(data, UserKey(env, s.user), id, now) - {SessionKey(env, id)}
      case _ => data
  }

  function GetData(env: Env, data: Data, id: string, now: Time): (Data, Result<Session, Error>) {
    if !ValidId(id) then (data, Err(NotFound))
    else
      match KV.Lookup<Record>(data, SessionKey(env, id), now)
      case None => (data, Err(NotFound))
      case Some(IndexRecord(_)) => (data, Err(BadRecord))
      case Some(SessionRecord(s)) =>
        if s.id != id then (data, Err(NotFound))
        else if IsExpired(s, now) then (DeleteData(env, data, id, now), Err(Expired))
        else (data, Ok(s))
  }

  function UpdateData(env: Env, data: Data, s: Session, now: Time): (Data, Option<Error>) {
    var key := SessionKey(env, s.id);
    if !ValidId(s.id) then (data, Some(InvalidSession))
    else if KV.Lookup(data, key, now).None? then (data, Some(NotFound))
    else
      var stamped := s.(updatedAt := now);
      (KV.Put(data, key, SessionRecord(stamped), EntryTTL(env, stamped, now), now), None)
  }

  function TouchData(env: Env, data: Data, id: string, now: Time): (Data, Option<Error>) {
    var (data1, r) := GetData(env, data, id, now);
    if r.Err? then (data1, Some(r.error))
    else UpdateData(env, data1, r.value.(lastAccessedAt := now), now)
  }

  function SessionKeys(env: Env, ids: seq<string>): set<string> {
    set i | 0 <= i < |ids| :: SessionKey(env, ids[i])
  }

  /** Reads the listed sessions one after the other; an expired one is deleted on the way. */
  function Fetch(env: Env, data: Data, ids: seq<string>, now: Time): (Data, seq<Session>) {
    if ids == [] then (data, [])
    else
      var (data1, found) := Fetch(env, data, ids[..|ids| - 1], now);
      var (data2, r) := GetData(env, data1, ids[|ids| - 1], now);
      (data2, if r.Ok? then found + [r.value] else found)
  }

  /** A session is stored under the ID, and the entry has no deadline or has not passed it. */
  predicate Holds(env: Env, data: Data, id: string, now: Time) {
    var key := SessionKey(env, id);
    && ValidId(id) && key in data
    && (data[key].expiresAt.None? || now <= data[key].expiresAt.value)
    && data[key].value.SessionRecord? && data[key].value.s.id == id
  }

  /** A session just stored can be read until its end; without one, or if that has passed, for the default time to live. */
  lemma GetAfterCreate(env: Env, data: Data, s: Session, now: Time, later: Time)
    requires ValidId(s.id) && now <= later
    ensures GetData(env, CreateData(env, data, s, now), s.id, later).1.Ok? <==>
            && (s.expiresAt.Some? ==> later <= s.expiresAt.value)
            && (s.expiresAt.None? || s.expiresAt.value <= now ==> env.defaultTTL <= 0 || later <= now + env.defaultTTL)
    ensures GetData(env, CreateData(env, data, s, now), s.id, later).1.Ok? ==>
              GetData(env, CreateData(env, data, s, now), s.id, later).1.value == s
  {
    var ttl := EntryTTL(env, s, now);
    KeysDisjoint(env, s.id, s.user);
    KV.LookupAfterPut(data, SessionKey(env, s.id), SessionRecord(s), ttl, now, later);
  }

  /** The same of a session just updated, which carries the stamp. */
  lemma GetAfterUpdate(env: Env, data: Data, s: Session, now: Time, later: Time)
    requires UpdateData(env, data, s, now).1.None? && now <= later
    ensures
      var r := GetData(env, UpdateData(env, data, s, now).0, s.id, later).1;
      && (r.Ok? <==>
            && (s.expiresAt.Some? ==> later <= s.expiresAt.value)
            && (s.expiresAt.None? || s.expiresAt.value <= now ==> env.defaultTTL <= 0 || later <= now + env.defaultTTL))
      && (r.Ok? ==> r.value == s.(updatedAt := now))
  {
    var stamped := s.(updatedAt := now);
    KV.LookupAfterPut(data, SessionKey(env, s.id), SessionRecord(stamped), EntryTTL(env, stamped, now), now, later);
  }

  /** A session is stored under the ID, and neither it nor its entry has passed its end. */
  predicate HoldsLive(env: Env, data: Data, id: string, now: Time) {
    Holds(env, data, id, now) && Lasts(data[SessionKey(env, id)].value.s, now)
  }

  /** The live sessions of these IDs, in their order. */
  function LiveSessions(env: Env, data: Data, ids: seq<string>, now: Time): seq<Session> {
    if ids == [] then []
    else
      var id := ids[|ids| - 1];
      LiveSessions(env, data, ids[..|ids| - 1], now) +
      if HoldsLive(env, data, id, now) then [data[SessionKey(env, id)].value.s] else []
  }

  ghost predicate SameLive(env: Env, data: Data, data': Data, now: Time) {
    forall id ::
      && (HoldsLive(env, data', id, now) <==> HoldsLive(env, data, id, now))
      && (HoldsLive(env, data, id, now) ==> data'[SessionKey(env, id)] == data[SessionKey(env, id)])
  }

  lemma GetKeepsLive(env: Env, data: Data, id: string, now: Time)
    ensures SameLive(env, data, GetData(env, data, id, now).0, now)
    ensures
      var r := GetData(env, data, id, now).1;
      (r.Ok? <==> HoldsLive(env, data, id, now)) && (r.Ok? ==> r.value == data[SessionKey(env, id)].value.s)
  {
    var data' := GetData(env, data, id, now).0;
    if data' != data {
      var user := data[SessionKey(env, id)].value.s.user;
      forall k
        ensures HoldsLive(env, data', k, now) <==> HoldsLive(env, data, k, now)
        ensures HoldsLive(env, data, k, now) ==> data'[SessionKey(env, k)] == data[SessionKey(env, k)]
      {
        SessionKeysDistinct(env, k, id);
        if ValidId(k) {
          KeysDisjoint(env, k, user);
        }
      }
    }
  }

  /** A listing has exactly the live sessions of the IDs it goes over, whatever it deletes on the way. */
  lemma {:induction false} FetchMeans(env: Env, data: Data, ids: seq<string>, now: Time)
    ensures Fetch(env, data, ids, now).1 == LiveSessions(env, data, ids, now)
    ensures SameLive(env, data, Fetch(env, data, ids, now).0, now)
  {
    if ids != [] {
      var n := |ids| - 1;
      FetchMeans(env, data, ids[..n], now);
      var data1 := Fetch(env, data, ids[..n], now).0;
      GetKeepsLive(env, data1, ids[n], now);
      assert HoldsLive(env, data1, ids[n], now) <==> HoldsLive(env, data, ids[n], now);
    }
  }

  ghost predicate KvsNext(env: Env, data: Data, op: Op, now: Time, data': Data, reply: Reply) {
    match op
    case Create(s) =>
      if !ValidId(s.id) then data' == data && reply == Fail(InvalidSession)
      else data' == CreateData(env, data, s, now) && reply == Done
    case Get(id) =>
      var (data1, r) := GetData(env, data, id, now);
      data' == data1 && reply == if r.Ok? then Found(r.value) else Fail(r.error)
    case Update(s) =>
      var (data1, err) := UpdateData(env, data, s, now);
      data' == data1 && reply == if err.None? then Done else Fail(err.value)
    case Delete(id) =>
      data' == DeleteData(env, data, id, now) && reply == Done
    case DeleteByUser(user) =>
      (match UserIds(data, UserKey(env, user), now)
       case Err(e) => data' == data && reply == Fail(e)
       case Ok(ids) => data' == data - SessionKeys(env, ids) - {UserKey(env, user)} && reply == Count(|ids|))
    case Touch(id) =>
      var (data1, err) := TouchData(env, data, id, now);
      data' == data1 && reply == if err.None? then Done else Fail(err.value)
    case List(user) =>
      (match UserIds(data, UserKey(env, user), now)
       case Err(e) => data' == data && reply == Fail(e)
       case Ok(ids) =>
         var (data1, found) := Fetch(env, data, ids, now);
         && data' == data1 && reply.Listing?
         && Sorted(reply.sessions) && multiset(reply.sessions) == multiset(found))
  }

  /** The IDs of an index record whose sessions can still be read. */
  function Present(env: Env, data: Data, ids: seq<string>, now: Time): seq<string> {
    if ids == [] then []
    else
      var id := ids[|ids| - 1];
      Present(env, data, ids[..|ids| - 1], now) +
      if KV.Lookup(data, SessionKey(env, id), now).Some? then [id] else []
  }

  /** What a cleanup round does to one index record. */
  function CleanIndex(env: Env, data: Data, user: string, now: Time): Data {
    var key := UserKey(env, user);
    var ids := UserIds(data, key, now);
    if ids.Err? then data
    else
      var present := Present(env, data, ids.value, now);
      if present == [] then data - {key}
      else if |present| < |ids.value| then KV.Put(data, key, IndexRecord(present), 0, now)
      else data
  }

  function CleanIndexes(env: Env, data: Data, users: seq<string>, now: Time): Data {
    if users == [] then data
    else CleanIndex(env, CleanIndexes(env, data, users[..|users| - 1], now), users[|users| - 1], now)
  }

  lemma {:induction false} PresentElements(env: Env, data: Data, ids: seq<string>, now: Time)
    ensures forall x :: x in Present(env, data, ids, now) <==> x in ids && KV.Lookup(data, SessionKey(env, x), now).Some?
  {
    if ids != [] {
      var n := |ids| - 1;
      PresentElements(env, data, ids[..n], now);
      assert ids == ids[..n] + [ids[n]];
    }
  }

  /** Index records list well-formed IDs only. */
  ghost predicate WellFormedIndexes(env: Env, data: Data) {
    forall user | UserKey(env, user) in data && data[UserKey(env, user)].value.IndexRecord? ::
      forall id | id in data[UserKey(env, user)].value.ids :: ValidId(id)
  }

  predicate Readable(env: Env, data: Data, id: string, now: Time) {
    KV.Lookup(data, SessionKey(env, id), now).Some?
  }

  /** The user's index record lists what could be read of it before, and is gone if that was nothing. */
  ghost predicate Cleaned(env: Env, data: Data, data': Data, user: string, now: Time) {
    var key := UserKey(env, user);
    var ids := UserIds(data, key, now);
    ids.Ok? ==>
      && (key in data' <==> exists id :: id in ids.value && Readable(env, data, id, now))
      && (key in data' ==>
            && data'[key].value.IndexRecord?
            && forall id :: id in data'[key].value.ids <==> id in ids.value && Readable(env, data, id, now))
  }

  /** Nothing but the index records of these users is touched. */
  ghost predicate OnlyIndexes(env: Env, data: Data, data': Data, users: seq<string>) {
    forall key | (forall i | 0 <= i < |users| :: key != UserKey(env, users[i])) ::
      (key in data' <==> key in data) && (key in data ==> data'[key] == data[key])
  }

  lemma CleanOneIndex(env: Env, data: Data, user: string, now: Time)
    requires KV.Lookup(data, UserKey(env, user), now).Some?
    ensures Cleaned(env, data, CleanIndex(env, data, user, now), user, now)
  {
    var ids := UserIds(data, UserKey(env, user), now);
    if ids.Ok? {
      var present := Present(env, data, ids.value, now);
      PresentElements(env, data, ids.value, now);
      PresentLength(env, data, ids.value, now);
      if present != [] {
        assert present[0] in present;
        assert Readable(env, data, present[0], now);
      }
    }
  }

  lemma {:induction false} PresentLength(env: Env, data: Data, ids: seq<string>, now: Time)
    ensures |Present(env, data, ids, now)| <= |ids|
    ensures |Present(env, data, ids, now)| == |ids| ==> Present(env, data, ids, now) == ids
  {
    if ids != [] {
      PresentLength(env, data, ids[..|ids| - 1], now);
    }
  }

  /**
   A cleanup round over distinct users with index records restricts each record to the IDs that could be read, or
   removes it, and touches nothing else, if the records list well-formed IDs only.
   */
  lemma {:induction false} CleanupRound(env: Env, data: Data, users: seq<string>, now: Time)
    requires WellFormedIndexes(env, data)
    requires forall i, j | 0 <= i < j < |users| :: users[i] != users[j]
    requires forall i | 0 <= i < |users| :: KV.Lookup(data, UserKey(env, users[i]), now).Some?
    ensures
      var data' := CleanIndexes(env, data, users, now);
      OnlyIndexes(env, data, data', users) && forall i | 0 <= i < |users| :: Cleaned(env, data, data', users[i], now)
    decreases |users|
  {
    if users != [] {
      var n := |users| - 1;
      var before, user := users[..n], users[n];
      CleanupRound(env, data, before, now);
      var data1 := CleanIndexes(env, data, before, now);
      var key := UserKey(env, user);
      forall i | 0 <= i < n
        ensures UserKey(env, before[i]) != key
      {
        UserKeysDistinct(env, before[i], user);
      }
      LastCleaned(env, data, data1, before, user, now);
      var data2 := CleanIndex(env, data1, user, now);
      OnlyLast(env, data, data1, data2, users, now);
      forall i | 0 <= i < n
        ensures Cleaned(env, data, data2, users[i], now)
      {
        assert before[i] == users[i];
        StillCleaned(env, data, data1, before[i], user, now);
      }
    }
  }

  lemma LastCleaned(env: Env, data: Data, data1: Data, before: seq<string>, user: string, now: Time)
    requires WellFormedIndexes(env, data) && OnlyIndexes(env, data, data1, before)
    requires forall i | 0 <= i < |before| :: UserKey(env, before[i]) != UserKey(env, user)
    requires KV.Lookup(data, UserKey(env, user), now).Some?
    ensures Cleaned(env, data, CleanIndex(env, data1, user, now), user, now)
  {
    SameReadable(env, data, data1, before, user, now);
    CleanOneIndex(env, data1, user, now);
  }

  lemma StillCleaned(env: Env, data: Data, data1: Data, user: string, last: string, now: Time)
    requires UserKey(env, user) != UserKey(env, last) && Cleaned(env, data, data1, user, now)
    ensures Cleaned(env, data, CleanIndex(env, data1, last, now), user, now)
  {
  }

  lemma OnlyLast(env: Env, data: Data, data1: Data, data2: Data, users: seq<string>, now: Time)
    requires users != [] && OnlyIndexes(env, data, data1, users[..|users| - 1])
    requires data2 == CleanIndex(env, data1, users[|users| - 1], now)
    ensures OnlyIndexes(env, data, data2, users)
  {
    var n := |users| - 1;
    forall key | forall i | 0 <= i < |users| :: key != UserKey(env, users[i])
      ensures (key in data2 <==> key in data) && (key in data ==> data2[key] == data[key])
    {
      assert key != UserKey(env, users[n]);
      assert forall i | 0 <= i < n :: users[..n][i] == users[i];
    }
  }

  /** Cleaning other index records changes nothing about the IDs of this one. */
  lemma SameReadable(env: Env, data: Data, data1: Data, users: seq<string>, user: string, now: Time)
    requires WellFormedIndexes(env, data) && OnlyIndexes(env, data, data1, users)
    requires KV.Lookup(data, UserKey(env, user), now).Some?
    ensures
      var ids := UserIds(data, UserKey(env, user), now);
      ids.Ok? ==> forall id | id in ids.value :: Readable(env, data1, id, now) <==> Readable(env, data, id, now)
  {
    var ids := UserIds(data, UserKey(env, user), now);
    if ids.Ok? {
      forall id | id in ids.value
        ensures Readable(env, data1, id, now) <==> Readable(env, data, id, now)
      {
        forall i | 0 <= i < |users|
          ensures SessionKey(env, id) != UserKey(env, users[i])
        {
          KeysDisjoint(env, id, users[i]);
        }
      }
    }
  }

  /** Users read off the listed keys are those with an index record, each once. */
  lemma UsersListed(env: Env, data: Data, keys: seq<string>, users: seq<string>, now: Time)
    requires multiset(keys) == multiset(KV.LiveKeys(data, env.prefix + "user:", now))
    requires |users| == |keys| && forall i | 0 <= i < |keys| :: keys[i] == UserKey(env, users[i])
    ensures forall i, j | 0 <= i < j < |users| :: users[i] != users[j]
    ensures forall user :: user in users <==> KV.Lookup(data, UserKey(env, user), now).Some?
  {
    forall i, j | 0 <= i < j < |users|
      ensures users[i] != users[j]
    {
      TwoOccurrences(keys, i, j);
      assert multiset(keys)[keys[i]] <= 1;
    }
    forall user
      ensures user in users <==> KV.Lookup(data, UserKey(env, user), now).Some?
    {
      var key := UserKey(env, user);
      assert env.prefix + "user:" <= key;
      assert key in keys <==> key in multiset(keys);
      if key in keys {
        var i :| 0 <= i < |keys| && keys[i] == key;
        UserKeysDistinct(env, users[i], user);
      }
    }
  }

  class KvsStore {
    const backend: KV.KeyValueStore<Record>
    const env: Env
    var closed: bool

    ghost predicate Valid()
      reads this, backend
    {
      backend.closed == closed
    }

    constructor (backend: KV.KeyValueStore<Record>, prefix: string, defaultTTL: int)
      requires !backend.closed
      ensures Valid() && !closed && this.backend == backend
      ensures env == Env(if prefix == "" then "session:" else prefix, defaultTTL)
    {
      this.backend := backend;
      this.env := Env(if prefix == "" then "session:" else prefix, defaultTTL);
      this.closed := false;
    }

    method Create(sess: SessionRef?, now: Time) returns (err: Option<Error>)
      requires Valid()
      modifies backend
      ensures Valid()
      ensures closed ==> err == Some(StoreClosed) && backend.data == old(backend.data)
      ensures !closed && sess == null ==> err == Some(InvalidSession) && backend.data == old(backend.data)
      ensures !closed && sess != null ==>
                KvsNext(env, old(backend.data), Op.Create(sess.value), now, backend.data,
                        if err.None? then Done else Fail(err.value))
    {
      if closed {
        return Some(StoreClosed);
      }
      if sess == null {
        return Some(InvalidSession);
      }
      var valid := ValidSessionID(sess.value.id);
      if !valid {
        return Some(InvalidSession);
      }
      var s := sess.value;
      var ttl: int := TTL(s, now);
      if ttl <= 0 && env.defaultTTL > 0 {
        ttl := env.defaultTTL;
      }
      var _ := backend.Set(SessionKey(env, s.id), SessionRecord(s), ttl, now);
      AddToUserIndex(UserKey(env, s.user), s.id, ttl, now);
      return None;
    }

    method GetUserSessionIDs(key: string, now: Time) returns (r: Result<seq<string>, Error>)
      requires Valid() && !closed
      ensures r == UserIds(backend.data, key, now)
    {
      var got := backend.Get(key, now);
      match got {
        case KeyNotFound => return Ok([]);
        case Value(IndexRecord(ids)) => return Ok(ids);
        case Value(SessionRecord(_)) => return Err(BadRecord);
      }
    }

    /** Best effort: an index that cannot be read is left alone. */
    method AddToUserIndex(key: string, id: string, ttl: int, now: Time)
      requires Valid() && !closed
      modifies backend
      ensures Valid() && backend.data == AddToIndex(old(backend.data), key, id, ttl, now)
    {
      var ids := GetUserSessionIDs(key, now);
      if ids.Err? {
        return;
      }
      for i := 0 to |ids.value|
        invariant id !in ids.value[..i]
      {
        if ids.value[i] == id {
          return;
        }
      }
      var _ := backend.Set(key, IndexRecord(ids.value + [id]), ttl + HOUR, now);
    }

    method RemoveFromUserIndex(key: string, id: string, now: Time)
      requires Valid() && !closed
      modifies backend
      ensures Valid() && backend.data == RemoveFromIndex(old(backend.data), key, id, now)
    {
      var ids := GetUserSessionIDs(key, now);
      if ids.Err? || |ids.value| == 0 {
        return;
      }
      var filtered: seq<string> := [];
      for i := 0 to |ids.value|
        invariant filtered == Without(ids.value[..i], id)
      {
        assert ids.value[..i + 1][..i] == ids.value[..i];
        if ids.value[i] != id {
          filtered := filtered + [ids.value[i]];
        }
      }
      assert ids.value[..|ids.value|] == ids.value;
      if |filtered| == 0 {
        var _ := backend.Delete(key);
      } else {
        var _ := backend.Set(key, IndexRecord(filtered), 0, now);
      }
    }

    method Get(id: string, now: Time) returns (r: Result<Session, Error>)
      requires Valid()
      modifies backend
      ensures Valid()
      ensures closed ==> r == Err(StoreClosed) && backend.data == old(backend.data)
      ensures !closed ==> (backend.data, r) == GetData(env, old(backend.data), id, now)
      ensures !closed && Holds(env, old(backend.data), id, now) ==>
                var s := old(backend.data)[SessionKey(env, id)].value.s;
                if s.expiresAt.None? || now <= s.expiresAt.value then r == Ok(s) && backend.data == old(backend.data)
                else r == Err(Expired) && SessionKey(env, id) !in backend.data
      ensures !closed && !Holds(env, old(backend.data), id, now) ==> r.Err? && backend.data == old(backend.data)
    {
      if closed {
        return Err(StoreClosed);
      }
      var valid := ValidSessionID(id);
      if !valid {
        return Err(NotFound);
      }
      var got := backend.Get(SessionKey(env, id), now);
      match got {
        case KeyNotFound => return Err(NotFound);
        case Value(IndexRecord(_)) => return Err(BadRecord);
        case Value(SessionRecord(s)) =>
          if s.id != id {
            return Err(NotFound);
          }
          if IsExpired(s, now) {
            var _ := Delete(id, now);
            return Err(Expired);
          }
          return Ok(s);
      }
    }

    method Update(sess: SessionRef?, now: Time) returns (err: Option<Error>)
      requires Valid()
      modifies backend, sess
      ensures Valid()
      ensures closed ==> err == Some(StoreClosed) && backend.data == old(backend.data)
      ensures !closed && sess == null ==> err == Some(InvalidSession) && backend.data == old(backend.data)
      ensures !closed && sess != null ==>
                (backend.data, err) == UpdateData(env, old(backend.data), old(sess.value), now)
      ensures sess != null ==>
                sess.value == if err.None? then old(sess.value).(updatedAt := now) else old(sess.value)
    {
      if closed {
        return Some(StoreClosed);
      }
      if sess == null {
        return Some(InvalidSession);
      }
      var valid := ValidSessionID(sess.value.id);
      if !valid {
        return Some(InvalidSession);
      }
      var key := SessionKey(env, sess.value.id);
      var got := backend.Get(key, now);
      if got == KV.KeyNotFound {
        return Some(NotFound);
      }
      sess.value := sess.value.(updatedAt := now);
      var ttl: int := TTL(sess.value, now);
      if ttl <= 0 && env.defaultTTL > 0 {
        ttl := env.defaultTTL;
      }
      var _ := backend.Set(key, SessionRecord(sess.value), ttl, now);
      return None;
    }

    method Delete(id: string, now: Time) returns (err: Option<Error>)
      requires Valid()
      modifies backend
      ensures Valid()
      ensures closed ==> err == Some(StoreClosed) && backend.data == old(backend.data)
      ensures !closed ==> err == None && backend.data == DeleteData(env, old(backend.data), id, now)
    {
      if closed {
        return Some(StoreClosed);
      }
      var valid := ValidSessionID(id);
      if !valid {
        return None;
      }
      var got := backend.Get(SessionKey(env, id), now);
      match got {
        case KeyNotFound => return None;
        case Value(IndexRecord(_)) => return None;
        case Value(SessionRecord(s)) =>
          if s.id != id {
            return None;
          }
          RemoveFromUserIndex(UserKey(env, s.user), id, now);
          var _ := backend.Delete(SessionKey(env, id));
          return None;
      }
    }

    method DeleteByUserID(user: string, now: Time) returns (r: Result<nat, Error>)
      requires Valid()
      modifies backend
      ensures Valid()
      ensures closed ==> r == Err(StoreClosed) && backend.data == old(backend.data)
      ensures !closed ==>
                KvsNext(env, old(backend.data), DeleteByUser(user), now, backend.data,
                        if r.Ok? then Count(r.value) else Fail(r.error))
    {
      if closed {
        return Err(StoreClosed);
      }
      var ids := GetUserSessionIDs(UserKey(env, user), now);
      if ids.Err? {
        return Err(ids.error);
      }
      var count := 0;
      for i := 0 to |ids.value|
        invariant Valid()
        invariant backend.data == old(backend.data) - SessionKeys(env, ids.value[..i])
        invariant count == i
      {
        assert SessionKeys(env, ids.value[..i + 1]) == SessionKeys(env, ids.value[..i]) + {SessionKey(env, ids.value[i])} by {
          assert ids.value[..i + 1] == ids.value[..i] + [ids.value[i]];
          assert forall k | 0 <= k < i :: ids.value[..i + 1][k] == ids.value[..i][k];
          assert ids.value[..i + 1][i] == ids.value[i];
        }
        var ok := backend.Delete(SessionKey(env, ids.value[i]));
        if !ok {
          continue;
        }
        count := count + 1;
      }
      assert ids.value[..|ids.value|] == ids.value;
      var _ := backend.Delete(UserKey(env, user));
      return Ok(count);
    }

    method Touch(id: string, now: Time) returns (err: Option<Error>)
      requires Valid()
      modifies backend
      ensures Valid()
      ensures closed ==> err == Some(StoreClosed) && backend.data == old(backend.data)
      ensures !closed ==> (backend.data, err) == TouchData(env, old(backend.data), id, now)
    {
      var got := Get(id, now);
      if got.Err? {
        return Some(got.error);
      }
      var sess := new SessionRef(got.value.(lastAccessedAt := now));
      err := Update(sess, now);
    }

    method ListByUserID(user: string, now: Time) returns (r: Result<seq<Session>, Error>)
      requires Valid()
      modifies backend
      ensures Valid()
      ensures closed ==> r == Err(StoreClosed) && backend.data == old(backend.data)
      ensures !closed ==>
                KvsNext(env, old(backend.data), List(user), now, backend.data,
                        if r.Ok? then Listing(r.value) else Fail(r.error))
    {
      if closed {
        return Err(StoreClosed);
      }
      var ids := GetUserSessionIDs(UserKey(env, user), now);
      if ids.Err? {
        return Err(ids.error);
      }
      if |ids.value| == 0 {
        return Ok([]);
      }
      var found: seq<Session> := [];
      for i := 0 to |ids.value|
        invariant Valid()
        invariant (backend.data, found) == Fetch(env, old(backend.data), ids.value[..i], now)
      {
        assert ids.value[..i + 1][..i] == ids.value[..i];
        var sess := Get(ids.value[i], now);
        if sess.Ok? {
          found := found + [sess.value];
        }
      }
      assert ids.value[..|ids.value|] == ids.value;
      var a := new Session[|found|](i requires 0 <= i < |found| => found[i]);
      assert a[..] == found;
      SortByCreation(a);
      return Ok(a[..]);
    }

    /**
     One round of the background cleanup, over the index records in the order they are listed.  `users` are the
     users that have one.
     */
    method CleanupOrphanedIndexes(now: Time) returns (ghost users: seq<string>)
      requires Valid() && !closed
      modifies backend
      ensures Valid()
      ensures backend.data == CleanIndexes(env, old(backend.data), users, now)
      ensures forall i, j | 0 <= i < j < |users| :: users[i] != users[j]
      ensures forall user :: user in users <==> KV.Lookup(old(backend.data), UserKey(env, user), now).Some?
      ensures WellFormedIndexes(env, old(backend.data)) ==>
                && OnlyIndexes(env, old(backend.data), backend.data, users)
                && forall i | 0 <= i < |users| :: Cleaned(env, old(backend.data), backend.data, users[i], now)
    {
      users := [];
      var listed := backend.List(env.prefix + "user:", now);
      var keys := listed.value;
      for k := 0 to |keys|
        invariant Valid()
        invariant |users| == k && forall i | 0 <= i < k :: keys[i] == UserKey(env, users[i])
        invariant backend.data == CleanIndexes(env, old(backend.data), users, now)
      {
        assert keys[k] in multiset(keys);
        assert env.prefix + "user:" <= keys[k];
        var user := keys[k][|env.prefix| + 5..];
        assert keys[k] == UserKey(env, user);
        assert (users + [user])[..k] == users;
        users := users + [user];
        CleanOne(keys[k], user, now);
      }
      UsersListed(env, old(backend.data), keys, users, now);
      if WellFormedIndexes(env, old(backend.data)) {
        CleanupRound(env, old(backend.data), users, now);
      }
    }

    method CleanOne(key: string, user: string, now: Time)
      requires Valid() && !closed && key == UserKey(env, user)
      modifies backend
      ensures Valid() && backend.data == CleanIndex(env, old(backend.data), user, now)
    {
      var ids := GetUserSessionIDs(key, now);
      if ids.Err? {
        return;
      }
      var valid: seq<string> := [];
      for i := 0 to |ids.value|
        invariant Valid() && backend.data == old(backend.data)
        invariant valid == Present(env, backend.data, ids.value[..i], now)
      {
        assert ids.value[..i + 1][..i] == ids.value[..i];
        var got := backend.Get(SessionKey(env, ids.value[i]), now);
        if got.Value? {
          valid := valid + [ids.value[i]];
        }
      }
      assert ids.value[..|ids.value|] == ids.value;
      if |valid| == 0 {
        var _ := backend.Delete(UserKey(env, user));
      } else if |valid| < |ids.value| {
        var _ := backend.Set(key, IndexRecord(valid), 0, now);
      }
    }

    method Close()
      requires Valid()
      modifies this, backend
      ensures Valid() && closed
    {
      if closed {
        return;
      }
      closed := true;
      backend.Close();
    }
  }
}
