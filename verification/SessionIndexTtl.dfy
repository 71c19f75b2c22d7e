/**
 Index records and session records expire on their own clocks (session/backend/kvs/kvs.go,
 kvs/backend/memory/memory.go).  This module says exactly when an index outlives the sessions it lists.
 */
module SessionIndexTtl {
  import opened Wrappers
  import opened SessionModel
  import opened SessionKvs
  import KV = KeyValue

  /** Deadline `a` is no earlier than deadline `b`; no deadline is the latest of all. */
  predicate Outlasts(a: Option<Time>, b: Option<Time>) {
    a.None? || (b.Some? && b.value <= a.value)
  }

  predicate Live(env: Env, data: Data, id: string, now: Time) {
    ValidId(id) && KV.Lookup(data, SessionKey(env, id), now).Some?
  }

  ghost predicate KeyKinds(env: Env, data: Data) {
    && (forall id | ValidId(id) && SessionKey(env, id) in data ::
          data[SessionKey(env, id)].value.SessionRecord? && data[SessionKey(env, id)].value.s.id == id)
    && (forall user | UserKey(env, user) in data ::
          && data[UserKey(env, user)].value.IndexRecord?
          && forall id | id in data[UserKey(env, user)].value.ids :: ValidId(id))
  }

  /** The session is in an index record of its user that expires no earlier than the session. */
  ghost predicate CoveredId(env: Env, data: Data, id: string)
    requires KeyKinds(env, data) && ValidId(id) && SessionKey(env, id) in data
  {
    var e := data[SessionKey(env, id)];
    var key := UserKey(env, e.value.s.user);
    key in data && id in data[key].value.ids && Outlasts(data[key].expiresAt, e.expiresAt)
  }

  ghost predicate Covered(env: Env, data: Data, now: Time) {
    KeyKinds(env, data) && forall id | Live(env, data, id, now) :: CoveredId(env, data, id)
  }

  /** So at any later time a session that can still be read is listed for its user. */
  lemma ListedWhileLive(env: Env, data: Data, now: Time, later: Time, id: string)
    requires Covered(env, data, now) && now <= later && Live(env, data, id, later)
    ensures
      var s := data[SessionKey(env, id)].value.s;
      var ids := UserIds(data, UserKey(env, s.user), later);
      ids.Ok? && id in ids.value
  {
    assert Live(env, data, id, now);
    assert CoveredId(env, data, id);
  }

  // ----- create and update: the exact conditions -----

  function Deadline(env: Env, s: Session, now: Time): Option<Time> {
    if EntryTTL(env, s, now) > 0 then Some(now + EntryTTL(env, s, now)) else None
  }

  /**
   What a caller of Create must see to: if the ID is not listed yet, the session has a time to live and no
   other live session of the user lasts more than an hour longer.
   */
  ghost predicate CreateGuard(env: Env, data: Data, s: Session, now: Time) {
    var key := UserKey(env, s.user);
    var ids := UserIds(data, key, now);
    if ids.Ok? && s.id in ids.value then Outlasts(data[key].expiresAt, Deadline(env, s, now))
    else
      && EntryTTL(env, s, now) > 0
      && forall id | Live(env, data, id, now) && id != s.id ::
           var e := data[SessionKey(env, id)];
           e.value.SessionRecord? && e.value.s.user == s.user ==>
             Outlasts(Some(now + EntryTTL(env, s, now) + HOUR), e.expiresAt)
  }

  lemma CreateCovers(env: Env, data: Data, s: Session, now: Time)
    requires Covered(env, data, now) && ValidId(s.id)
    ensures Covered(env, CreateData(env, data, s, now), now) <==> CreateGuard(env, data, s, now)
  {
    var ttl := EntryTTL(env, s, now);
    var skey, key := SessionKey(env, s.id), UserKey(env, s.user);
    var data' := CreateData(env, data, s, now);
    KeysDisjoint(env, s.id, s.user);
    var ids := UserIds(data, key, now).value;
    var data1 := KV.Put(data, skey, SessionRecord(s), ttl, now);
    assert UserIds(data1, key, now).value == ids;
    forall id | ValidId(id)
      ensures SessionKey(env, id) in data' <==> SessionKey(env, id) in data || id == s.id
      ensures id != s.id && SessionKey(env, id) in data ==> data'[SessionKey(env, id)] == data[SessionKey(env, id)]
    {
      SessionKeysDistinct(env, id, s.id);
      KeysDisjoint(env, id, s.user);
    }
    forall user
      ensures UserKey(env, user) in data' <==> UserKey(env, user) in data || user == s.user
      ensures user != s.user && UserKey(env, user) in data ==> data'[UserKey(env, user)] == data[UserKey(env, user)]
    {
      KeysDisjoint(env, s.id, user);
      UserKeysDistinct(env, user, s.user);
    }
    CreatedEntries(env, data, s, now);
    assert KeyKinds(env, data');
    assert Live(env, data', s.id, now);
    if CreateGuard(env, data, s, now) {
      forall id | Live(env, data', id, now)
        ensures CoveredId(env, data', id)
      {
        if id != s.id {
          assert Live(env, data, id, now) && CoveredId(env, data, id);
        }
      }
    }
    if Covered(env, data', now) {
      assert CoveredId(env, data', s.id);
      forall id | Live(env, data, id, now) && id != s.id
        ensures CoveredId(env, data', id)
      {
        assert Live(env, data', id, now);
      }
    }
  }

  /** The two records a create leaves behind. */
  lemma CreatedEntries(env: Env, data: Data, s: Session, now: Time)
    requires Covered(env, data, now) && ValidId(s.id)
    ensures
      var data' := CreateData(env, data, s, now);
      var skey, key := SessionKey(env, s.id), UserKey(env, s.user);
      var ids := UserIds(data, key, now);
      && ids.Ok?
      && skey in data' && data'[skey] == KV.Entry(SessionRecord(s), Deadline(env, s, now))
      && key in data'
      && data'[key] == if s.id in ids.value then data[key]
                       else KV.Entry(IndexRecord(ids.value + [s.id]), Some(now + EntryTTL(env, s, now) + HOUR))
  {
    KeysDisjoint(env, s.id, s.user);
  }

  /** What a caller of Update must see to: the user's index lists the session and lasts as long. */
  ghost predicate UpdateGuard(env: Env, data: Data, s: Session, now: Time) {
    var key := UserKey(env, s.user);
    && key in data && data[key].value.IndexRecord? && s.id in data[key].value.ids
    && Outlasts(data[key].expiresAt, Deadline(env, s, now))
  }

  lemma UpdateCovers(env: Env, data: Data, s: Session, now: Time)
    requires Covered(env, data, now) && UpdateData(env, data, s, now).1.None?
    ensures Covered(env, UpdateData(env, data, s, now).0, now) <==> UpdateGuard(env, data, s, now)
  {
    var stamped := s.(updatedAt := now);
    var data' := UpdateData(env, data, s, now).0;
    forall id | ValidId(id)
      ensures SessionKey(env, id) in data' <==> SessionKey(env, id) in data
      ensures id != s.id && SessionKey(env, id) in data ==> data'[SessionKey(env, id)] == data[SessionKey(env, id)]
    {
      SessionKeysDistinct(env, id, s.id);
    }
    forall user
      ensures UserKey(env, user) in data' <==> UserKey(env, user) in data
      ensures UserKey(env, user) in data ==> data'[UserKey(env, user)] == data[UserKey(env, user)]
    {
      KeysDisjoint(env, s.id, user);
    }
    assert data'[SessionKey(env, s.id)] == KV.Entry(SessionRecord(stamped), Deadline(env, s, now));
    assert KeyKinds(env, data');
    assert Live(env, data', s.id, now);
    forall id | Live(env, data', id, now) && id != s.id
      ensures CoveredId(env, data', id)
    {
      assert Live(env, data, id, now) && CoveredId(env, data, id);
    }
    assert CoveredId(env, data', s.id) <==> UpdateGuard(env, data, s, now);
  }

  // ----- everything else keeps the cover -----

  lemma {:induction false} WithoutElements(ids: seq<string>, id: string)
    ensures forall x :: x in Without(ids, id) <==> x in ids && x != id
  {
    if ids != [] {
      var n := |ids| - 1;
      WithoutElements(ids[..n], id);
      assert ids == ids[..n] + [ids[n]];
    }
  }

  lemma DeleteCovers(env: Env, data: Data, id: string, now: Time)
    requires Covered(env, data, now)
    ensures Covered(env, DeleteData(env, data, id, now), now)
  {
    var data' := DeleteData(env, data, id, now);
    if data' != data {
      var user := data[SessionKey(env, id)].value.s.user;
      var key := UserKey(env, user);
      var ids := UserIds(data, key, now).value;
      WithoutElements(ids, id);
      forall k | ValidId(k)
        ensures SessionKey(env, k) in data' ==> k != id && SessionKey(env, k) in data
        ensures SessionKey(env, k) in data' ==> data'[SessionKey(env, k)] == data[SessionKey(env, k)]
      {
        SessionKeysDistinct(env, k, id);
        KeysDisjoint(env, k, user);
      }
      forall u
        ensures UserKey(env, u) in data' ==> UserKey(env, u) in data
        ensures u != user && UserKey(env, u) in data ==> UserKey(env, u) in data' && data'[UserKey(env, u)] == data[UserKey(env, u)]
      {
        KeysDisjoint(env, id, u);
        UserKeysDistinct(env, u, user);
      }
      KeysDisjoint(env, id, user);
      forall k | Live(env, data', k, now)
        ensures CoveredId(env, data', k)
      {
        assert Live(env, data, k, now) && CoveredId(env, data, k);
        ListedWhileLive(env, data, now, now, k);
        if data[SessionKey(env, k)].value.s.user == user {
          assert k in Without(ids, id);
        }
      }
    }
  }

  lemma DeleteUserCovers(env: Env, data: Data, user: string, now: Time)
    requires Covered(env, data, now)
    ensures
      var ids := UserIds(data, UserKey(env, user), now);
      ids.Ok? && Covered(env, data - SessionKeys(env, ids.value) - {UserKey(env, user)}, now)
  {
    var ids := UserIds(data, UserKey(env, user), now).value;
    var gone := SessionKeys(env, ids);
    var data' := data - gone - {UserKey(env, user)};
    forall k | Live(env, data', k, now)
      ensures CoveredId(env, data', k)
    {
      assert Live(env, data, k, now) && CoveredId(env, data, k);
      ListedWhileLive(env, data, now, now, k);
      var owner := data[SessionKey(env, k)].value.s.user;
      UserKeysDistinct(env, owner, user);
      assert forall i | 0 <= i < |ids| :: SessionKey(env, ids[i]) in gone;
      forall i | 0 <= i < |ids|
        ensures SessionKey(env, ids[i]) != UserKey(env, owner)
      {
        assert ids[i] in ids;
        KeysDisjoint(env, ids[i], owner);
      }
    }
  }

  lemma GetCovers(env: Env, data: Data, id: string, now: Time)
    requires Covered(env, data, now)
    ensures Covered(env, GetData(env, data, id, now).0, now)
  {
    DeleteCovers(env, data, id, now);
  }

  lemma {:induction false} FetchCovers(env: Env, data: Data, ids: seq<string>, now: Time)
    requires Covered(env, data, now)
    ensures Covered(env, Fetch(env, data, ids, now).0, now)
  {
    if ids != [] {
      var n := |ids| - 1;
      FetchCovers(env, data, ids[..n], now);
      GetCovers(env, Fetch(env, data, ids[..n], now).0, ids[n], now);
    }
  }

  lemma CleanCovers(env: Env, data: Data, user: string, now: Time)
    requires Covered(env, data, now)
    ensures Covered(env, CleanIndex(env, data, user, now), now)
  {
    var data' := CleanIndex(env, data, user, now);
    var key := UserKey(env, user);
    var ids := UserIds(data, key, now).value;
    PresentElements(env, data, ids, now);
    forall k | ValidId(k)
      ensures SessionKey(env, k) in data' <==> SessionKey(env, k) in data
      ensures SessionKey(env, k) in data' ==> data'[SessionKey(env, k)] == data[SessionKey(env, k)]
    {
      KeysDisjoint(env, k, user);
    }
    forall u
      ensures UserKey(env, u) in data' ==> UserKey(env, u) in data
      ensures u != user && UserKey(env, u) in data ==> UserKey(env, u) in data' && data'[UserKey(env, u)] == data[UserKey(env, u)]
    {
      UserKeysDistinct(env, u, user);
    }
    forall k | Live(env, data', k, now)
      ensures CoveredId(env, data', k)
    {
      assert Live(env, data, k, now) && CoveredId(env, data, k);
      ListedWhileLive(env, data, now, now, k);
      if data[SessionKey(env, k)].value.s.user == user {
        assert k in Present(env, data, ids, now);
      }
    }
  }

  lemma {:induction false} CleanAllCovers(env: Env, data: Data, users: seq<string>, now: Time)
    requires Covered(env, data, now)
    ensures Covered(env, CleanIndexes(env, data, users, now), now)
  {
    if users != [] {
      var n := |users| - 1;
      CleanAllCovers(env, data, users[..n], now);
      CleanCovers(env, CleanIndexes(env, data, users[..n], now), users[n], now);
    }
  }

  // ----- whole runs, with the clock -----

  datatype Step =
    | Call(op: Op, reply: Reply)
    | Cleanup(users: seq<string>)
    | Sweep
    | Tick(later: Time)

  datatype Clocked = Clocked(data: Data, now: Time)

  ghost predicate Next(env: Env, c: Clocked, step: Step, c': Clocked) {
    match step
    case Call(op, reply) => c'.now == c.now && KvsNext(env, c.data, op, c.now, c'.data, reply)
    case Cleanup(users) => c'.now == c.now && c'.data == CleanIndexes(env, c.data, users, c.now)
    case Sweep => c'.now == c.now && c'.data == map k | k in c.data && !KV.Stale(c.data[k], c.now) :: c.data[k]
    case Tick(later) => c'.now == later && c.now <= later && c'.data == c.data
  }

  /** The guards of the calls that write a session; all other steps are unconditional. */
  ghost predicate Guarded(env: Env, c: Clocked, step: Step) {
    step.Call? ==>
      match step.op
      case Create(s) => ValidId(s.id) ==> CreateGuard(env, c.data, s, c.now)
      case Update(s) => UpdateData(env, c.data, s, c.now).1.None? ==> UpdateGuard(env, c.data, s, c.now)
      case Touch(id) =>
        var (data1, r) := GetData(env, c.data, id, c.now);
        r.Ok? ==> UpdateGuard(env, c.data, r.value.(lastAccessedAt := c.now), c.now)
      case _ => true
  }

  /** A step keeps every live session listed in an unexpired index exactly when its guard holds. */
  lemma StepCovers(env: Env, c: Clocked, step: Step, c': Clocked)
    requires Covered(env, c.data, c.now) && Next(env, c, step, c')
    ensures Covered(env, c'.data, c'.now) <==> Guarded(env, c, step)
  {
    match step {
      case Cleanup(users) => CleanAllCovers(env, c.data, users, c.now);
      case Sweep => SweepCovers(env, c.data, c.now, c'.data);
      case Tick(later) => TickCovers(env, c.data, c.now, later);
      case Call(op, _) =>
        match op {
          case Create(s) =>
            if ValidId(s.id) {
              CreateCovers(env, c.data, s, c.now);
            }
          case Update(s) =>
            if UpdateData(env, c.data, s, c.now).1.None? {
              UpdateCovers(env, c.data, s, c.now);
            }
          case Touch(id) =>
            GetCovers(env, c.data, id, c.now);
            var r := GetData(env, c.data, id, c.now).1;
            if r.Ok? {
              UpdateCovers(env, c.data, r.value.(lastAccessedAt := c.now), c.now);
            }
          case Get(id) => GetCovers(env, c.data, id, c.now);
          case Delete(id) => DeleteCovers(env, c.data, id, c.now);
          case DeleteByUser(user) => DeleteUserCovers(env, c.data, user, c.now);
          case List(user) => FetchCovers(env, c.data, UserIds(c.data, UserKey(env, user), c.now).value, c.now);
        }
    }
  }

  lemma SweepCovers(env: Env, data: Data, now: Time, data': Data)
    requires Covered(env, data, now)
    requires data' == map k | k in data && !KV.Stale(data[k], now) :: data[k]
    ensures Covered(env, data', now)
  {
    forall id | Live(env, data', id, now)
      ensures CoveredId(env, data', id)
    {
      assert Live(env, data, id, now) && CoveredId(env, data, id);
    }
  }

  lemma TickCovers(env: Env, data: Data, now: Time, later: Time)
    requires Covered(env, data, now) && now <= later
    ensures Covered(env, data, later)
  {
    forall id | Live(env, data, id, later)
      ensures CoveredId(env, data, id)
    {
      assert Live(env, data, id, now);
    }
  }

  ghost predicate IsRun(env: Env, states: seq<Clocked>, steps: seq<Step>) {
    && |states| == |steps| + 1
    && forall i | 0 <= i < |steps| :: Next(env, states[i], steps[i], states[i + 1])
  }

  /** Over any run of guarded steps from the empty store, every live session is covered.  For callers see SessionIndexRuns. */
  lemma {:induction false} GuardedRunsCover(env: Env, states: seq<Clocked>, steps: seq<Step>)
    requires IsRun(env, states, steps) && states[0].data == map[]
    requires forall i | 0 <= i < |steps| :: Guarded(env, states[i], steps[i])
    ensures forall i | 0 <= i < |states| :: Covered(env, states[i].data, states[i].now)
    decreases |steps|
  {
    if steps != [] {
      var n := |steps| - 1;
      GuardedRunsCover(env, states[..n + 1], steps[..n]);
      assert states[..n + 1][n] == states[n];
      StepCovers(env, states[n], steps[n], states[n + 1]);
      forall i | 0 <= i < |states|
        ensures Covered(env, states[i].data, states[i].now)
      {
        if i <= n {
          assert states[..n + 1][i] == states[i];
        }
      }
    }
  }

  // ----- two ways to miss the guards -----

  /** A session without any time to live is not covered: its index record is gone after one hour. */
  lemma EternalSessionLosesIndex(env: Env, s: Session, now: Time)
    requires ValidId(s.id) && s.expiresAt.None? && env.defaultTTL <= 0
    ensures
      var data := CreateData(env, map[], s, now);
      && Live(env, data, s.id, now + HOUR + 1)
      && UserIds(data, UserKey(env, s.user), now + HOUR + 1) == Ok([])
  {
    KeysDisjoint(env, s.id, s.user);
  }

  /** A session on the default time to live outgrows its index by being touched. */
  lemma TouchOutgrowsIndex(env: Env, s: Session, now: Time, later: Time)
    requires ValidId(s.id) && s.expiresAt.None? && env.defaultTTL > HOUR
    requires now + HOUR < later <= now + env.defaultTTL
    ensures
      var data := CreateData(env, map[], s, now);
      var touched := TouchData(env, data, s.id, later).0;
      var end := now + env.defaultTTL + HOUR + 1;
      Live(env, touched, s.id, end) && UserIds(touched, UserKey(env, s.user), end) == Ok([])
  {
    KeysDisjoint(env, s.id, s.user);
  }
}
