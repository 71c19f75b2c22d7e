/**
 An index outlives the sessions it lists as long as callers keep a promise about the ends of sessions
 (session/backend/kvs/kvs.go, kvs/backend/memory/memory.go).  The promise speaks of sessions only, never of
 the deadlines of records, which callers cannot see.
 */
module SessionIndexRuns {
  import opened Wrappers
  import opened SessionModel
  import opened SessionKvs
  import opened SessionIndexTtl
  import KV = KeyValue

  /** A session is stored under a well-formed ID. */
  predicate Stored(env: Env, data: Data, id: string) {
    ValidId(id) && SessionKey(env, id) in data && data[SessionKey(env, id)].value.SessionRecord?
  }

  function SessionAt(env: Env, data: Data, id: string): Session
    requires Stored(env, data, id)
  {
    data[SessionKey(env, id)].value.s
  }

  /** It is stored and not past its end. */
  predicate Current(env: Env, data: Data, id: string, now: Time) {
    Stored(env, data, id) && Lasts(SessionAt(env, data, id), now)
  }

  // ----- what callers promise -----

  /** A new session has an ID of its own, ends in the future, and no earlier than the user's other sessions. */
  ghost predicate CreatePromise(env: Env, c: Clocked, s: Session, created: set<string>) {
    && s.id !in created
    && s.expiresAt.Some? && c.now < s.expiresAt.value
    && forall id | Current(env, c.data, id, c.now) && SessionAt(env, c.data, id).user == s.user ::
         Outlasts(s.expiresAt, SessionAt(env, c.data, id).expiresAt)
  }

  /** An update keeps the owner and does not raise the end. */
  predicate UpdatePromise(env: Env, c: Clocked, s: Session) {
    Stored(env, c.data, s.id) ==>
      SessionAt(env, c.data, s.id).user == s.user && Outlasts(SessionAt(env, c.data, s.id).expiresAt, s.expiresAt)
  }

  /** Calls other than Create and Update, cleanup rounds, sweeps and the clock are free. */
  ghost predicate Promised(env: Env, c: Clocked, step: Step, created: set<string>) {
    step.Call? ==>
      match step.op
      case Create(s) => ValidId(s.id) ==> CreatePromise(env, c, s, created)
      case Update(s) => UpdatePromise(env, c, s)
      case _ => true
  }

  /** The IDs given to Create so far. */
  function CreatedIn(steps: seq<Step>): set<string> {
    if steps == [] then {}
    else
      var last := steps[|steps| - 1];
      CreatedIn(steps[..|steps| - 1]) + if last.Call? && last.op.Create? then {last.op.s.id} else {}
  }

  // ----- the invariant -----

  /** The session's record lasts as long as the session; until its end, so does an index record that lists it. */
  ghost predicate Kept(env: Env, data: Data, id: string, now: Time)
    requires Stored(env, data, id)
  {
    var s := SessionAt(env, data, id);
    var key := UserKey(env, s.user);
    && s.id == id && s.expiresAt.Some? && Outlasts(data[SessionKey(env, id)].expiresAt, s.expiresAt)
    && (Lasts(s, now) ==>
          && key in data && data[key].value.IndexRecord? && id in data[key].value.ids
          && Outlasts(data[key].expiresAt, s.expiresAt))
  }

  ghost predicate SessionOk(env: Env, data: Data, created: set<string>, id: string, now: Time) {
    ValidId(id) && SessionKey(env, id) in data ==> id in created && Stored(env, data, id) && Kept(env, data, id, now)
  }

  ghost predicate IndexOk(env: Env, data: Data, created: set<string>, user: string) {
    var key := UserKey(env, user);
    key in data ==> data[key].value.IndexRecord? && forall id | id in data[key].value.ids :: ValidId(id) && id in created
  }

  ghost predicate Inv(env: Env, data: Data, created: set<string>, now: Time) {
    && (forall id :: SessionOk(env, data, created, id, now))
    && (forall user :: IndexOk(env, data, created, user))
  }

  /** Until a session ends its index record can be read and lists it. */
  lemma Listed(env: Env, data: Data, created: set<string>, now: Time, id: string)
    requires Inv(env, data, created, now) && Current(env, data, id, now)
    ensures
      var ids := UserIds(data, UserKey(env, SessionAt(env, data, id).user), now);
      ids.Ok? && id in ids.value
    ensures KV.Lookup(data, SessionKey(env, id), now) == Some(SessionRecord(SessionAt(env, data, id)))
  {
    assert SessionOk(env, data, created, id, now);
  }

  lemma IndexReadable(env: Env, data: Data, created: set<string>, user: string, now: Time)
    requires Inv(env, data, created, now)
    ensures
      var ids := UserIds(data, UserKey(env, user), now);
      ids.Ok? && forall id | id in ids.value :: ValidId(id) && id in created
  {
    assert IndexOk(env, data, created, user);
  }

  /**
   How every change to the index of one user keeps the invariant: session records only go, other index records
   stay, and the user's record still lists, for long enough, what is current.
   */
  lemma IndexRewritten(env: Env, data: Data, data': Data, created: set<string>, user: string, now: Time)
    requires Inv(env, data, created, now)
    requires forall id | ValidId(id) && SessionKey(env, id) in data' ::
               SessionKey(env, id) in data && data'[SessionKey(env, id)] == data[SessionKey(env, id)]
    requires forall u | u != user ::
               && (UserKey(env, u) in data' <==> UserKey(env, u) in data)
               && (UserKey(env, u) in data ==> data'[UserKey(env, u)] == data[UserKey(env, u)])
    requires IndexOk(env, data', created, user)
    requires forall id | Current(env, data', id, now) && SessionAt(env, data', id).user == user ::
               var key := UserKey(env, user);
               && key in data' && data'[key].value.IndexRecord? && id in data'[key].value.ids
               && Outlasts(data'[key].expiresAt, SessionAt(env, data', id).expiresAt)
    ensures Inv(env, data', created, now)
  {
    forall id
      ensures SessionOk(env, data', created, id, now)
    {
      assert SessionOk(env, data, created, id, now);
    }
    forall u
      ensures IndexOk(env, data', created, u)
    {
      assert IndexOk(env, data, created, u);
    }
  }

  // ----- every operation keeps it -----

  lemma CreateKeeps(env: Env, c: Clocked, created: set<string>, s: Session)
    requires Inv(env, c.data, created, c.now) && ValidId(s.id) && CreatePromise(env, c, s, created)
    ensures Inv(env, CreateData(env, c.data, s, c.now), created + {s.id}, c.now)
  {
    var data, now := c.data, c.now;
    var skey, key := SessionKey(env, s.id), UserKey(env, s.user);
    var ttl := EntryTTL(env, s, now);
    var data' := CreateData(env, data, s, now);
    IndexReadable(env, data, created, s.user, now);
    KeysDisjoint(env, s.id, s.user);
    var ids := UserIds(data, key, now).value;
    var data1 := KV.Put(data, skey, SessionRecord(s), ttl, now);
    assert UserIds(data1, key, now) == Ok(ids);
    assert data' == KV.Put(data1, key, IndexRecord(ids + [s.id]), ttl + HOUR, now);
    forall id
      ensures SessionOk(env, data', created + {s.id}, id, now)
    {
      if ValidId(id) && id != s.id && SessionKey(env, id) in data' {
        CreateKeepsOther(env, c, created, s, id);
      }
    }
    forall user
      ensures IndexOk(env, data', created + {s.id}, user)
    {
      assert IndexOk(env, data, created, user);
      KeysDisjoint(env, s.id, user);
      UserKeysDistinct(env, user, s.user);
    }
  }

  lemma CreateKeepsOther(env: Env, c: Clocked, created: set<string>, s: Session, id: string)
    requires Inv(env, c.data, created, c.now) && ValidId(s.id) && CreatePromise(env, c, s, created)
    requires ValidId(id) && id != s.id && SessionKey(env, id) in CreateData(env, c.data, s, c.now)
    ensures SessionOk(env, CreateData(env, c.data, s, c.now), created + {s.id}, id, c.now)
  {
    var data, now := c.data, c.now;
    SessionKeysDistinct(env, id, s.id);
    KeysDisjoint(env, id, s.user);
    KeysDisjoint(env, s.id, s.user);
    assert SessionOk(env, data, created, id, now);
    var user := SessionAt(env, data, id).user;
    KeysDisjoint(env, s.id, user);
    UserKeysDistinct(env, user, s.user);
    if Current(env, data, id, now) {
      Listed(env, data, created, now, id);
    }
  }

  lemma UpdateKeeps(env: Env, c: Clocked, created: set<string>, s: Session)
    requires Inv(env, c.data, created, c.now) && UpdatePromise(env, c, s)
    ensures Inv(env, UpdateData(env, c.data, s, c.now).0, created, c.now)
  {
    var data, now := c.data, c.now;
    var (data', err) := UpdateData(env, data, s, now);
    if err.None? {
      assert SessionOk(env, data, created, s.id, now);
      forall id
        ensures SessionOk(env, data', created, id, now)
      {
        assert SessionOk(env, data, created, id, now);
        SessionKeysDistinct(env, id, s.id);
        if Stored(env, data, id) {
          KeysDisjoint(env, s.id, SessionAt(env, data, id).user);
        }
      }
      forall user
        ensures IndexOk(env, data', created, user)
      {
        assert IndexOk(env, data, created, user);
        KeysDisjoint(env, s.id, user);
      }
    }
  }

  lemma DeleteKeeps(env: Env, data: Data, created: set<string>, id: string, now: Time)
    requires Inv(env, data, created, now)
    ensures Inv(env, DeleteData(env, data, id, now), created, now)
  {
    var data' := DeleteData(env, data, id, now);
    if data' != data {
      assert SessionOk(env, data, created, id, now);
      var user := SessionAt(env, data, id).user;
      var key := UserKey(env, user);
      IndexReadable(env, data, created, user, now);
      var ids := UserIds(data, key, now).value;
      WithoutElements(ids, id);
      KeysDisjoint(env, id, user);
      forall k | ValidId(k) && SessionKey(env, k) in data'
        ensures SessionKey(env, k) in data && data'[SessionKey(env, k)] == data[SessionKey(env, k)]
      {
        KeysDisjoint(env, k, user);
      }
      forall u | u != user
        ensures UserKey(env, u) in data' <==> UserKey(env, u) in data
        ensures UserKey(env, u) in data ==> data'[UserKey(env, u)] == data[UserKey(env, u)]
      {
        KeysDisjoint(env, id, u);
        UserKeysDistinct(env, u, user);
      }
      assert IndexOk(env, data, created, user);
      forall k | Current(env, data', k, now) && SessionAt(env, data', k).user == user
        ensures key in data' && data'[key].value.IndexRecord? && k in data'[key].value.ids
        ensures Outlasts(data'[key].expiresAt, SessionAt(env, data', k).expiresAt)
      {
        Listed(env, data, created, now, k);
        assert k in Without(ids, id);
      }
      IndexRewritten(env, data, data', created, user, now);
    }
  }

  lemma GetKeeps(env: Env, data: Data, created: set<string>, id: string, now: Time)
    requires Inv(env, data, created, now)
    ensures Inv(env, GetData(env, data, id, now).0, created, now)
  {
    DeleteKeeps(env, data, created, id, now);
  }

  lemma {:induction false} FetchKeeps(env: Env, data: Data, created: set<string>, ids: seq<string>, now: Time)
    requires Inv(env, data, created, now)
    ensures Inv(env, Fetch(env, data, ids, now).0, created, now)
  {
    if ids != [] {
      var n := |ids| - 1;
      FetchKeeps(env, data, created, ids[..n], now);
      GetKeeps(env, Fetch(env, data, ids[..n], now).0, created, ids[n], now);
    }
  }

  /** A touch writes back what it read, with the same owner and end. */
  lemma TouchKeeps(env: Env, c: Clocked, created: set<string>, id: string)
    requires Inv(env, c.data, created, c.now)
    ensures Inv(env, TouchData(env, c.data, id, c.now).0, created, c.now)
  {
    var (data1, r) := GetData(env, c.data, id, c.now);
    GetKeeps(env, c.data, created, id, c.now);
    if r.Ok? {
      UpdateKeeps(env, c, created, r.value.(lastAccessedAt := c.now));
    }
  }

  lemma DeleteUserKeeps(env: Env, data: Data, created: set<string>, user: string, now: Time)
    requires Inv(env, data, created, now)
    ensures
      var ids := UserIds(data, UserKey(env, user), now);
      ids.Ok? && Inv(env, data - SessionKeys(env, ids.value) - {UserKey(env, user)}, created, now)
  {
    IndexReadable(env, data, created, user, now);
    var key := UserKey(env, user);
    var ids := UserIds(data, key, now).value;
    var gone := SessionKeys(env, ids);
    var data' := data - gone - {key};
    forall u | u != user
      ensures UserKey(env, u) in data' <==> UserKey(env, u) in data
      ensures UserKey(env, u) in data ==> data'[UserKey(env, u)] == data[UserKey(env, u)]
    {
      UserKeysDistinct(env, u, user);
      forall i | 0 <= i < |ids|
        ensures SessionKey(env, ids[i]) != UserKey(env, u)
      {
        assert ids[i] in ids;
        KeysDisjoint(env, ids[i], u);
      }
    }
    forall k | Current(env, data, k, now) && SessionAt(env, data, k).user == user
      ensures SessionKey(env, k) !in data'
    {
      Listed(env, data, created, now, k);
      var i :| 0 <= i < |ids| && ids[i] == k;
      assert SessionKey(env, ids[i]) in gone;
    }
    IndexRewritten(env, data, data', created, user, now);
  }

  lemma CleanKeeps(env: Env, data: Data, created: set<string>, user: string, now: Time)
    requires Inv(env, data, created, now)
    ensures Inv(env, CleanIndex(env, data, user, now), created, now)
  {
    var data' := CleanIndex(env, data, user, now);
    var key := UserKey(env, user);
    IndexReadable(env, data, created, user, now);
    var ids := UserIds(data, key, now).value;
    PresentElements(env, data, ids, now);
    forall k | ValidId(k) && SessionKey(env, k) in data'
      ensures SessionKey(env, k) in data && data'[SessionKey(env, k)] == data[SessionKey(env, k)]
    {
      KeysDisjoint(env, k, user);
    }
    forall u | u != user
      ensures UserKey(env, u) != key
    {
      UserKeysDistinct(env, u, user);
    }
    assert IndexOk(env, data, created, user);
    forall k | Current(env, data', k, now) && SessionAt(env, data', k).user == user
      ensures key in data' && data'[key].value.IndexRecord? && k in data'[key].value.ids
      ensures Outlasts(data'[key].expiresAt, SessionAt(env, data', k).expiresAt)
    {
      assert SessionOk(env, data, created, k, now);
      Listed(env, data, created, now, k);
      assert k in Present(env, data, ids, now);
    }
    IndexRewritten(env, data, data', created, user, now);
  }

  lemma {:induction false} CleanAllKeeps(env: Env, data: Data, created: set<string>, users: seq<string>, now: Time)
    requires Inv(env, data, created, now)
    ensures Inv(env, CleanIndexes(env, data, users, now), created, now)
  {
    if users != [] {
      var n := |users| - 1;
      CleanAllKeeps(env, data, created, users[..n], now);
      CleanKeeps(env, CleanIndexes(env, data, users[..n], now), created, users[n], now);
    }
  }

  lemma SweepKeeps(env: Env, data: Data, created: set<string>, now: Time, data': Data)
    requires Inv(env, data, created, now)
    requires data' == map k | k in data && !KV.Stale(data[k], now) :: data[k]
    ensures Inv(env, data', created, now)
  {
    forall id
      ensures SessionOk(env, data', created, id, now)
    {
      assert SessionOk(env, data, created, id, now);
    }
    forall user
      ensures IndexOk(env, data', created, user)
    {
      assert IndexOk(env, data, created, user);
    }
  }

  lemma TickKeeps(env: Env, data: Data, created: set<string>, now: Time, later: Time)
    requires Inv(env, data, created, now) && now <= later
    ensures Inv(env, data, created, later)
  {
    forall id
      ensures SessionOk(env, data, created, id, later)
    {
      assert SessionOk(env, data, created, id, now);
    }
  }

  lemma MoreCreated(env: Env, data: Data, created: set<string>, created': set<string>, now: Time)
    requires Inv(env, data, created, now) && created <= created'
    ensures Inv(env, data, created', now)
  {
    forall id
      ensures SessionOk(env, data, created', id, now)
    {
      assert SessionOk(env, data, created, id, now);
    }
    forall user
      ensures IndexOk(env, data, created', user)
    {
      assert IndexOk(env, data, created, user);
    }
  }

  lemma CallKeeps(env: Env, c: Clocked, op: Op, reply: Reply, c': Clocked, created: set<string>)
    requires Inv(env, c.data, created, c.now) && Next(env, c, Call(op, reply), c') && Promised(env, c, Call(op, reply), created)
    ensures Inv(env, c'.data, if op.Create? then created + {op.s.id} else created, c'.now)
  {
    match op {
      case Create(s) =>
        if ValidId(s.id) {
          CreateKeeps(env, c, created, s);
        } else {
          MoreCreated(env, c.data, created, created + {s.id}, c.now);
        }
      case Get(id) => GetKeeps(env, c.data, created, id, c.now);
      case Update(s) => UpdateKeeps(env, c, created, s);
      case Delete(id) => DeleteKeeps(env, c.data, created, id, c.now);
      case DeleteByUser(user) => DeleteUserKeeps(env, c.data, created, user, c.now);
      case Touch(id) => TouchKeeps(env, c, created, id);
      case List(user) =>
        IndexReadable(env, c.data, created, user, c.now);
        FetchKeeps(env, c.data, created, UserIds(c.data, UserKey(env, user), c.now).value, c.now);
    }
  }

  /** Every promised call, and every cleanup round, sweep and clock advance, keeps the invariant. */
  lemma StepKeeps(env: Env, c: Clocked, step: Step, c': Clocked, created: set<string>)
    requires Inv(env, c.data, created, c.now) && Next(env, c, step, c') && Promised(env, c, step, created)
    ensures Inv(env, c'.data, if step.Call? && step.op.Create? then created + {step.op.s.id} else created, c'.now)
  {
    match step {
      case Call(op, reply) => CallKeeps(env, c, op, reply, c', created);
      case Cleanup(users) => CleanAllKeeps(env, c.data, created, users, c.now);
      case Sweep => SweepKeeps(env, c.data, created, c.now, c'.data);
      case Tick(later) => TickKeeps(env, c.data, created, c.now, later);
    }
  }

  ghost predicate PromisedRun(env: Env, states: seq<Clocked>, steps: seq<Step>) {
    && IsRun(env, states, steps)
    && forall i | 0 <= i < |steps| :: Promised(env, states[i], steps[i], CreatedIn(steps[..i]))
  }

  lemma {:induction false} RunKeeps(env: Env, states: seq<Clocked>, steps: seq<Step>)
    requires PromisedRun(env, states, steps) && states[0].data == map[]
    ensures Inv(env, states[|steps|].data, CreatedIn(steps), states[|steps|].now)
    decreases |steps|
  {
    if steps != [] {
      var n := |steps| - 1;
      PrefixPromised(env, states, steps, n);
      RunKeeps(env, states[..n + 1], steps[..n]);
      StepKeeps(env, states[n], steps[n], states[n + 1], CreatedIn(steps[..n]));
    }
  }

  lemma PrefixPromised(env: Env, states: seq<Clocked>, steps: seq<Step>, n: nat)
    requires PromisedRun(env, states, steps) && n <= |steps|
    ensures PromisedRun(env, states[..n + 1], steps[..n])
  {
    forall i | 0 <= i < n
      ensures steps[..n][..i] == steps[..i]
    {
    }
  }

  /**
   Over any run from the empty store in which callers keep the promise, at every time, a stored session that is
   not past its end can be read and is listed for its user.
   */
  lemma IndexOutlivesSessions(env: Env, states: seq<Clocked>, steps: seq<Step>, i: nat, id: string)
    requires PromisedRun(env, states, steps) && states[0].data == map[]
    requires i <= |steps| && Current(env, states[i].data, id, states[i].now)
    ensures
      var (data, now) := (states[i].data, states[i].now);
      var s := SessionAt(env, data, id);
      var ids := UserIds(data, UserKey(env, s.user), now);
      && GetData(env, data, id, now) == (data, Ok(s))
      && ids.Ok? && id in ids.value
  {
    PrefixPromised(env, states, steps, i);
    RunKeeps(env, states[..i + 1], steps[..i]);
    var data, now := states[i].data, states[i].now;
    Listed(env, data, CreatedIn(steps[..i]), now, id);
    assert SessionOk(env, data, CreatedIn(steps[..i]), id, now);
  }
}
