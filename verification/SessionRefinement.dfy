/**
 The key-value session store refines the in-memory one: while nothing expires, every answer it gives is an
 answer the plain table could give, up to the time of the last update (a touch rewrites the record here).
 */
module SessionRefinement {
  import opened Wrappers
  import opened SessionModel
  import opened SessionKvs
  import KV = KeyValue

  /** Equal up to `updatedAt`. */
  predicate Twins(a: Session, b: Session) {
    a == b.(updatedAt := a.updatedAt)
  }

  predicate SameReply(a: Reply, b: Reply) {
    match (a, b)
    case (Found(s), Found(t)) => Twins(s, t)
    case (Listing(r), Listing(q)) => |r| == |q| && forall i | 0 <= i < |r| :: Twins(r[i], q[i])
    case _ => a == b
  }

  ghost predicate NoDup<T>(q: seq<T>) {
    forall i, j | 0 <= i < j < |q| :: q[i] != q[j]
  }

  ghost predicate RecordOk(env: Env, data: Data, rows: Rows, id: string) {
    var key := SessionKey(env, id);
    && (id in rows ==> ValidId(id) && rows[id].id == id)
    && (ValidId(id) ==> (key in data <==> id in rows))
    && (id in rows ==> data[key].value.SessionRecord? && Twins(data[key].value.s, rows[id]))
  }

  /** The user's index record lists exactly the user's sessions, each once, and is absent when there are none. */
  ghost predicate IndexOk(env: Env, data: Data, rows: Rows, user: string) {
    var key := UserKey(env, user);
    && (key in data <==> IdsOf(rows, user) != {})
    && (key in data ==>
          && data[key].value.IndexRecord?
          && NoDup(data[key].value.ids)
          && forall id :: id in data[key].value.ids <==> id in IdsOf(rows, user))
  }

  ghost predicate Rel(env: Env, data: Data, rows: Rows) {
    && (forall id :: RecordOk(env, data, rows, id))
    && (forall user :: IndexOk(env, data, rows, user))
  }

  /** Nothing stored has run out at this time. */
  ghost predicate NoExpiry(data: Data, now: Time) {
    forall key | key in data ::
      && !KV.Stale(data[key], now)
      && (data[key].value.SessionRecord? ==> Lasts(data[key].value.s, now))
  }

  /** IDs passed to Create are fresh, IDs of written sessions are well formed or empty, and owners stay. */
  predicate Permitted(rows: Rows, op: Op) {
    match op
    case Create(s) => s.id == "" || (ValidId(s.id) && s.id !in rows)
    case Update(s) => s.id == "" || (ValidId(s.id) && (s.id in rows ==> rows[s.id].user == s.user))
    case _ => true
  }

  // ----- one operation -----

  /** Each operation on the records is matched by one on the table, with the same reply. */
  lemma Simulate(env: Env, data: Data, rows: Rows, op: Op, now: Time, data': Data, reply: Reply)
    returns (rows': Rows, reply': Reply)
    requires Rel(env, data, rows) && NoExpiry(data, now) && Permitted(rows, op)
    requires KvsNext(env, data, op, now, data', reply)
    ensures DbNext(Db(rows, false), op, now, Db(rows', false), reply')
    ensures Rel(env, data', rows') && SameReply(reply, reply')
  {
    if op.List? {
      rows' := rows;
      reply' := SimulateList(env, data, rows, op.user, now, data', reply);
    } else {
      var (db', r) := DbExec(Db(rows, false), op, now);
      rows', reply' := db'.rows, r;
      match op {
        case Create(s) =>
          if s.id != "" {
            CreateRel(env, data, rows, s, now);
          }
        case Get(id) =>
          assert RecordOk(env, data, rows, id);
        case Update(s) =>
          assert RecordOk(env, data, rows, s.id);
          if s.id in rows {
            var stamped := s.(updatedAt := now);
            ReplaceRel(env, data, rows, stamped, stamped, EntryTTL(env, stamped, now), now);
          }
        case Delete(id) =>
          DeleteRel(env, data, rows, id, now);
        case DeleteByUser(user) =>
          DeleteUserRel(env, data, rows, user, now);
        case Touch(id) =>
          assert RecordOk(env, data, rows, id);
          if id in rows {
            var s := data[SessionKey(env, id)].value.s.(lastAccessedAt := now, updatedAt := now);
            ReplaceRel(env, data, rows, s, rows[id].(lastAccessedAt := now), EntryTTL(env, s, now), now);
          }
      }
    }
  }

  lemma ReplaceRel(env: Env, data: Data, rows: Rows, s: Session, t: Session, ttl: int, now: Time)
    requires Rel(env, data, rows) && Twins(s, t)
    requires t.id in rows && rows[t.id].user == t.user
    ensures Rel(env, KV.Put(data, SessionKey(env, t.id), SessionRecord(s), ttl, now), rows[t.id := t])
  {
    var data' := KV.Put(data, SessionKey(env, t.id), SessionRecord(s), ttl, now);
    var rows' := rows[t.id := t];
    assert RecordOk(env, data, rows, t.id);
    forall id
      ensures RecordOk(env, data', rows', id)
    {
      SessionKeysDistinct(env, id, t.id);
      assert RecordOk(env, data, rows, id);
    }
    forall user
      ensures IndexOk(env, data', rows', user)
    {
      KeysDisjoint(env, t.id, user);
      assert IndexOk(env, data, rows, user);
      assert IdsOf(rows', user) == IdsOf(rows, user);
    }
  }

  lemma CreateRel(env: Env, data: Data, rows: Rows, s: Session, now: Time)
    requires Rel(env, data, rows) && NoExpiry(data, now)
    requires ValidId(s.id) && s.id !in rows
    ensures Rel(env, CreateData(env, data, s, now), rows[s.id := s])
  {
    var ttl := EntryTTL(env, s, now);
    var key := UserKey(env, s.user);
    var data1 := KV.Put(data, SessionKey(env, s.id), SessionRecord(s), ttl, now);
    var data', rows' := CreateData(env, data, s, now), rows[s.id := s];
    KeysDisjoint(env, s.id, s.user);
    assert IndexOk(env, data, rows, s.user);
    var ids := UserIds(data1, key, now).value;
    assert s.id !in ids;
    assert data' == KV.Put(data1, key, IndexRecord(ids + [s.id]), ttl + HOUR, now);
    forall id
      ensures RecordOk(env, data', rows', id)
    {
      SessionKeysDistinct(env, id, s.id);
      assert RecordOk(env, data, rows, id);
      if ValidId(id) {
        KeysDisjoint(env, id, s.user);
      }
    }
    forall user
      ensures IndexOk(env, data', rows', user)
    {
      KeysDisjoint(env, s.id, user);
      UserKeysDistinct(env, user, s.user);
      assert IndexOk(env, data, rows, user);
      if user == s.user {
        assert IdsOf(rows', user) == IdsOf(rows, user) + {s.id};
      } else {
        assert IdsOf(rows', user) == IdsOf(rows, user);
      }
    }
  }

  lemma {:induction false} WithoutProps(ids: seq<string>, id: string)
    requires NoDup(ids)
    ensures NoDup(Without(ids, id))
    ensures forall x :: x in Without(ids, id) <==> x in ids && x != id
  {
    if ids != [] {
      var n := |ids| - 1;
      WithoutProps(ids[..n], id);
      assert ids == ids[..n] + [ids[n]];
      var w := Without(ids[..n], id);
      forall i | 0 <= i < |w|
        ensures w[i] != ids[n]
      {
        assert w[i] in w;
      }
    }
  }

  /** The IDs left in the index of a deleted session are those left in the table. */
  lemma IdsLeft(env: Env, data: Data, rows: Rows, id: string)
    requires id in rows && IndexOk(env, data, rows, rows[id].user)
    ensures
      var key := UserKey(env, rows[id].user);
      var left := IdsOf(rows - {id}, rows[id].user);
      && id in IdsOf(rows, rows[id].user) && left == IdsOf(rows, rows[id].user) - {id}
      && key in data && data[key].value.IndexRecord?
      && NoDup(Without(data[key].value.ids, id))
      && (forall x :: x in Without(data[key].value.ids, id) <==> x in left)
      && (left == {} <==> Without(data[key].value.ids, id) == [])
  {
    var user := rows[id].user;
    assert id in IdsOf(rows, user);
    assert IdsOf(rows - {id}, user) == IdsOf(rows, user) - {id};
    var ids := data[UserKey(env, user)].value.ids;
    WithoutProps(ids, id);
    if Without(ids, id) != [] {
      assert Without(ids, id)[0] in IdsOf(rows - {id}, user);
    }
  }

  lemma DeleteRel(env: Env, data: Data, rows: Rows, id: string, now: Time)
    requires Rel(env, data, rows) && NoExpiry(data, now)
    ensures Rel(env, DeleteData(env, data, id, now), rows - {id})
  {
    assert RecordOk(env, data, rows, id);
    var rows' := rows - {id};
    if id !in rows {
      assert rows' == rows;
    } else {
      var user := rows[id].user;
      var key := UserKey(env, user);
      assert IndexOk(env, data, rows, user);
      var data' := RemoveFromIndex(data, key, id, now) - {SessionKey(env, id)};
      IdsLeft(env, data, rows, id);
      forall k
        ensures RecordOk(env, data', rows', k)
      {
        SessionKeysDistinct(env, k, id);
        assert RecordOk(env, data, rows, k);
        if ValidId(k) {
          KeysDisjoint(env, k, user);
        }
      }
      forall u
        ensures IndexOk(env, data', rows', u)
      {
        KeysDisjoint(env, id, u);
        UserKeysDistinct(env, u, user);
        assert IndexOk(env, data, rows, u);
        if u != user {
          assert IdsOf(rows', u) == IdsOf(rows, u);
        }
      }
    }
  }

  lemma {:induction false} NoDupCount<T>(q: seq<T>)
    requires NoDup(q)
    ensures |set x | x in q| == |q|
  {
    if q != [] {
      var n := |q| - 1;
      NoDupCount(q[..n]);
      assert q == q[..n] + [q[n]];
      assert (set x | x in q) == (set x | x in q[..n]) + {q[n]};
    } else {
      assert (set x | x in q) == {};
    }
  }

  lemma DeleteUserRel(env: Env, data: Data, rows: Rows, user: string, now: Time)
    requires Rel(env, data, rows) && NoExpiry(data, now)
    ensures
      var ids := UserIds(data, UserKey(env, user), now);
      && ids.Ok?
      && |ids.value| == |IdsOf(rows, user)|
      && Rel(env, data - SessionKeys(env, ids.value) - {UserKey(env, user)}, rows - IdsOf(rows, user))
  {
    assert IndexOk(env, data, rows, user);
    var ids := UserIds(data, UserKey(env, user), now).value;
    var gone := IdsOf(rows, user);
    NoDupCount(ids);
    assert gone == set x | x in ids;
    var rows' := rows - gone;
    var data' := data - SessionKeys(env, ids) - {UserKey(env, user)};
    forall k
      ensures RecordOk(env, data', rows', k)
    {
      assert RecordOk(env, data, rows, k);
      if ValidId(k) {
        KeysDisjoint(env, k, user);
        SessionKeyListed(env, ids, k);
      }
    }
    forall u
      ensures IndexOk(env, data', rows', u)
    {
      UserKeysDistinct(env, u, user);
      assert IndexOk(env, data, rows, u);
      forall i | 0 <= i < |ids|
        ensures SessionKey(env, ids[i]) != UserKey(env, u)
      {
        assert ids[i] in gone && RecordOk(env, data, rows, ids[i]);
        KeysDisjoint(env, ids[i], u);
      }
      if u != user {
        assert IdsOf(rows', u) == IdsOf(rows, u);
      } else {
        assert IdsOf(rows', u) == {};
      }
    }
  }

  lemma SessionKeyListed(env: Env, ids: seq<string>, k: string)
    ensures SessionKey(env, k) in SessionKeys(env, ids) <==> k in ids
  {
    if SessionKey(env, k) in SessionKeys(env, ids) {
      var i :| 0 <= i < |ids| && SessionKey(env, ids[i]) == SessionKey(env, k);
      SessionKeysDistinct(env, ids[i], k);
    }
  }

  // ----- listings -----

  /** The table's sessions for records of the store. */
  function TwinsOf(rows: Rows, r: seq<Session>): (q: seq<Session>)
    ensures |q| == |r| && forall i | 0 <= i < |r| && r[i].id in rows :: q[i] == rows[r[i].id]
  {
    seq(|r|, i requires 0 <= i < |r| => if r[i].id in rows then rows[r[i].id] else r[i])
  }

  lemma {:induction false} FetchAll(env: Env, data: Data, rows: Rows, ids: seq<string>, now: Time)
    requires Rel(env, data, rows) && NoExpiry(data, now)
    requires forall i | 0 <= i < |ids| :: ids[i] in rows
    ensures
      var (data', found) := Fetch(env, data, ids, now);
      && data' == data && |found| == |ids|
      && forall i | 0 <= i < |ids| :: found[i].id == ids[i] && Twins(found[i], rows[ids[i]])
  {
    if ids != [] {
      var n := |ids| - 1;
      FetchAll(env, data, rows, ids[..n], now);
      assert RecordOk(env, data, rows, ids[n]);
    }
  }

  lemma SimulateList(env: Env, data: Data, rows: Rows, user: string, now: Time, data': Data, reply: Reply)
    returns (reply': Reply)
    requires Rel(env, data, rows) && NoExpiry(data, now)
    requires KvsNext(env, data, List(user), now, data', reply)
    ensures data' == data
    ensures reply'.Listing? && IsListing(rows, user, reply'.sessions) && SameReply(reply, reply')
  {
    IndexedIds(env, data, rows, user, now);
    var ids := UserIds(data, UserKey(env, user), now).value;
    FetchAll(env, data, rows, ids, now);
    var found := Fetch(env, data, ids, now).1;
    var r := reply.sessions;
    PermutedIds(r, found, ids);
    forall i | 0 <= i < |r|
      ensures r[i].id in rows && rows[r[i].id].id == r[i].id && Twins(r[i], rows[r[i].id])
    {
      assert r[i] in found;
      var j :| 0 <= j < |found| && found[j] == r[i];
    }
    reply' := Listing(TwinsOf(rows, r));
    FoundAreAll(rows, user, IdsOfAll(r), reply'.sessions);
  }

  /** The IDs in the index record of a user are those of the user's rows, each once. */
  lemma IndexedIds(env: Env, data: Data, rows: Rows, user: string, now: Time)
    requires Rel(env, data, rows) && NoExpiry(data, now)
    ensures
      var r := UserIds(data, UserKey(env, user), now);
      && r.Ok? && NoDup(r.value)
      && (forall id :: id in r.value <==> id in IdsOf(rows, user))
      && forall i | 0 <= i < |r.value| :: r.value[i] in rows && rows[r.value[i]].user == user && rows[r.value[i]].id == r.value[i]
  {
    assert IndexOk(env, data, rows, user);
    var ids := UserIds(data, UserKey(env, user), now).value;
    forall i | 0 <= i < |ids|
      ensures ids[i] in rows && rows[ids[i]].user == user && rows[ids[i]].id == ids[i]
    {
      assert ids[i] in ids;
      assert RecordOk(env, data, rows, ids[i]);
    }
  }

  function IdsOfAll(r: seq<Session>): (ids: seq<string>)
    ensures |ids| == |r| && forall i | 0 <= i < |r| :: ids[i] == r[i].id
  {
    seq(|r|, i requires 0 <= i < |r| => r[i].id)
  }

  /** Reordering the fetched sessions loses and repeats no ID. */
  lemma PermutedIds(r: seq<Session>, found: seq<Session>, ids: seq<string>)
    requires multiset(r) == multiset(found)
    requires |found| == |ids| && NoDup(ids) && forall i | 0 <= i < |ids| :: found[i].id == ids[i]
    ensures forall i | 0 <= i < |r| :: r[i] in found
    ensures NoDup(IdsOfAll(r))
    ensures forall id :: id in IdsOfAll(r) <==> id in ids
  {
    NoDupMultiset(found);
    forall i | 0 <= i < |r|
      ensures r[i] in found
    {
      assert r[i] in multiset(r);
    }
    forall i, j | 0 <= i < j < |r|
      ensures r[i].id != r[j].id
    {
      TwoOccurrences(r, i, j);
      var p :| 0 <= p < |found| && found[p] == r[i];
      var q :| 0 <= q < |found| && found[q] == r[j];
    }
    forall id
      ensures id in IdsOfAll(r) <==> id in ids
    {
      IdPermuted(r, found, ids, id);
    }
  }

  lemma IdPermuted(r: seq<Session>, found: seq<Session>, ids: seq<string>, id: string)
    requires multiset(r) == multiset(found)
    requires |found| == |ids| && forall i | 0 <= i < |ids| :: found[i].id == ids[i]
    ensures id in IdsOfAll(r) <==> id in ids
  {
    if id in ids {
      var p :| 0 <= p < |ids| && ids[p] == id;
      assert found[p] in multiset(found);
      var i :| 0 <= i < |r| && r[i] == found[p];
      assert IdsOfAll(r)[i] == id;
    }
    if id in IdsOfAll(r) {
      var i :| 0 <= i < |r| && IdsOfAll(r)[i] == id;
      assert r[i] in multiset(r);
      var p :| 0 <= p < |found| && found[p] == r[i];
      assert ids[p] == id;
    }
  }

  lemma FoundAreAll(rows: Rows, user: string, ids: seq<string>, all: seq<Session>)
    requires NoDup(ids) && |all| == |ids|
    requires forall id :: id in ids <==> id in IdsOf(rows, user)
    requires forall i | 0 <= i < |ids| :: ids[i] in rows && all[i] == rows[ids[i]] && all[i].id == ids[i]
    ensures multiset(all) == multiset(SessionsOf(rows, user))
  {
    NoDupMultiset(all);
    forall s
      ensures s in all <==> s in SessionsOf(rows, user)
    {
      if s in SessionsOf(rows, user) {
        var id :| id in rows && rows[id].user == user && rows[id] == s;
        assert id in ids;
        var i :| 0 <= i < |ids| && ids[i] == id;
        assert all[i] == s;
      }
      if s in all {
        var i :| 0 <= i < |all| && all[i] == s;
        assert ids[i] in ids;
      }
    }
  }

  lemma {:induction false} NoDupMultiset<T>(q: seq<T>)
    requires NoDup(q)
    ensures forall x :: multiset(q)[x] == if x in q then 1 else 0
  {
    if q != [] {
      var n := |q| - 1;
      NoDupMultiset(q[..n]);
      assert q == q[..n] + [q[n]];
    }
  }

  // ----- whole runs -----

  /** A call, or background work: a cleanup of the index records of some users, or a sweep of expired entries. */
  datatype Event =
    | Call(op: Op, now: Time, reply: Reply)
    | Cleanup(users: seq<string>, now: Time)
    | Sweep(now: Time)

  ghost predicate KvsStep(env: Env, data: Data, e: Event, data': Data) {
    match e
    case Call(op, now, reply) => KvsNext(env, data, op, now, data', reply)
    case Cleanup(users, now) => data' == CleanIndexes(env, data, users, now)
    case Sweep(now) => data' == map k | k in data && !KV.Stale(data[k], now) :: data[k]
  }

  /** Background work does nothing to the table. */
  ghost predicate TableStep(rows: Rows, e: Event, rows': Rows) {
    match e
    case Call(op, now, reply) => DbNext(Db(rows, false), op, now, Db(rows', false), reply)
    case _ => rows' == rows
  }

  /** A sequential run of the key-value store; `datas` are the records between the events. */
  ghost predicate KvsRun(env: Env, datas: seq<Data>, events: seq<Event>) {
    && |datas| == |events| + 1
    && forall i | 0 <= i < |events| ::
         NoExpiry(datas[i], events[i].now) && KvsStep(env, datas[i], events[i], datas[i + 1])
  }

  ghost predicate TableRun(tables: seq<Rows>, events: seq<Event>) {
    && |tables| == |events| + 1
    && forall i | 0 <= i < |events| :: TableStep(tables[i], events[i], tables[i + 1])
  }

  predicate Creates(e: Event) {
    e.Call? && e.op.Create?
  }

  /** The IDs created over a prefix of the run. */
  function Created(events: seq<Event>): set<string> {
    set i | 0 <= i < |events| && Creates(events[i]) :: events[i].op.s.id
  }

  /** Fresh well-formed IDs, and every update names the owner under which its ID was created. */
  ghost predicate Disciplined(events: seq<Event>, owner: string -> string) {
    forall i | 0 <= i < |events| && events[i].Call? ::
      match events[i].op
      case Create(s) => s.id == "" || (ValidId(s.id) && s.id !in Created(events[..i]) && owner(s.id) == s.user)
      case Update(s) => s.id == "" || (ValidId(s.id) && owner(s.id) == s.user)
      case _ => true
  }

  predicate SameEvent(a: Event, b: Event) {
    match (a, b)
    case (Call(op1, now1, reply1), Call(op2, now2, reply2)) => op1 == op2 && now1 == now2 && SameReply(reply1, reply2)
    case _ => a == b
  }

  ghost predicate SameEvents(a: seq<Event>, b: seq<Event>) {
    |a| == |b| && forall i | 0 <= i < |a| :: SameEvent(a[i], b[i])
  }

  /** Only created IDs are stored, each under its owner. */
  ghost predicate Owned(rows: Rows, created: set<string>, owner: string -> string) {
    rows.Keys <= created && forall id | id in rows :: rows[id].id == id && rows[id].user == owner(id)
  }

  /** While nothing has run out, background work changes no record. */
  lemma BackgroundIsIdle(env: Env, data: Data, rows: Rows, e: Event, data': Data)
    requires Rel(env, data, rows) && NoExpiry(data, e.now) && !e.Call? && KvsStep(env, data, e, data')
    ensures data' == data
  {
    if e.Cleanup? {
      CleanupIsIdle(env, data, rows, e.users, e.now);
    }
  }

  lemma {:induction false} CleanupIsIdle(env: Env, data: Data, rows: Rows, users: seq<string>, now: Time)
    requires Rel(env, data, rows) && NoExpiry(data, now)
    ensures CleanIndexes(env, data, users, now) == data
  {
    if users != [] {
      var n := |users| - 1;
      CleanupIsIdle(env, data, rows, users[..n], now);
      var key := UserKey(env, users[n]);
      IndexedIds(env, data, rows, users[n], now);
      var ids := UserIds(data, key, now).value;
      AllPresent(env, data, rows, ids, now);
      assert IndexOk(env, data, rows, users[n]);
      if key in data {
        var id :| id in IdsOf(rows, users[n]);
        assert id in ids;
      }
    }
  }

  lemma {:induction false} AllPresent(env: Env, data: Data, rows: Rows, ids: seq<string>, now: Time)
    requires Rel(env, data, rows) && NoExpiry(data, now)
    requires forall i | 0 <= i < |ids| :: ids[i] in rows
    ensures Present(env, data, ids, now) == ids
  {
    if ids != [] {
      var n := |ids| - 1;
      AllPresent(env, data, rows, ids[..n], now);
      assert RecordOk(env, data, rows, ids[n]);
    }
  }

  /** From the empty store on, the key-value store answers every run as the table does. */
  lemma {:induction false} KvsRefinesTable(env: Env, datas: seq<Data>, events: seq<Event>, owner: string -> string)
    returns (tables: seq<Rows>, events': seq<Event>)
    requires KvsRun(env, datas, events) && datas[0] == map[] && Disciplined(events, owner)
    ensures TableRun(tables, events') && tables[0] == map[] && SameEvents(events, events')
    ensures Rel(env, datas[|events|], tables[|events|])
    ensures Owned(tables[|events|], Created(events), owner)
    decreases |events|
  {
    if events == [] {
      tables, events' := [map[]], [];
    } else {
      var n := |events| - 1;
      var e := events[n];
      PrefixDisciplined(events, owner);
      tables, events' := KvsRefinesTable(env, datas[..n + 1], events[..n], owner);
      var rows, e' := tables[n], e;
      if e.Call? {
        StepPermitted(events, owner, tables[n]);
        var reply;
        rows, reply := Simulate(env, datas[n], tables[n], e.op, e.now, datas[n + 1], e.reply);
        StepOwned(tables[n], Created(events[..n]), owner, e.op, e.now, rows, reply, Created(events));
        e' := Call(e.op, e.now, reply);
      } else {
        BackgroundIsIdle(env, datas[n], rows, e, datas[n + 1]);
        CreatedGrows(events);
      }
      ExtendRun(tables, events', events, rows, e');
      tables, events' := tables + [rows], events' + [e'];
    }
  }

  lemma PrefixDisciplined(events: seq<Event>, owner: string -> string)
    requires events != [] && Disciplined(events, owner)
    ensures Disciplined(events[..|events| - 1], owner)
  {
    forall i | 0 <= i < |events| - 1
      ensures events[..|events| - 1][..i] == events[..i]
    {
    }
  }

  lemma CreatedGrows(events: seq<Event>)
    requires events != []
    ensures Created(events[..|events| - 1]) <= Created(events)
  {
    forall id | id in Created(events[..|events| - 1])
      ensures id in Created(events)
    {
      var i :| 0 <= i < |events| - 1 && Creates(events[..|events| - 1][i]) && events[..|events| - 1][i].op.s.id == id;
      assert events[i] == events[..|events| - 1][i];
    }
  }

  lemma StepPermitted(events: seq<Event>, owner: string -> string, rows: Rows)
    requires events != [] && events[|events| - 1].Call? && Disciplined(events, owner)
    requires Owned(rows, Created(events[..|events| - 1]), owner)
    ensures Permitted(rows, events[|events| - 1].op)
    ensures Created(events[..|events| - 1]) <= Created(events)
    ensures Creates(events[|events| - 1]) ==> events[|events| - 1].op.s.id in Created(events)
  {
    CreatedGrows(events);
  }

  lemma ExtendRun(tables: seq<Rows>, events': seq<Event>, events: seq<Event>, rows: Rows, e: Event)
    requires events != [] && TableRun(tables, events') && SameEvents(events[..|events| - 1], events')
    requires TableStep(tables[|events'|], e, rows) && SameEvent(events[|events| - 1], e)
    ensures TableRun(tables + [rows], events' + [e]) && SameEvents(events, events' + [e])
  {
  }

  lemma StepOwned(rows: Rows, created: set<string>, owner: string -> string, op: Op, now: Time, rows': Rows,
                  reply: Reply, created': set<string>)
    requires Owned(rows, created, owner) && DbNext(Db(rows, false), op, now, Db(rows', false), reply)
    requires created <= created' && (op.Create? ==> op.s.id in created' && (op.s.id != "" ==> owner(op.s.id) == op.s.user))
    requires op.Update? && op.s.id != "" ==> owner(op.s.id) == op.s.user
    ensures Owned(rows', created', owner)
  {
  }
}
