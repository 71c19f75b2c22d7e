/**
 The policy wrapper around a session store (session/wrapper.go): validation, site isolation and the
 per-user cap with eviction of the oldest sessions, over the in-memory store.
 */
module SessionControl {
  import opened Wrappers
  import opened SessionModel
  import opened SessionMemory

  /** Serialization is a parameter: which data it accepts and how large a session comes out. */
  datatype Config = Config(
    siteId: string,
    maxSessionSize: int,
    maxSessionsPerUser: int,
    serializable: map<string, string> -> bool,
    size: Session -> nat)

  const NIL_USER := "00000000-0000-0000-0000-000000000000"

  predicate InSite(cfg: Config, s: Session) {
    cfg.siteId == "" || s.site == cfg.siteId
  }

  function Stamp(cfg: Config, s: Session): Session {
    if cfg.siteId != "" then s.(site := cfg.siteId) else s
  }

  /** The rows a site owns; all rows when no site is configured. */
  function Own(cfg: Config, rows: Rows): Rows {
    map id | id in rows && InSite(cfg, rows[id]) :: rows[id]
  }

  predicate WellFormed(s: Session) {
    s.id != "" && s.user != NIL_USER
  }

  function CheckData(cfg: Config, s: Session): Option<Error> {
    if s.data.Some? && !cfg.serializable(s.data.value) then Some(NotSerializable)
    else if cfg.maxSessionSize > 0 && cfg.size(s) > cfg.maxSessionSize then Some(SizeLimitExceeded)
    else None
  }

  function Excess(cfg: Config, n: nat): nat {
    if cfg.maxSessionsPerUser <= 0 || n - cfg.maxSessionsPerUser + 1 <= 0 then 0
    else n - cfg.maxSessionsPerUser + 1
  }

  /** `victims` are as many of the site's oldest sessions of the user as must go to make room for one more. */
  ghost predicate IsEviction(cfg: Config, rows: Rows, user: string, victims: set<string>) {
    var ids := IdsOf(Own(cfg, rows), user);
    && victims <= ids
    && |victims| == Excess(cfg, |ids|)
    && forall v, k | v in victims && k in ids - victims :: rows[v].createdAt <= rows[k].createdAt
  }

  /** Site check ahead of an operation on a stored session. */
  function Verify(cfg: Config, db: Db, id: string, now: Time): (Db, Option<Error>) {
    if cfg.siteId == "" then (db, None)
    else
      var (db', reply) := DbExec(db, Get(id), now);
      if reply.Fail? then (db', Some(reply.error))
      else if reply.Found? && !InSite(cfg, reply.s) then (db', Some(NotFound))
      else (db', None)
  }

  ghost predicate CreateNext(cfg: Config, db: Db, s: Session, db': Db, reply: Reply) {
    var stamped := Stamp(cfg, s);
    if !WellFormed(s) then db' == db && reply == Fail(InvalidSession)
    else if CheckData(cfg, stamped).Some? then db' == db && reply == Fail(CheckData(cfg, stamped).value)
    else
      exists victims ::
        && IsEviction(cfg, db.rows, s.user, victims)
        && (db', reply) == DbExec(db.(rows := db.rows - victims), Create(stamped), 0)
  }

  /** What the wrapped store may answer, and the rows it is left with. */
  ghost predicate ControlNext(cfg: Config, db: Db, op: Op, now: Time, db': Db, reply: Reply) {
    match op
    case Create(s) =>
      CreateNext(cfg, db, s, db', reply)
    case Get(id) =>
      var (db1, r) := DbExec(db, op, now);
      db' == db1 && reply == if r.Found? && !InSite(cfg, r.s) then Fail(NotFound) else r
    case Update(s) =>
      var (db1, err) := Verify(cfg, db, s.id, now);
      if !WellFormed(s) then db' == db && reply == Fail(InvalidSession)
      else if err.Some? then db' == db1 && reply == Fail(err.value)
      else if CheckData(cfg, Stamp(cfg, s)).Some? then
        db' == db1 && reply == Fail(CheckData(cfg, Stamp(cfg, s)).value)
      else (db', reply) == DbExec(db1, Op.Update(Stamp(cfg, s)), now)
    case Delete(id) =>
      var (db1, err) := Verify(cfg, db, id, now);
      if err == Some(NotFound) then db' == db1 && reply == Done
      else if err.Some? then db' == db1 && reply == Fail(err.value)
      else (db', reply) == DbExec(db1, op, now)
    case DeleteByUser(user) =>
      if db.closed then db' == db && reply == Fail(StoreClosed)
      else
        var ids := IdsOf(Own(cfg, db.rows), user);
        db' == db.(rows := db.rows - ids) && reply == Count(|ids|)
    case Touch(id) =>
      var (db1, err) := Verify(cfg, db, id, now);
      if err.Some? then db' == db1 && reply == Fail(err.value)
      else (db', reply) == DbExec(db1, op, now)
    case List(user) =>
      && db' == db
      && if db.closed then reply == Fail(StoreClosed)
         else reply.Listing? && IsListing(Own(cfg, db.rows), user, reply.sessions)
  }

  class ControlledStore {
    const store: MemoryStore
    const cfg: Config

    constructor (store: MemoryStore, cfg: Config)
      ensures this.store == store && this.cfg == cfg
    {
      this.store, this.cfg := store, cfg;
    }

    method ValidateSession(sess: SessionRef?) returns (err: Option<Error>)
      ensures err == if sess == null || !WellFormed(sess.value) then Some(InvalidSession) else None
    {
      if sess == null || sess.value.id == "" || sess.value.user == NIL_USER {
        return Some(InvalidSession);
      }
      return None;
    }

    /** The caller's session is stamped with the site in place before anything else can fail. */
    method Create(sess: SessionRef?) returns (err: Option<Error>)
      requires store.Valid()
      modifies store, sess
      ensures sess == null ==> err == Some(InvalidSession) && store.State() == old(store.State())
      ensures sess != null ==>
                && sess.value == (if WellFormed(old(sess.value)) then Stamp(cfg, old(sess.value)) else old(sess.value))
                && ControlNext(cfg, old(store.State()), Op.Create(old(sess.value)), 0, store.State(),
                               if err.None? then Done else Fail(err.value))
      ensures err.Some? ==> store.Valid()
      ensures err.None? ==> (store.Valid() <==> KeepsOwner(old(store.sessions), sess.value))
    {
      err := ValidateSession(sess);
      if err.Some? {
        return;
      }
      if cfg.siteId != "" {
        sess.value := sess.value.(site := cfg.siteId);
      }
      err := CheckData(cfg, sess.value);
      if err.Some? {
        return;
      }
      ghost var victims := EnforceSessionLimit(sess.value.user);
      err := store.Create(sess);
    }

    /** Deletes the oldest sessions of the user (for this site) that stand in the way of one more. */
    method EnforceSessionLimit(user: string) returns (ghost victims: set<string>)
      requires store.Valid()
      modifies store
      ensures store.Valid()
      ensures IsEviction(cfg, old(store.sessions), user, victims)
      ensures store.State() == old(store.State()).(rows := old(store.sessions) - victims)
    {
      victims := {};
      assert store.sessions - {} == store.sessions;
      if cfg.maxSessionsPerUser <= 0 {
        return;
      }
      var listed := store.ListByUserID(user);
      if listed.Err? {
        return;
      }
      var sessions := FilterSite(listed.value);
      ghost var rows, own := store.sessions, Own(cfg, store.sessions);
      ListingElements(own, user, sessions);
      CountIds(own, user);
      var excess := |sessions| - cfg.maxSessionsPerUser + 1;
      if excess <= 0 {
        return;
      }
      DeleteFirst(sessions, excess);
      victims := IdsIn(sessions[..excess]);
      OldestAreEviction(cfg, rows, user, sessions, excess);
    }

    method DeleteFirst(sessions: seq<Session>, n: nat)
      requires store.Valid() && !store.closed && n <= |sessions|
      modifies store
      ensures store.Valid()
      ensures store.State() == old(store.State()).(rows := old(store.sessions) - IdsIn(sessions[..n]))
    {
      assert store.sessions - IdsIn(sessions[..0]) == store.sessions;
      var i := 0;
      while i < n && i < |sessions|
        invariant 0 <= i <= n
        invariant store.Valid()
        invariant store.State() == old(store.State()).(rows := old(store.sessions) - IdsIn(sessions[..i]))
      {
        DropNext(old(store.sessions), sessions, i);
        var _ := store.Delete(sessions[i].id);
        i := i + 1;
      }
    }

    /** Keeps the sessions of this site, in order. */
    method FilterSite(r: seq<Session>) returns (f: seq<Session>)
      ensures Sorted(r) ==> Sorted(f)
      ensures forall s :: multiset(f)[s] == if InSite(cfg, s) then multiset(r)[s] else 0
      ensures forall rows, user | IsListing(rows, user, r) :: IsListing(Own(cfg, rows), user, f)
    {
      f := OwnOnly(r);
      forall rows, user | IsListing(rows, user, r)
        ensures IsListing(Own(cfg, rows), user, f)
      {
        OwnListing(cfg, rows, user, r, f);
      }
    }

    /** The loop over a listing. */
    method OwnOnly(r: seq<Session>) returns (f: seq<Session>)
      ensures Sorted(r) ==> Sorted(f)
      ensures forall s :: multiset(f)[s] == if InSite(cfg, s) then multiset(r)[s] else 0
    {
      f := [];
      for i := 0 to |r|
        invariant forall k | 0 <= k < |f| :: f[k] in r[..i]
        invariant Sorted(r) ==> Sorted(f)
        invariant forall s :: multiset(f)[s] == if InSite(cfg, s) then multiset(r[..i])[s] else 0
      {
        assert r[..i + 1] == r[..i] + [r[i]];
        if InSite(cfg, r[i]) {
          f := f + [r[i]];
        }
      }
      assert r[..|r|] == r;
    }

    method Get(id: string, now: Time) returns (r: Result<Session, Error>)
      requires store.Valid()
      modifies store
      ensures store.Valid()
      ensures ControlNext(cfg, old(store.State()), Op.Get(id), now, store.State(),
                          if r.Ok? then Found(r.value) else Fail(r.error))
      ensures r.Ok? <==>
                && id in old(store.sessions)
                && (old(store.sessions)[id].expiresAt.None? || now <= old(store.sessions)[id].expiresAt.value)
                && (cfg.siteId == "" || old(store.sessions)[id].site == cfg.siteId)
      ensures r.Ok? ==> r.value == old(store.sessions)[id] && store.sessions == old(store.sessions)
    {
      r := store.Get(id, now);
      if r.Ok? && !(cfg.siteId == "" || r.value.site == cfg.siteId) {
        return Err(NotFound);
      }
    }

    method VerifyOwnership(id: string, now: Time) returns (err: Option<Error>)
      requires store.Valid()
      modifies store
      ensures store.Valid()
      ensures (store.State(), err) == Verify(cfg, old(store.State()), id, now)
    {
      if cfg.siteId == "" {
        return None;
      }
      var stored := store.Get(id, now);
      if stored.Err? {
        return Some(stored.error);
      }
      return if InSite(cfg, stored.value) then None else Some(NotFound);
    }

    method Update(sess: SessionRef?, now: Time) returns (err: Option<Error>)
      requires store.Valid()
      modifies store, sess
      ensures sess == null ==> err == Some(InvalidSession) && store.State() == old(store.State())
      ensures sess != null ==>
                ControlNext(cfg, old(store.State()), Op.Update(old(sess.value)), now, store.State(),
                            if err.None? then Done else Fail(err.value))
      ensures err.None? ==> sess.value == Stamp(cfg, old(sess.value)).(updatedAt := now)
      ensures sess != null && err.Some? ==>
                sess.value == if !WellFormed(old(sess.value)) || Verify(cfg, old(store.State()), old(sess.value).id, now).1.Some?
                              then old(sess.value) else Stamp(cfg, old(sess.value))
      ensures err.Some? ==> store.Valid()
      ensures err.None? ==> (store.Valid() <==> KeepsOwner(old(store.sessions), sess.value))
    {
      err := ValidateSession(sess);
      if err.Some? {
        return;
      }
      err := VerifyOwnership(sess.value.id, now);
      if err.Some? {
        return;
      }
      if cfg.siteId != "" {
        sess.value := sess.value.(site := cfg.siteId);
      }
      err := CheckData(cfg, sess.value);
      if err.Some? {
        return;
      }
      err := store.Update(sess, now);
    }

    method Delete(id: string, now: Time) returns (err: Option<Error>)
      requires store.Valid()
      modifies store
      ensures store.Valid()
      ensures ControlNext(cfg, old(store.State()), Op.Delete(id), now, store.State(),
                          if err.None? then Done else Fail(err.value))
    {
      err := VerifyOwnership(id, now);
      if err.Some? {
        return if err.value == NotFound then None else err;
      }
      err := store.Delete(id);
    }

    method DeleteByUserID(user: string) returns (r: Result<nat, Error>)
      requires store.Valid()
      modifies store
      ensures store.Valid()
      ensures ControlNext(cfg, old(store.State()), DeleteByUser(user), 0, store.State(),
                          if r.Ok? then Count(r.value) else Fail(r.error))
    {
      if cfg.siteId == "" {
        assert Own(cfg, store.sessions) == store.sessions;
        r := store.DeleteByUserID(user);
        return;
      }
      var listed := store.ListByUserID(user);
      if listed.Err? {
        return Err(listed.error);
      }
      var count := DeleteOwn(user, listed.value);
      return Ok(count);
    }

    method DeleteOwn(user: string, sessions: seq<Session>) returns (count: nat)
      requires store.Valid() && !store.closed && cfg.siteId != ""
      requires IsListing(store.sessions, user, sessions)
      modifies store
      ensures store.Valid()
      ensures
        var ids := IdsOf(Own(cfg, old(store.sessions)), user);
        store.State() == old(store.State()).(rows := old(store.sessions) - ids) && count == |ids|
    {
      ghost var rows := store.sessions;
      assert rows - OwnIdsIn(cfg, sessions[..0]) == rows;
      count := 0;
      for i := 0 to |sessions|
        invariant store.Valid()
        invariant store.State() == old(store.State()).(rows := rows - OwnIdsIn(cfg, sessions[..i]))
        invariant count == |OwnIdsIn(cfg, sessions[..i])|
      {
        OwnNext(cfg, rows, user, sessions, i);
        if sessions[i].site != cfg.siteId {
          continue;
        }
        var err := store.Delete(sessions[i].id);
        if err.Some? {
          assert false;
        }
        count := count + 1;
      }
      assert sessions[..|sessions|] == sessions;
      OwnIdsAll(cfg, rows, user, sessions);
    }

    method Touch(id: string, now: Time) returns (err: Option<Error>)
      requires store.Valid()
      modifies store
      ensures store.Valid()
      ensures ControlNext(cfg, old(store.State()), Op.Touch(id), now, store.State(),
                          if err.None? then Done else Fail(err.value))
    {
      err := VerifyOwnership(id, now);
      if err.Some? {
        return;
      }
      err := store.Touch(id, now);
    }

    method ListByUserID(user: string) returns (r: Result<seq<Session>, Error>)
      requires store.Valid()
      ensures ControlNext(cfg, store.State(), List(user), 0, store.State(),
                          if r.Ok? then Listing(r.value) else Fail(r.error))
    {
      r := store.ListByUserID(user);
      if r.Err? {
        return;
      }
      if cfg.siteId == "" {
        assert Own(cfg, store.sessions) == store.sessions;
        return;
      }
      var filtered := FilterSite(r.value);
      return Ok(filtered);
    }
  }

  function IdsIn(r: seq<Session>): set<string> {
    set k | 0 <= k < |r| :: r[k].id
  }

  function OwnIdsIn(cfg: Config, r: seq<Session>): set<string> {
    set k | 0 <= k < |r| && InSite(cfg, r[k]) :: r[k].id
  }

  lemma DropNext(rows: Rows, r: seq<Session>, i: nat)
    requires i < |r|
    ensures rows - IdsIn(r[..i + 1]) == rows - IdsIn(r[..i]) - {r[i].id}
  {
    assert r[..i + 1] == r[..i] + [r[i]];
    assert IdsIn(r[..i + 1]) == IdsIn(r[..i]) + {r[i].id} by {
      forall id | id in IdsIn(r[..i])
        ensures id in IdsIn(r[..i + 1])
      {
        var k :| 0 <= k < i && r[..i][k].id == id;
        assert r[..i + 1][k].id == id;
      }
      assert r[..i + 1][i].id == r[i].id;
    }
  }

  /** What the loop over a listing deletes and counts at one session. */
  lemma OwnNext(cfg: Config, rows: Rows, user: string, r: seq<Session>, i: nat)
    requires WellKeyed(rows) && IsListing(rows, user, r) && i < |r|
    ensures
      var done := OwnIdsIn(cfg, r[..i]);
      if InSite(cfg, r[i]) then
        && r[i].id !in done
        && OwnIdsIn(cfg, r[..i + 1]) == done + {r[i].id}
        && rows - OwnIdsIn(cfg, r[..i + 1]) == rows - done - {r[i].id}
      else OwnIdsIn(cfg, r[..i + 1]) == done
  {
    forall k | 0 <= k < i
      ensures r[k].id != r[i].id
    {
      ListingDistinct(rows, user, r, k, i);
    }
    forall k | 0 <= k < i
      ensures r[..i + 1][k] == r[..i][k] == r[k]
    {
    }
    forall id | id in OwnIdsIn(cfg, r[..i])
      ensures id in OwnIdsIn(cfg, r[..i + 1])
    {
      var k :| 0 <= k < i && InSite(cfg, r[..i][k]) && r[..i][k].id == id;
      assert r[..i + 1][k].id == id;
    }
    assert r[..i + 1][i] == r[i];
  }

  lemma OwnIdsAll(cfg: Config, rows: Rows, user: string, r: seq<Session>)
    requires WellKeyed(rows) && IsListing(rows, user, r)
    ensures OwnIdsIn(cfg, r) == IdsOf(Own(cfg, rows), user)
  {
    ListingElements(rows, user, r);
    forall id | id in IdsOf(Own(cfg, rows), user)
      ensures id in OwnIdsIn(cfg, r)
    {
      assert rows[id] in SessionsOf(rows, user);
      assert rows[id] in r;
      var k :| 0 <= k < |r| && r[k] == rows[id];
      assert InSite(cfg, r[k]) && r[k].id == id;
    }
    forall k | 0 <= k < |r| && InSite(cfg, r[k])
      ensures r[k].id in IdsOf(Own(cfg, rows), user)
    {
      assert r[k] in r;
    }
  }

  lemma OwnListing(cfg: Config, rows: Rows, user: string, r: seq<Session>, f: seq<Session>)
    requires IsListing(rows, user, r) && Sorted(f)
    requires forall s :: multiset(f)[s] == if InSite(cfg, s) then multiset(r)[s] else 0
    ensures IsListing(Own(cfg, rows), user, f)
  {
    var own := SessionsOf(Own(cfg, rows), user);
    forall s
      ensures multiset(f)[s] == multiset(own)[s]
    {
      assert multiset(r)[s] == multiset(SessionsOf(rows, user))[s];
      if s in own {
        var id :| id in Own(cfg, rows) && Own(cfg, rows)[id].user == user && Own(cfg, rows)[id] == s;
        assert s == rows[id] && s in SessionsOf(rows, user);
      } else if s in SessionsOf(rows, user) {
        var id :| id in rows && rows[id].user == user && rows[id] == s;
        assert InSite(cfg, s) <==> id in Own(cfg, rows);
      }
    }
  }

  /** The first sessions of a sorted listing are the oldest, and there are as many IDs as positions. */
  lemma OldestAreEviction(cfg: Config, rows: Rows, user: string, r: seq<Session>, n: nat)
    requires WellKeyed(rows) && IsListing(Own(cfg, rows), user, r)
    requires n == Excess(cfg, |IdsOf(Own(cfg, rows), user)|) && n <= |r|
    ensures IsEviction(cfg, rows, user, IdsIn(r[..n]))
  {
    var own := Own(cfg, rows);
    ListingElements(own, user, r);
    forall k | 0 <= k < |r|
      ensures r[k].id in IdsOf(own, user) && own[r[k].id] == r[k]
    {
      assert r[k] in r;
    }
    CountPrefix(own, user, r, n);
    forall k | 0 <= k < n
      ensures r[k].id in IdsIn(r[..n])
    {
      assert r[..n][k] == r[k];
    }
    forall id | id in IdsOf(own, user) - IdsIn(r[..n])
      ensures exists k :: n <= k < |r| && r[k].id == id
    {
      assert own[id] in SessionsOf(own, user);
      assert own[id] in r;
      var k :| 0 <= k < |r| && r[k] == own[id];
    }
  }

  lemma {:induction false} CountPrefix(rows: Rows, user: string, r: seq<Session>, n: nat)
    requires WellKeyed(rows) && IsListing(rows, user, r) && n <= |r|
    ensures |IdsIn(r[..n])| == n
  {
    if n == 0 {
      assert IdsIn(r[..0]) == {};
    } else {
      CountPrefix(rows, user, r, n - 1);
      forall k | 0 <= k < n - 1
        ensures r[k].id != r[n - 1].id
      {
        ListingDistinct(rows, user, r, k, n - 1);
      }
      IdsInLast(r[..n]);
      assert r[..n][..n - 1] == r[..n - 1];
    }
  }

  lemma IdsInLast(r: seq<Session>)
    requires r != []
    ensures
      var n := |r| - 1;
      && IdsIn(r) == IdsIn(r[..n]) + {r[n].id}
      && ((forall k | 0 <= k < n :: r[k].id != r[n].id) ==> r[n].id !in IdsIn(r[..n]))
  {
    var n := |r| - 1;
    forall id | id in IdsIn(r[..n])
      ensures id in IdsIn(r)
    {
      var k :| 0 <= k < n && r[..n][k].id == id;
      assert r[k].id == id;
    }
    forall id | id in IdsIn(r) && id != r[n].id
      ensures id in IdsIn(r[..n])
    {
      var k :| 0 <= k <= n && r[k].id == id;
      assert r[..n][k].id == id;
    }
    assert r[n].id in IdsIn(r);
  }

  /**
   Room was made for `s`: of the user's n sessions on the site the max(0, n - cap + 1) oldest are gone, and
   no other row changed.
   */
  ghost predicate MadeRoom(cfg: Config, rows: Rows, s: Session, rows': Rows) {
    var ids, ids' := IdsOf(Own(cfg, rows), s.user), IdsOf(Own(cfg, rows'), s.user);
    var gone := ids - ids';
    && |ids'| == (if |ids| < cfg.maxSessionsPerUser then |ids| + 1 else cfg.maxSessionsPerUser)
    && |gone| == |ids| + 1 - |ids'|
    && gone <= rows.Keys
    && (forall v, k | v in gone && k in ids - gone :: rows[v].createdAt <= rows[k].createdAt)
    && rows' - {s.id} == rows - gone
    && s.id in ids'
  }

  lemma CreateWithinCap(cfg: Config, db: Db, s: Session, now: Time, db': Db)
    requires cfg.maxSessionsPerUser >= 1 && s.id !in db.rows
    requires ControlNext(cfg, db, Op.Create(s), now, db', Done)
    ensures MadeRoom(cfg, db.rows, Stamp(cfg, s), db'.rows)
  {
    var victims :|
      && IsEviction(cfg, db.rows, s.user, victims)
      && (db', Done) == DbExec(db.(rows := db.rows - victims), Create(Stamp(cfg, s)), 0);
    EvictionMakesRoom(cfg, db.rows, victims, Stamp(cfg, s));
  }

  lemma EvictionMakesRoom(cfg: Config, rows: Rows, victims: set<string>, s: Session)
    requires cfg.maxSessionsPerUser >= 1 && InSite(cfg, s) && s.id !in rows
    requires IsEviction(cfg, rows, s.user, victims)
    ensures MadeRoom(cfg, rows, s, (rows - victims)[s.id := s])
  {
    var rows' := (rows - victims)[s.id := s];
    var ids, ids' := IdsOf(Own(cfg, rows), s.user), IdsOf(Own(cfg, rows'), s.user);
    OwnIdsAfterCreate(cfg, rows, victims, s);
    assert s.id !in ids;
    assert ids - ids' == victims;
    assert |ids'| == |ids - victims| + 1;
    assert |ids - victims| == |ids| - |victims|;
  }

  lemma OwnIdsAfterCreate(cfg: Config, rows: Rows, victims: set<string>, s: Session)
    requires InSite(cfg, s) && s.id !in rows
    ensures
      IdsOf(Own(cfg, (rows - victims)[s.id := s]), s.user) == (IdsOf(Own(cfg, rows), s.user) - victims) + {s.id}
    ensures (rows - victims)[s.id := s] - {s.id} == rows - victims
  {
  }
}
