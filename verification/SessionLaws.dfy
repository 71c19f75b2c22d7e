/**
 What the session operations mean to a caller (session/session.go, session/wrapper.go): laws of the plain table over
 several calls, and what the policy wrapper answers, in terms of the stored rows, their ends and their sites.
 */
module SessionLaws {
  import opened Wrappers
  import opened SessionModel
  import opened SessionControl

  // ----- the table -----

  /** A call finds what is stored and has not passed its end; what has passed it is reported and removed. */
  lemma Getting(db: Db, id: string, now: Time, db': Db, reply: Reply)
    requires ValidDb(db) && DbNext(db, Get(id), now, db', reply)
    ensures reply.Found? <==> id in db.rows && Lasts(db.rows[id], now)
    ensures reply.Found? ==> reply.s == db.rows[id] && db' == db
    ensures id !in db.rows ==> reply == Fail(NotFound) && db' == db
    ensures id in db.rows && !Lasts(db.rows[id], now) ==> reply == Fail(Expired) && db' == Db(db.rows - {id}, db.closed)
  {
  }

  /** What a get at `later` answers if `s` is stored under its ID. */
  predicate Finds(s: Session, later: Time, reply: Reply) {
    reply == if Lasts(s, later) then Found(s) else Fail(Expired)
  }

  lemma GetAfterCreate(db: Db, s: Session, now: Time, db1: Db, r1: Reply, later: Time, db2: Db, r2: Reply)
    requires ValidDb(db) && DbNext(db, Create(s), now, db1, r1) && DbNext(db1, Get(s.id), later, db2, r2)
    ensures r1 == if s.id == "" then Fail(InvalidSession) else if db.closed then Fail(StoreClosed) else Done
    ensures r1.Done? ==> Finds(s, later, r2)
    ensures !r1.Done? ==> db1 == db
  {
  }

  lemma GetAfterUpdate(db: Db, s: Session, now: Time, db1: Db, r1: Reply, later: Time, db2: Db, r2: Reply)
    requires ValidDb(db) && DbNext(db, Update(s), now, db1, r1) && DbNext(db1, Get(s.id), later, db2, r2)
    ensures r1.Done? <==> s.id != "" && s.id in db.rows
    ensures r1.Done? ==> Finds(s.(updatedAt := now), later, r2)
    ensures !r1.Done? ==> db1 == db
  {
  }

  lemma GetAfterTouch(db: Db, id: string, now: Time, db1: Db, r1: Reply, later: Time, db2: Db, r2: Reply)
    requires ValidDb(db) && DbNext(db, Touch(id), now, db1, r1) && DbNext(db1, Get(id), later, db2, r2)
    ensures r1.Done? <==> id in db.rows
    ensures r1.Done? ==> Finds(db.rows[id].(lastAccessedAt := now), later, r2)
    ensures !r1.Done? ==> db1 == db
  {
  }

  lemma GetAfterDelete(db: Db, id: string, now: Time, db1: Db, r1: Reply, later: Time, db2: Db, r2: Reply)
    requires ValidDb(db) && DbNext(db, Delete(id), now, db1, r1) && DbNext(db1, Get(id), later, db2, r2)
    ensures r1 == (if db.closed then Fail(StoreClosed) else Done) && r2 == Fail(NotFound)
  {
  }

  /** No call but the removal of a user touches the row of an ID it was not given. */
  lemma OtherRowsStay(db: Db, op: Op, now: Time, db': Db, reply: Reply, id: string)
    requires ValidDb(db) && DbNext(db, op, now, db', reply)
    requires match op
             case Create(s) => s.id != id
             case Get(k) => k != id
             case Update(s) => s.id != id
             case Delete(k) => k != id
             case DeleteByUser(user) => id in db.rows ==> db.rows[id].user != user
             case Touch(k) => k != id
             case List(_) => true
    ensures (id in db'.rows <==> id in db.rows) && (id in db.rows ==> db'.rows[id] == db.rows[id])
  {
  }

  /** Removing a user counts the user's sessions, leaves none to list, and leaves every other user's listings. */
  lemma ListAfterDeleteByUser(db: Db, user: string, now: Time, db1: Db, r1: Reply, other: string, later: Time, db2: Db, r2: Reply)
    requires ValidDb(db) && !db.closed
    requires DbNext(db, DeleteByUser(user), now, db1, r1) && DbNext(db1, List(other), later, db2, r2)
    ensures r1 == Count(|SessionsOf(db.rows, user)|)
    ensures other == user ==> r2 == Listing([])
    ensures other != user ==> DbNext(db, List(other), later, db, r2)
  {
    CountIds(db.rows, user);
    if other == user {
      assert SessionsOf(db1.rows, user) == {};
      assert multiset(r2.sessions) == multiset{};
    } else {
      SameSessions(db.rows, user, other);
    }
  }

  lemma SameSessions(rows: Rows, user: string, other: string)
    requires other != user
    ensures SessionsOf(rows - IdsOf(rows, user), other) == SessionsOf(rows, other)
  {
    var rows' := rows - IdsOf(rows, user);
    forall s | s in SessionsOf(rows, other)
      ensures s in SessionsOf(rows', other)
    {
      var id :| id in rows && rows[id].user == other && rows[id] == s;
      assert id in rows' && rows'[id] == s;
    }
  }

  // ----- what a wrapper refuses -----

  /** The session as the wrapper stores it: of this site, if one is configured. */
  function AtSite(cfg: Config, s: Session): Session {
    s.(site := if cfg.siteId == "" then s.site else cfg.siteId)
  }

  predicate Serializes(cfg: Config, s: Session) {
    s.data.Some? ==> cfg.serializable(s.data.value)
  }

  predicate Fits(cfg: Config, s: Session) {
    cfg.maxSessionSize <= 0 || cfg.size(s) <= cfg.maxSessionSize
  }

  /** Missing IDs and users are refused first, then data that does not serialize, then what is too large. */
  lemma Refusals(cfg: Config, s: Session)
    ensures Stamp(cfg, s) == AtSite(cfg, s)
    ensures WellFormed(s) <==> s.id != "" && s.user != NIL_USER
    ensures CheckData(cfg, s) == Some(NotSerializable) <==> !Serializes(cfg, s)
    ensures CheckData(cfg, s) == Some(SizeLimitExceeded) <==> Serializes(cfg, s) && !Fits(cfg, s)
    ensures CheckData(cfg, s) == None <==> Serializes(cfg, s) && Fits(cfg, s)
  {
  }

  // ----- calls about one stored session -----

  /** No such session, or one of the wrapper's site; all are, if no site is configured. */
  predicate AtHome(cfg: Config, db: Db, id: string) {
    cfg.siteId != "" && id in db.rows ==> db.rows[id].site == cfg.siteId
  }

  /** With a site configured the wrapper looks at the session before it writes; this is what it then comes to. */
  predicate Passes(cfg: Config, db: Db, id: string, now: Time) {
    cfg.siteId != "" ==> id in db.rows && Lasts(db.rows[id], now)
  }

  /** On sessions of its site the wrapper gets what the table has. */
  lemma GetAtHome(cfg: Config, db: Db, id: string, now: Time, db': Db, reply: Reply)
    requires ValidDb(db) && AtHome(cfg, db, id)
    ensures ControlNext(cfg, db, Get(id), now, db', reply) <==> DbNext(db, Get(id), now, db', reply)
  {
  }

  /** It touches what the table does; past its end a session is removed and reported instead. */
  lemma TouchAtHome(cfg: Config, db: Db, id: string, now: Time, db': Db, reply: Reply)
    requires ValidDb(db) && AtHome(cfg, db, id)
    ensures Passes(cfg, db, id, now) ==>
              (ControlNext(cfg, db, Touch(id), now, db', reply) <==> DbNext(db, Touch(id), now, db', reply))
    ensures !Passes(cfg, db, id, now) ==>
              (ControlNext(cfg, db, Touch(id), now, db', reply) <==> DbNext(db, Get(id), now, db', reply))
  {
  }

  /** A delete is the table's, but reports the end of a session that has passed it, and no closed store if a site is configured. */
  lemma DeleteAtHome(cfg: Config, db: Db, id: string, now: Time, db': Db, reply: Reply)
    requires ValidDb(db) && AtHome(cfg, db, id)
    ensures Passes(cfg, db, id, now) ==>
              (ControlNext(cfg, db, Delete(id), now, db', reply) <==> DbNext(db, Delete(id), now, db', reply))
    ensures !Passes(cfg, db, id, now) && id in db.rows ==>
              (ControlNext(cfg, db, Delete(id), now, db', reply) <==> db' == Db(db.rows - {id}, false) && reply == Fail(Expired))
    ensures !Passes(cfg, db, id, now) && id !in db.rows ==>
              (ControlNext(cfg, db, Delete(id), now, db', reply) <==> db' == db && reply == Done)
  {
  }

  /** An update checks the session, looks up the stored one, checks the data, and then is the table's, at its site. */
  lemma UpdateAtHome(cfg: Config, db: Db, s: Session, now: Time, db': Db, reply: Reply)
    requires ValidDb(db) && AtHome(cfg, db, s.id)
    ensures ControlNext(cfg, db, Update(s), now, db', reply) <==>
            if s.id == "" || s.user == NIL_USER then db' == db && reply == Fail(InvalidSession)
            else if !Passes(cfg, db, s.id, now) then DbNext(db, Get(s.id), now, db', reply)
            else if !Serializes(cfg, AtSite(cfg, s)) then db' == db && reply == Fail(NotSerializable)
            else if !Fits(cfg, AtSite(cfg, s)) then db' == db && reply == Fail(SizeLimitExceeded)
            else DbNext(db, Update(AtSite(cfg, s)), now, db', reply)
  {
    Refusals(cfg, s);
    Refusals(cfg, AtSite(cfg, s));
  }

  /** A session of another site that has not passed its end cannot be found, changed or deleted. */
  lemma ElsewhereHidden(cfg: Config, db: Db, op: Op, id: string, now: Time, db': Db, reply: Reply)
    requires ValidDb(db) && cfg.siteId != "" && id in db.rows && db.rows[id].site != cfg.siteId && Lasts(db.rows[id], now)
    requires op == Get(id) || op == Touch(id) || op == Delete(id) || (op.Update? && op.s.id == id && WellFormed(op.s))
    ensures ControlNext(cfg, db, op, now, db', reply) <==> db' == db && reply == if op.Delete? then Done else Fail(NotFound)
  {
  }

  // ----- calls about a user -----

  /** The rows of a site; all rows if none is configured. */
  function HomeRows(cfg: Config, rows: Rows): Rows {
    if cfg.siteId == "" then rows else map id | id in rows && rows[id].site == cfg.siteId :: rows[id]
  }

  lemma HomeIsOwn(cfg: Config, rows: Rows)
    ensures Own(cfg, rows) == HomeRows(cfg, rows)
  {
  }

  /** A listing is the table's on the rows of the site. */
  lemma ListAtHome(cfg: Config, db: Db, user: string, now: Time, db': Db, reply: Reply)
    requires ValidDb(db)
    ensures ControlNext(cfg, db, List(user), now, db', reply) <==>
            db' == db && DbNext(Db(HomeRows(cfg, db.rows), db.closed), List(user), now, Db(HomeRows(cfg, db.rows), db.closed), reply)
  {
    HomeIsOwn(cfg, db.rows);
  }

  /** Removing a user is the table's on the rows of the site, and leaves all other rows. */
  lemma DeleteByUserAtHome(cfg: Config, db: Db, user: string, now: Time, db': Db, reply: Reply)
    requires ValidDb(db)
    ensures ControlNext(cfg, db, DeleteByUser(user), now, db', reply) <==>
            && DbNext(Db(HomeRows(cfg, db.rows), db.closed), DeleteByUser(user), now, Db(HomeRows(cfg, db'.rows), db'.closed), reply)
            && db'.closed == db.closed
            && (forall id | id in db'.rows :: id in db.rows && db'.rows[id] == db.rows[id])
            && (forall id | id in db.rows && id !in HomeRows(cfg, db.rows) :: id in db'.rows)
  {
    var home := HomeRows(cfg, db.rows);
    HomeIsOwn(cfg, db.rows);
    if ControlNext(cfg, db, DeleteByUser(user), now, db', reply) && !db.closed {
      assert HomeRows(cfg, db'.rows) == home - IdsOf(home, user);
    }
    if forall id | id in db'.rows :: id in db.rows && db'.rows[id] == db.rows[id] {
      if forall id | id in db.rows && id !in home :: id in db'.rows {
        SplitByHome(cfg, db.rows, db'.rows, IdsOf(home, user));
      }
    }
  }

  lemma SplitByHome(cfg: Config, rows: Rows, rows': Rows, gone: set<string>)
    requires forall id | id in rows' :: id in rows && rows'[id] == rows[id]
    requires forall id | id in rows && id !in HomeRows(cfg, rows) :: id in rows'
    ensures gone <= HomeRows(cfg, rows).Keys && HomeRows(cfg, rows') == HomeRows(cfg, rows) - gone ==> rows' == rows - gone
    ensures HomeRows(cfg, rows') == HomeRows(cfg, rows) ==> rows' == rows
  {
    var home, home' := HomeRows(cfg, rows), HomeRows(cfg, rows');
    forall id
      ensures id in rows' <==> id in home' || (id in rows && id !in home)
    {
    }
  }

  /** When all rows are the wrapper's, these are the table's operations outright. */
  lemma AllAtHome(cfg: Config, db: Db, op: Op, now: Time, db': Db, reply: Reply)
    requires ValidDb(db) && (op.Get? || op.List? || op.DeleteByUser?)
    requires cfg.siteId != "" ==> forall id | id in db.rows :: db.rows[id].site == cfg.siteId
    ensures ControlNext(cfg, db, op, now, db', reply) <==> DbNext(db, op, now, db', reply)
  {
    HomeIsOwn(cfg, db.rows);
    assert HomeRows(cfg, db.rows) == db.rows;
  }

  // ----- create -----

  /** The site's sessions of a user. */
  function HomeIds(cfg: Config, rows: Rows, user: string): set<string> {
    set id | id in rows && rows[id].user == user && (cfg.siteId == "" || rows[id].site == cfg.siteId)
  }

  /** As many of these as are one too many for the cap, none younger than one that stays. */
  ghost predicate OneTooMany(cfg: Config, rows: Rows, user: string, gone: set<string>) {
    var ids := HomeIds(cfg, rows, user);
    && gone <= ids
    && (if cfg.maxSessionsPerUser <= 0 || |ids| < cfg.maxSessionsPerUser then gone == {}
        else |gone| == |ids| - cfg.maxSessionsPerUser + 1)
    && forall g, k | g in gone && k in ids && k !in gone :: rows[g].createdAt <= rows[k].createdAt
  }

  lemma EvictionMeans(cfg: Config, rows: Rows, user: string, gone: set<string>)
    ensures IsEviction(cfg, rows, user, gone) <==> OneTooMany(cfg, rows, user, gone)
  {
    assert HomeIds(cfg, rows, user) == IdsOf(Own(cfg, rows), user);
  }

  /** A create checks the session and its data, makes room under the cap, and then is the table's, at its site. */
  lemma CreateAtHome(cfg: Config, db: Db, s: Session, now: Time, db': Db, reply: Reply)
    requires ValidDb(db)
    ensures ControlNext(cfg, db, Create(s), now, db', reply) <==>
            if s.id == "" || s.user == NIL_USER then db' == db && reply == Fail(InvalidSession)
            else if !Serializes(cfg, AtSite(cfg, s)) then db' == db && reply == Fail(NotSerializable)
            else if !Fits(cfg, AtSite(cfg, s)) then db' == db && reply == Fail(SizeLimitExceeded)
            else exists gone :: OneTooMany(cfg, db.rows, s.user, gone) &&
                                DbNext(Db(db.rows - gone, db.closed), Create(AtSite(cfg, s)), now, db', reply)
  {
    Refusals(cfg, s);
    Refusals(cfg, AtSite(cfg, s));
    forall gone
      ensures IsEviction(cfg, db.rows, s.user, gone) <==> OneTooMany(cfg, db.rows, s.user, gone)
    {
      EvictionMeans(cfg, db.rows, s.user, gone);
    }
  }

  /** With room under the cap, or without a cap, nothing is evicted. */
  lemma CreateWithRoom(cfg: Config, db: Db, s: Session, now: Time, db': Db, reply: Reply)
    requires ValidDb(db) && s.id != "" && s.user != NIL_USER && Serializes(cfg, AtSite(cfg, s)) && Fits(cfg, AtSite(cfg, s))
    requires cfg.maxSessionsPerUser <= 0 || |HomeIds(cfg, db.rows, s.user)| < cfg.maxSessionsPerUser
    ensures ControlNext(cfg, db, Create(s), now, db', reply) <==> DbNext(db, Create(AtSite(cfg, s)), now, db', reply)
  {
    CreateAtHome(cfg, db, s, now, db', reply);
    assert OneTooMany(cfg, db.rows, s.user, {});
    assert db.rows - {} == db.rows;
  }
}
