/**
 Site isolation: wrapped stores of different sites that share one backend behave as if each had a backend
 of its own (session/wrapper.go, docs/session/controls.md).
 */
module SessionSites {
  import opened Wrappers
  import opened SessionModel
  import opened SessionControl

  /** The backend a site would have to itself. */
  function Private(cfg: Config, db: Db): Db {
    db.(rows := Own(cfg, db.rows))
  }

  function Foreign(cfg: Config, rows: Rows): Rows {
    map id | id in rows && !InSite(cfg, rows[id]) :: rows[id]
  }

  /** The step does to its own site what it would do on a private backend, and nothing to other sites. */
  ghost predicate Isolated(cfg: Config, db: Db, op: Op, now: Time, db': Db, reply: Reply) {
    && ControlNext(cfg, Private(cfg, db), op, now, Private(cfg, db'), reply)
    && Foreign(cfg, db'.rows) == Foreign(cfg, db.rows)
  }

  /** The ID an operation makes the backend look up. */
  function Looked(op: Op): Option<string> {
    match op
    case Get(id) => Some(id)
    case Touch(id) => Some(id)
    case Delete(id) => Some(id)
    case Update(s) => if WellFormed(s) then Some(s.id) else None
    case _ => None
  }

  /**
   The two ways a call reaches across sites, both visible before the call: it looks up an expired session
   of another site (which is deleted and reported as expired), or it creates over another site's ID.
   */
  predicate Crosses(cfg: Config, db: Db, op: Op, now: Time) {
    var id := if op.Create? then Some(op.s.id) else Looked(op);
    && id.Some?
    && id.value in db.rows
    && !InSite(cfg, db.rows[id.value])
    && if op.Create? then WellFormed(op.s) && CheckData(cfg, Stamp(cfg, op.s)).None? && !db.closed
       else !db.closed && !Lasts(db.rows[id.value], now)
  }

  lemma OwnIdempotent(cfg: Config, rows: Rows)
    ensures Own(cfg, Own(cfg, rows)) == Own(cfg, rows)
  {
  }

  lemma OwnWithout(cfg: Config, rows: Rows, ids: set<string>)
    ensures Own(cfg, rows - ids) == Own(cfg, rows) - ids
    ensures ids !! Foreign(cfg, rows).Keys <==> Foreign(cfg, rows - ids) == Foreign(cfg, rows)
  {
    if id :| id in ids && id in Foreign(cfg, rows) {
      assert id !in Foreign(cfg, rows - ids);
    }
  }

  lemma OwnWith(cfg: Config, rows: Rows, s: Session)
    requires InSite(cfg, s)
    ensures Own(cfg, rows[s.id := s]) == Own(cfg, rows)[s.id := s]
    ensures s.id !in Foreign(cfg, rows) <==> Foreign(cfg, rows[s.id := s]) == Foreign(cfg, rows)
  {
    if s.id in Foreign(cfg, rows) {
      assert s.id !in Foreign(cfg, rows[s.id := s]);
    }
  }

  /** Isolation holds of a step exactly when the call does not cross sites. */
  lemma IsolationExact(cfg: Config, db: Db, op: Op, now: Time, db': Db, reply: Reply)
    requires cfg.siteId != "" && ValidDb(db)
    requires ControlNext(cfg, db, op, now, db', reply)
    ensures Isolated(cfg, db, op, now, db', reply) <==> !Crosses(cfg, db, op, now)
  {
    OwnIdempotent(cfg, db.rows);
    match op {
      case Create(s) => CreateIsolation(cfg, db, s, now, db', reply);
      case Get(id) => OwnWithout(cfg, db.rows, {id});
      case Update(s) => UpdateIsolation(cfg, db, s, now, db', reply);
      case Delete(id) => DeleteIsolation(cfg, db, id, now, db', reply);
      case DeleteByUser(user) => OwnWithout(cfg, db.rows, IdsOf(Own(cfg, db.rows), user));
      case Touch(id) => TouchIsolation(cfg, db, id, now, db', reply);
      case List(_) =>
    }
  }

  lemma UpdateIsolation(cfg: Config, db: Db, s: Session, now: Time, db': Db, reply: Reply)
    requires cfg.siteId != "" && ValidDb(db)
    requires ControlNext(cfg, db, Op.Update(s), now, db', reply)
    ensures Isolated(cfg, db, Op.Update(s), now, db', reply) <==> !Crosses(cfg, db, Op.Update(s), now)
  {
    OwnWithout(cfg, db.rows, {s.id});
    OwnWith(cfg, db.rows, Stamp(cfg, s).(updatedAt := now));
  }

  lemma DeleteIsolation(cfg: Config, db: Db, id: string, now: Time, db': Db, reply: Reply)
    requires cfg.siteId != "" && ValidDb(db)
    requires ControlNext(cfg, db, Op.Delete(id), now, db', reply)
    ensures Isolated(cfg, db, Op.Delete(id), now, db', reply) <==> !Crosses(cfg, db, Op.Delete(id), now)
  {
    OwnWithout(cfg, db.rows, {id});
  }

  lemma TouchIsolation(cfg: Config, db: Db, id: string, now: Time, db': Db, reply: Reply)
    requires cfg.siteId != "" && ValidDb(db)
    requires ControlNext(cfg, db, Op.Touch(id), now, db', reply)
    ensures Isolated(cfg, db, Op.Touch(id), now, db', reply) <==> !Crosses(cfg, db, Op.Touch(id), now)
  {
    OwnWithout(cfg, db.rows, {id});
    if id in db.rows && InSite(cfg, db.rows[id]) {
      OwnWith(cfg, db.rows, db.rows[id].(lastAccessedAt := now));
    }
  }

  lemma CreateIsolation(cfg: Config, db: Db, s: Session, now: Time, db': Db, reply: Reply)
    requires cfg.siteId != "" && ValidDb(db)
    requires ControlNext(cfg, db, Op.Create(s), now, db', reply)
    ensures Isolated(cfg, db, Op.Create(s), now, db', reply) <==> !Crosses(cfg, db, Op.Create(s), now)
  {
    var stamped := Stamp(cfg, s);
    OwnIdempotent(cfg, db.rows);
    if WellFormed(s) && CheckData(cfg, stamped).None? {
      var victims :|
        && IsEviction(cfg, db.rows, s.user, victims)
        && (db', reply) == DbExec(db.(rows := db.rows - victims), Create(stamped), 0);
      assert IsEviction(cfg, Own(cfg, db.rows), s.user, victims);
      OwnWithout(cfg, db.rows, victims);
      OwnWith(cfg, db.rows - victims, stamped);
      assert CreateNext(cfg, Private(cfg, db), s, Private(cfg, db'), reply);
    }
  }

  // ----- whole runs -----

  /** One call, made through the wrapper number `who`. */
  datatype Event = Event(who: nat, op: Op, now: Time, reply: Reply)

  /** A run of calls through wrappers that share one backend; `dbs` are the states between the calls. */
  ghost predicate SharedRun(cfgs: seq<Config>, dbs: seq<Db>, events: seq<Event>) {
    && |dbs| == |events| + 1
    && forall i | 0 <= i < |events| ::
         && ValidDb(dbs[i])
         && events[i].who < |cfgs|
         && var e := events[i];
            ControlNext(cfgs[e.who], dbs[i], e.op, e.now, dbs[i + 1], e.reply)
  }

  ghost predicate NoCrossing(cfgs: seq<Config>, dbs: seq<Db>, events: seq<Event>)
    requires SharedRun(cfgs, dbs, events)
  {
    forall i | 0 <= i < |events| :: !Crosses(cfgs[events[i].who], dbs[i], events[i].op, events[i].now)
  }

  /** A run of one wrapped store on a backend of its own. */
  ghost predicate PrivateRun(cfg: Config, dbs: seq<Db>, events: seq<Event>) {
    && |dbs| == |events| + 1
    && forall i | 0 <= i < |events| ::
         var e := events[i]; ControlNext(cfg, dbs[i], e.op, e.now, dbs[i + 1], e.reply)
  }

  /** What wrapper `who` sees of a shared run: its own calls and replies, on its private states. */
  ghost function View(cfgs: seq<Config>, dbs: seq<Db>, events: seq<Event>, who: nat): (seq<Db>, seq<Event>)
    requires who < |cfgs| && |dbs| == |events| + 1
    decreases |events|
  {
    if events == [] then ([Private(cfgs[who], dbs[0])], [])
    else
      var n := |events| - 1;
      var (seen, calls) := View(cfgs, dbs[..n + 1], events[..n], who);
      if events[n].who == who then (seen + [Private(cfgs[who], dbs[n + 1])], calls + [events[n]])
      else (seen, calls)
  }

  /** Every site's view of a shared run is a run of a private backend with the very same replies. */
  lemma {:induction false} SitesIndependent(cfgs: seq<Config>, dbs: seq<Db>, events: seq<Event>, who: nat)
    requires who < |cfgs|
    requires forall i | 0 <= i < |cfgs| :: cfgs[i].siteId != ""
    requires forall i, j | 0 <= i < j < |cfgs| :: cfgs[i].siteId != cfgs[j].siteId
    requires SharedRun(cfgs, dbs, events) && NoCrossing(cfgs, dbs, events)
    ensures
      var (seen, calls) := View(cfgs, dbs, events, who);
      && PrivateRun(cfgs[who], seen, calls)
      && seen[0] == Private(cfgs[who], dbs[0])
      && seen[|seen| - 1] == Private(cfgs[who], dbs[|dbs| - 1])
    decreases |events|
  {
    if events != [] {
      var n := |events| - 1;
      SitesIndependent(cfgs, dbs[..n + 1], events[..n], who);
      assert dbs[..n + 1][n] == dbs[n];
      var (seen, calls) := View(cfgs, dbs[..n + 1], events[..n], who);
      StepSeen(cfgs, dbs[n], events[n], dbs[n + 1], who);
      if events[n].who == who {
        PrivateMore(cfgs[who], seen, calls, events[n], Private(cfgs[who], dbs[n + 1]));
      }
    }
  }

  /** A call is one on the private backend of its own site, and no change to that of any other. */
  lemma StepSeen(cfgs: seq<Config>, db: Db, e: Event, db': Db, who: nat)
    requires who < |cfgs| && e.who < |cfgs| && cfgs[who].siteId != "" && cfgs[e.who].siteId != ""
    requires e.who != who ==> cfgs[e.who].siteId != cfgs[who].siteId
    requires ValidDb(db) && ControlNext(cfgs[e.who], db, e.op, e.now, db', e.reply) && !Crosses(cfgs[e.who], db, e.op, e.now)
    ensures if e.who == who then ControlNext(cfgs[who], Private(cfgs[who], db), e.op, e.now, Private(cfgs[who], db'), e.reply)
            else Private(cfgs[who], db') == Private(cfgs[who], db)
  {
    IsolationExact(cfgs[e.who], db, e.op, e.now, db', e.reply);
    if e.who != who {
      OtherSiteUntouched(cfgs[e.who], cfgs[who], db, db');
      ClosedKept(cfgs[e.who], db, e.op, e.now, db', e.reply);
    }
  }

  lemma PrivateMore(cfg: Config, dbs: seq<Db>, calls: seq<Event>, e: Event, db': Db)
    requires PrivateRun(cfg, dbs, calls) && ControlNext(cfg, dbs[|calls|], e.op, e.now, db', e.reply)
    ensures PrivateRun(cfg, dbs + [db'], calls + [e])
  {
    var dbs', calls' := dbs + [db'], calls + [e];
    forall i | 0 <= i < |calls'|
      ensures ControlNext(cfg, dbs'[i], calls'[i].op, calls'[i].now, dbs'[i + 1], calls'[i].reply)
    {
      if i < |calls| {
        assert ControlNext(cfg, dbs[i], calls[i].op, calls[i].now, dbs[i + 1], calls[i].reply);
      }
    }
  }

  lemma OtherSiteUntouched(cfg: Config, other: Config, db: Db, db': Db)
    requires cfg.siteId != "" && other.siteId != "" && cfg.siteId != other.siteId
    requires Foreign(cfg, db'.rows) == Foreign(cfg, db.rows)
    ensures Own(other, db'.rows) == Own(other, db.rows)
  {
    assert Own(other, db'.rows) == Own(other, Foreign(cfg, db'.rows));
    assert Own(other, db.rows) == Own(other, Foreign(cfg, db.rows));
  }

  lemma ClosedKept(cfg: Config, db: Db, op: Op, now: Time, db': Db, reply: Reply)
    requires ControlNext(cfg, db, op, now, db', reply)
    ensures db'.closed == db.closed
  {
  }

  // ----- with distinct creation times the replies are the only possible ones -----

  ghost predicate DistinctTimes(rows: Rows) {
    forall i, j | i in rows && j in rows && i != j && rows[i].user == rows[j].user ::
      rows[i].createdAt != rows[j].createdAt
  }

  ghost predicate SameCalls(a: seq<Event>, b: seq<Event>) {
    |a| == |b| && forall i | 0 <= i < |a| :: a[i].op == b[i].op && a[i].now == b[i].now
  }

  /** So each site gets exactly the results it would get on its own backend. */
  lemma {:induction false} PrivateRunsAgree(cfg: Config, dbs1: seq<Db>, calls1: seq<Event>, dbs2: seq<Db>, calls2: seq<Event>)
    requires PrivateRun(cfg, dbs1, calls1) && PrivateRun(cfg, dbs2, calls2)
    requires dbs1[0] == dbs2[0] && SameCalls(calls1, calls2)
    requires forall i | 0 <= i < |dbs1| :: ValidDb(dbs1[i]) && DistinctTimes(dbs1[i].rows)
    ensures dbs1 == dbs2
    ensures forall i | 0 <= i < |calls1| :: calls1[i].reply == calls2[i].reply
    decreases |calls1|
  {
    if calls1 != [] {
      var n := |calls1| - 1;
      PrivateRunsAgree(cfg, dbs1[..n + 1], calls1[..n], dbs2[..n + 1], calls2[..n]);
      assert dbs1[..n + 1][n] == dbs1[n] && dbs2[..n + 1][n] == dbs2[n];
      var e, f := calls1[n], calls2[n];
      OutcomeUnique(cfg, dbs1[n], e.op, e.now, dbs1[n + 1], e.reply, dbs2[n + 1], f.reply);
      assert dbs1 == dbs1[..n + 1] + [dbs1[n + 1]];
      assert dbs2 == dbs2[..n + 1] + [dbs2[n + 1]];
      forall i | 0 <= i < n
        ensures calls1[i].reply == calls2[i].reply
      {
        assert calls1[..n][i] == calls1[i] && calls2[..n][i] == calls2[i];
      }
    }
  }

  lemma OutcomeUnique(cfg: Config, db: Db, op: Op, now: Time, db1: Db, reply1: Reply, db2: Db, reply2: Reply)
    requires ValidDb(db) && DistinctTimes(db.rows)
    requires ControlNext(cfg, db, op, now, db1, reply1) && ControlNext(cfg, db, op, now, db2, reply2)
    ensures db1 == db2 && reply1 == reply2
  {
    match op {
      case Create(s) =>
        if WellFormed(s) && CheckData(cfg, Stamp(cfg, s)).None? {
          var v1 :|
            && IsEviction(cfg, db.rows, s.user, v1)
            && (db1, reply1) == DbExec(db.(rows := db.rows - v1), Create(Stamp(cfg, s)), 0);
          var v2 :|
            && IsEviction(cfg, db.rows, s.user, v2)
            && (db2, reply2) == DbExec(db.(rows := db.rows - v2), Create(Stamp(cfg, s)), 0);
          EvictionUnique(cfg, db.rows, s.user, v1, v2);
        }
      case List(user) =>
        if !db.closed {
          ListingUnique(cfg, db, user, reply1.sessions, reply2.sessions);
        }
      case _ =>
    }
  }

  lemma ListingUnique(cfg: Config, db: Db, user: string, r: seq<Session>, r2: seq<Session>)
    requires ValidDb(db) && DistinctTimes(db.rows)
    requires IsListing(Own(cfg, db.rows), user, r) && IsListing(Own(cfg, db.rows), user, r2)
    ensures r == r2
  {
    ListingElements(Own(cfg, db.rows), user, r);
    forall i | 0 <= i < |r|
      ensures r[i].id in db.rows && db.rows[r[i].id] == r[i] && r[i].user == user
    {
      assert r[i] in r;
    }
    SortedUnique(r, r2);
  }

  lemma EvictionUnique(cfg: Config, rows: Rows, user: string, v1: set<string>, v2: set<string>)
    requires DistinctTimes(rows)
    requires IsEviction(cfg, rows, user, v1) && IsEviction(cfg, rows, user, v2)
    ensures v1 == v2
  {
    SameSizeSubset(v1, v2);
    SameSizeSubset(v2, v1);
    if x :| x in v1 - v2 {
      forall y | y in v2
        ensures y in v1
      {
      }
    }
  }

  lemma SameSizeSubset(a: set<string>, b: set<string>)
    ensures a <= b && |a| == |b| ==> a == b
  {
    if a <= b {
      assert b == a + (b - a);
    }
  }

  ghost predicate TimesIdentify(a: seq<Session>) {
    forall i, j | 0 <= i < |a| && 0 <= j < |a| && a[i].createdAt == a[j].createdAt :: a[i] == a[j]
  }

  lemma {:induction false} SortedUnique(a: seq<Session>, b: seq<Session>)
    requires Sorted(a) && Sorted(b) && multiset(a) == multiset(b)
    requires TimesIdentify(a)
    ensures a == b
    decreases |a|
  {
    if a == [] {
      assert |multiset(b)| == 0;
    } else {
      HeadsEqual(a, b);
      TailOf(a);
      TailOf(b);
      SortedUnique(a[1..], b[1..]);
    }
  }

  lemma TailOf(a: seq<Session>)
    requires a != []
    ensures a == [a[0]] + a[1..] && multiset(a[1..]) == multiset(a) - multiset{a[0]}
    ensures Sorted(a) ==> Sorted(a[1..])
    ensures TimesIdentify(a) ==> TimesIdentify(a[1..])
  {
    assert a == [a[0]] + a[1..];
  }

  lemma HeadsEqual(a: seq<Session>, b: seq<Session>)
    requires a != [] && Sorted(a) && Sorted(b) && multiset(a) == multiset(b)
    requires TimesIdentify(a)
    ensures b != [] && a[0] == b[0]
  {
    assert |multiset(b)| == |multiset(a)|;
    assert a[0] in multiset(b) && b[0] in multiset(a);
    var i :| 0 <= i < |b| && b[i] == a[0];
    var j :| 0 <= j < |a| && a[j] == b[0];
    assert a[0].createdAt <= a[j].createdAt && b[0].createdAt <= b[i].createdAt;
  }
}
