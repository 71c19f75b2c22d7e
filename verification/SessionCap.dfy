/**
 The per-user session cap under concurrent Create calls (session/wrapper.go): listing, every single
 eviction and the insert are separate atomic steps of the store, interleaved at will.  A listing is read as a full
 scan, which it is as long as no stored ID is created again for another user (SessionMemory).
 */
module SessionCap {
  import opened Wrappers
  import opened SessionModel
  import opened SessionControl

  /**
   A Create call of one user and site in flight.  `keep`, `peers` and `turn` are history: the listed IDs
   the call spares, the IDs of all calls in flight when it listed, and the order of the listings.
   */
  datatype Call =
    | Started(s: Session)
    | Evicting(s: Session, left: set<string>, keep: set<string>, peers: set<string>, turn: nat)

  /** History of the call with the latest listing among those that have inserted. */
  datatype Winner = Winner(keep: set<string>, peers: set<string>, turn: nat)

  datatype System = System(rows: Rows, calls: map<nat, Call>, turn: nat, winner: Option<Winner>)

  datatype Step =
    | Begin(c: nat, s: Session)
    | ListAll(c: nat, victims: set<string>)
    | EvictOne(c: nat, id: string)
    | Insert(c: nat)
    | Abandon(c: nat)
    | Environment(rows: Rows)

  ghost function Ids(cfg: Config, user: string, rows: Rows): set<string> {
    IdsOf(Own(cfg, rows), user)
  }

  function InFlight(calls: map<nat, Call>): set<string> {
    set c | c in calls :: calls[c].s.id
  }

  ghost predicate Enabled(cfg: Config, user: string, k: nat, sys: System, step: Step) {
    match step
    case Begin(c, s) =>
      c !in sys.calls && |sys.calls| < k && s.user == user && InSite(cfg, s)
    case ListAll(c, victims) =>
      c in sys.calls && sys.calls[c].Started? && IsEviction(cfg, sys.rows, user, victims)
    case EvictOne(c, id) =>
      c in sys.calls && sys.calls[c].Evicting? && id in sys.calls[c].left
    case Insert(c) =>
      c in sys.calls && sys.calls[c].Evicting? && sys.calls[c].left == {}
    case Abandon(c) =>
      // the caller's context was cancelled, before or after the listing: the call returns without an insert
      c in sys.calls
    case Environment(rows) =>
      // any other traffic: other users and sites, updates, deletions, expiry
      Ids(cfg, user, rows) <= Ids(cfg, user, sys.rows)
  }

  ghost function Apply(cfg: Config, user: string, k: nat, sys: System, step: Step): System
    requires Enabled(cfg, user, k, sys, step)
  {
    match step
    case Begin(c, s) =>
      sys.(calls := sys.calls[c := Started(s)])
    case ListAll(c, victims) =>
      var keep := Ids(cfg, user, sys.rows) - victims;
      sys.(calls := sys.calls[c := Evicting(sys.calls[c].s, victims, keep, InFlight(sys.calls), sys.turn)],
           turn := sys.turn + 1)
    case EvictOne(c, id) =>
      var call := sys.calls[c];
      sys.(rows := sys.rows - {id}, calls := sys.calls[c := call.(left := call.left - {id})])
    case Insert(c) =>
      var call := sys.calls[c];
      var latest := AfterWinner(sys.winner, call.turn);
      sys.(rows := sys.rows[call.s.id := call.s],
           calls := sys.calls - {c},
           winner := if latest then Some(Winner(call.keep, call.peers, call.turn)) else sys.winner)
    case Abandon(c) =>
      sys.(calls := sys.calls - {c})
    case Environment(rows) =>
      sys.(rows := rows)
  }

  ghost predicate IsRun(cfg: Config, user: string, k: nat, run: seq<System>) {
    && |run| > 0
    && run[0].calls == map[] && run[0].winner == None
    && forall i | 0 <= i < |run| - 1 :: Next(cfg, user, k, run[i], run[i + 1])
  }

  ghost predicate Next(cfg: Config, user: string, k: nat, sys: System, sys': System) {
    exists step :: Enabled(cfg, user, k, sys, step) && sys' == Apply(cfg, user, k, sys, step)
  }

  // ----- the invariant; `ids` are the user's stored IDs -----

  predicate IsEvicting(calls: map<nat, Call>, c: nat) {
    c in calls && calls[c].Evicting?
  }

  ghost predicate Bounded(spare: int, k: nat, sys: System) {
    forall c | IsEvicting(sys.calls, c) ::
      var call := sys.calls[c];
      |call.keep| <= spare && |call.peers| <= k && call.turn < sys.turn && call.s.id in call.peers
  }

  /** Listings are ordered, and whoever listed earlier and is still in flight is a known peer. */
  ghost predicate Ordered(calls: map<nat, Call>) {
    forall c, d | IsEvicting(calls, c) && IsEvicting(calls, d) && c != d ::
      && calls[c].turn != calls[d].turn
      && (calls[d].turn < calls[c].turn ==> calls[d].s.id in calls[c].peers)
  }

  predicate AfterWinner(winner: Option<Winner>, turn: nat) {
    winner.Some? ==> turn > winner.value.turn
  }

  /** All that is stored was spared by the listing of any later call, is still to go, or was in flight then. */
  ghost predicate Covered(ids: set<string>, sys: System) {
    forall c | IsEvicting(sys.calls, c) && AfterWinner(sys.winner, sys.calls[c].turn) ::
      ids <= sys.calls[c].keep + sys.calls[c].left + sys.calls[c].peers
  }

  ghost predicate WinnerOk(spare: int, k: nat, first: set<string>, ids: set<string>, sys: System) {
    match sys.winner
    case None => ids <= first
    case Some(w) =>
      && |w.keep| <= spare && |w.peers| <= k && w.turn < sys.turn
      && ids <= w.keep + w.peers
      && forall d | IsEvicting(sys.calls, d) ::
           && sys.calls[d].turn != w.turn
           && (sys.calls[d].turn < w.turn ==> sys.calls[d].s.id in w.peers)
  }

  ghost predicate Inv(cfg: Config, user: string, k: nat, first: set<string>, sys: System) {
    var spare := cfg.maxSessionsPerUser - 1;
    var ids := Ids(cfg, user, sys.rows);
    && |sys.calls| <= k
    && Bounded(spare, k, sys)
    && Ordered(sys.calls)
    && Covered(ids, sys)
    && WinnerOk(spare, k, first, ids, sys)
  }

  lemma StepKeepsInv(cfg: Config, user: string, k: nat, first: set<string>, sys: System, step: Step)
    requires cfg.maxSessionsPerUser >= 1
    requires Inv(cfg, user, k, first, sys) && Enabled(cfg, user, k, sys, step)
    ensures Inv(cfg, user, k, first, Apply(cfg, user, k, sys, step))
  {
    match step {
      case Begin(c, s) =>
        BeginKeepsInv(cfg, user, k, first, sys, c, s);
      case ListAll(c, victims) =>
        ListKeepsInv(cfg, user, k, first, sys, c, victims);
      case EvictOne(c, id) =>
        EvictKeepsInv(cfg, user, k, first, sys, c, id);
      case Insert(c) =>
        InsertKeepsInv(cfg, user, k, first, sys, c);
      case Abandon(c) =>
        AbandonKeepsInv(cfg, user, k, first, sys, c);
      case Environment(rows) =>
        EnvironmentKeepsInv(cfg, user, k, first, sys, rows);
    }
  }

  lemma BeginKeepsInv(cfg: Config, user: string, k: nat, first: set<string>, sys: System, c: nat, s: Session)
    requires Inv(cfg, user, k, first, sys) && Enabled(cfg, user, k, sys, Begin(c, s))
    ensures Inv(cfg, user, k, first, Apply(cfg, user, k, sys, Begin(c, s)))
  {
    assert |sys.calls[c := Started(s)]| == |sys.calls| + 1;
  }

  lemma AbandonKeepsInv(cfg: Config, user: string, k: nat, first: set<string>, sys: System, c: nat)
    requires Inv(cfg, user, k, first, sys) && Enabled(cfg, user, k, sys, Abandon(c))
    ensures Inv(cfg, user, k, first, Apply(cfg, user, k, sys, Abandon(c)))
  {
    var rest := sys.calls - {c};
    assert rest.Keys == sys.calls.Keys - {c};
    assert |rest| == |rest.Keys| && |sys.calls| == |sys.calls.Keys|;
    forall d | IsEvicting(rest, d)
      ensures IsEvicting(sys.calls, d) && rest[d] == sys.calls[d]
    {
    }
  }

  lemma EnvironmentKeepsInv(cfg: Config, user: string, k: nat, first: set<string>, sys: System, rows: Rows)
    requires Inv(cfg, user, k, first, sys) && Enabled(cfg, user, k, sys, Environment(rows))
    ensures Inv(cfg, user, k, first, Apply(cfg, user, k, sys, Environment(rows)))
  {
    FewerIds(cfg.maxSessionsPerUser - 1, k, first, Ids(cfg, user, sys.rows), Ids(cfg, user, rows), sys, sys.(rows := rows));
  }

  lemma FewerIds(spare: int, k: nat, first: set<string>, ids: set<string>, ids': set<string>, sys: System, sys': System)
    requires ids' <= ids && sys' == sys.(rows := sys'.rows)
    requires Covered(ids, sys) && WinnerOk(spare, k, first, ids, sys)
    ensures Covered(ids', sys') && WinnerOk(spare, k, first, ids', sys')
  {
  }

  lemma ListKeepsInv(cfg: Config, user: string, k: nat, first: set<string>, sys: System, c: nat, victims: set<string>)
    requires cfg.maxSessionsPerUser >= 1
    requires Inv(cfg, user, k, first, sys) && Enabled(cfg, user, k, sys, ListAll(c, victims))
    ensures Inv(cfg, user, k, first, Apply(cfg, user, k, sys, ListAll(c, victims)))
  {
    var ids := Ids(cfg, user, sys.rows);
    assert ids == (ids - victims) + victims;
    assert |ids - victims| == |ids| - |victims|;
    InFlightCount(sys.calls);
    forall d | d in sys.calls
      ensures sys.calls[d].s.id in InFlight(sys.calls)
    {
    }
    NewListing(cfg.maxSessionsPerUser - 1, k, first, ids, sys, c, victims);
    var sys' := Apply(cfg, user, k, sys, ListAll(c, victims));
    assert sys'.calls.Keys == sys.calls.Keys;
  }

  lemma NewListing(spare: int, k: nat, first: set<string>, ids: set<string>, sys: System, c: nat, victims: set<string>)
    requires c in sys.calls && sys.calls[c].Started? && victims <= ids && |ids - victims| <= spare
    requires |InFlight(sys.calls)| <= k && forall d | d in sys.calls :: sys.calls[d].s.id in InFlight(sys.calls)
    requires Bounded(spare, k, sys) && Ordered(sys.calls) && Covered(ids, sys) && WinnerOk(spare, k, first, ids, sys)
    ensures
      var call := Evicting(sys.calls[c].s, victims, ids - victims, InFlight(sys.calls), sys.turn);
      var sys' := sys.(calls := sys.calls[c := call], turn := sys.turn + 1);
      Bounded(spare, k, sys') && Ordered(sys'.calls) && Covered(ids, sys') && WinnerOk(spare, k, first, ids, sys')
  {
    NewListingOrdered(spare, k, ids, sys, c, victims);
  }

  lemma NewListingOrdered(spare: int, k: nat, ids: set<string>, sys: System, c: nat, victims: set<string>)
    requires c in sys.calls && sys.calls[c].Started? && |ids - victims| <= spare
    requires |InFlight(sys.calls)| <= k && forall d | d in sys.calls :: sys.calls[d].s.id in InFlight(sys.calls)
    requires Bounded(spare, k, sys) && Ordered(sys.calls)
    ensures
      var call := Evicting(sys.calls[c].s, victims, ids - victims, InFlight(sys.calls), sys.turn);
      var sys' := sys.(calls := sys.calls[c := call], turn := sys.turn + 1);
      Bounded(spare, k, sys') && Ordered(sys'.calls)
  {
  }

  lemma EvictKeepsInv(cfg: Config, user: string, k: nat, first: set<string>, sys: System, c: nat, id: string)
    requires Inv(cfg, user, k, first, sys) && Enabled(cfg, user, k, sys, EvictOne(c, id))
    ensures Inv(cfg, user, k, first, Apply(cfg, user, k, sys, EvictOne(c, id)))
  {
    var ids := Ids(cfg, user, sys.rows);
    var sys' := Apply(cfg, user, k, sys, EvictOne(c, id));
    assert Ids(cfg, user, sys'.rows) == ids - {id};
    assert sys'.calls.Keys == sys.calls.Keys;
    OneGone(cfg.maxSessionsPerUser - 1, k, first, ids, sys, c, id);
  }

  lemma OneGone(spare: int, k: nat, first: set<string>, ids: set<string>, sys: System, c: nat, id: string)
    requires IsEvicting(sys.calls, c)
    requires Bounded(spare, k, sys) && Ordered(sys.calls) && Covered(ids, sys) && WinnerOk(spare, k, first, ids, sys)
    ensures
      var call := sys.calls[c];
      var sys' := sys.(rows := sys.rows - {id}, calls := sys.calls[c := call.(left := call.left - {id})]);
      && Bounded(spare, k, sys') && Ordered(sys'.calls)
      && Covered(ids - {id}, sys') && WinnerOk(spare, k, first, ids - {id}, sys')
  {
  }

  lemma InsertKeepsInv(cfg: Config, user: string, k: nat, first: set<string>, sys: System, c: nat)
    requires Inv(cfg, user, k, first, sys) && Enabled(cfg, user, k, sys, Insert(c))
    ensures Inv(cfg, user, k, first, Apply(cfg, user, k, sys, Insert(c)))
  {
    var call := sys.calls[c];
    var ids := Ids(cfg, user, sys.rows);
    var sys' := Apply(cfg, user, k, sys, Insert(c));
    assert Ids(cfg, user, sys'.rows) <= ids + {call.s.id};
    assert sys'.calls.Keys == sys.calls.Keys - {c};
    OneMore(cfg.maxSessionsPerUser - 1, k, first, ids, Ids(cfg, user, sys'.rows), sys, c);
  }

  lemma OneMore(spare: int, k: nat, first: set<string>, ids: set<string>, ids': set<string>, sys: System, c: nat)
    requires IsEvicting(sys.calls, c) && sys.calls[c].left == {} && ids' <= ids + {sys.calls[c].s.id}
    requires Bounded(spare, k, sys) && Ordered(sys.calls) && Covered(ids, sys) && WinnerOk(spare, k, first, ids, sys)
    ensures
      var call := sys.calls[c];
      var latest := AfterWinner(sys.winner, call.turn);
      var sys' := sys.(rows := sys.rows[call.s.id := call.s],
                       calls := sys.calls - {c},
                       winner := if latest then Some(Winner(call.keep, call.peers, call.turn)) else sys.winner);
      && Bounded(spare, k, sys') && Ordered(sys'.calls)
      && Covered(ids', sys') && WinnerOk(spare, k, first, ids', sys')
  {
  }

  lemma {:induction false} InFlightCount(calls: map<nat, Call>)
    ensures |InFlight(calls)| <= |calls|
    decreases |calls|
  {
    if calls != map[] {
      var c :| c in calls;
      var rest := calls - {c};
      assert rest.Keys == calls.Keys - {c};
      InFlightCount(rest);
      assert InFlight(calls) == InFlight(rest) + {calls[c].s.id};
    } else {
      assert InFlight(calls) == {};
    }
  }

  lemma {:induction false} RunKeepsInv(cfg: Config, user: string, k: nat, run: seq<System>)
    requires cfg.maxSessionsPerUser >= 1 && IsRun(cfg, user, k, run)
    ensures Inv(cfg, user, k, Ids(cfg, user, run[0].rows), run[|run| - 1])
    decreases |run|
  {
    if |run| > 1 {
      var before := run[..|run| - 1];
      RunKeepsInv(cfg, user, k, before);
      var sys, sys' := run[|run| - 2], run[|run| - 1];
      assert Next(cfg, user, k, sys, sys');
      var step :| Enabled(cfg, user, k, sys, step) && sys' == Apply(cfg, user, k, sys, step);
      StepKeepsInv(cfg, user, k, Ids(cfg, user, run[0].rows), sys, step);
    }
  }

  /**
   With at most `k` calls in flight the user never holds more than max(initial, cap - 1 + k) sessions on
   the site; and once any call has finished, no more than cap - 1 + k whatever there was at the start.
   */
  lemma CapUnderConcurrency(cfg: Config, user: string, k: nat, run: seq<System>)
    requires cfg.maxSessionsPerUser >= 1 && IsRun(cfg, user, k, run)
    ensures
      var held := |Ids(cfg, user, run[|run| - 1].rows)|;
      var bound := cfg.maxSessionsPerUser - 1 + k;
      && (held <= bound || held <= |Ids(cfg, user, run[0].rows)|)
      && (run[|run| - 1].winner.Some? ==> held <= bound)
  {
    RunKeepsInv(cfg, user, k, run);
    var sys := run[|run| - 1];
    var ids := Ids(cfg, user, sys.rows);
    match sys.winner {
      case None =>
        SubsetSize(ids, Ids(cfg, user, run[0].rows));
      case Some(w) =>
        SubsetSize(ids, w.keep + w.peers);
        assert |w.keep + w.peers| <= |w.keep| + |w.peers|;
    }
  }

  lemma SubsetSize(a: set<string>, b: set<string>)
    requires a <= b
    ensures |a| <= |b|
  {
    assert b == a + (b - a);
  }

  // ----- one call on its own -----

  /** A listing spares all it found if there is room, and else the newest cap - 1, and dooms exactly the others. */
  lemma ListingSpares(cfg: Config, user: string, k: nat, sys: System, c: nat, victims: set<string>)
    requires cfg.maxSessionsPerUser >= 1 && Enabled(cfg, user, k, sys, ListAll(c, victims))
    ensures
      var ids := Ids(cfg, user, sys.rows);
      var call := Apply(cfg, user, k, sys, ListAll(c, victims)).calls[c];
      && call.left + call.keep == ids && call.left !! call.keep
      && |call.keep| == (if |ids| < cfg.maxSessionsPerUser then |ids| else cfg.maxSessionsPerUser - 1)
      && forall gone, kept | gone in call.left && kept in call.keep :: sys.rows[gone].createdAt <= sys.rows[kept].createdAt
  {
    Spared(cfg, sys.rows, user, victims);
  }

  lemma Spared(cfg: Config, rows: Rows, user: string, victims: set<string>)
    requires cfg.maxSessionsPerUser >= 1 && IsEviction(cfg, rows, user, victims)
    ensures
      var ids := Ids(cfg, user, rows);
      && victims + (ids - victims) == ids
      && |ids - victims| == (if |ids| < cfg.maxSessionsPerUser then |ids| else cfg.maxSessionsPerUser - 1)
      && forall gone, kept | gone in victims && kept in ids - victims :: rows[gone].createdAt <= rows[kept].createdAt
  {
    var ids := Ids(cfg, user, rows);
    assert ids == (ids - victims) + victims;
  }

  ghost predicate Leads(cfg: Config, user: string, k: nat, from: System, run: seq<System>, to: System) {
    && |run| > 0 && run[0] == from && run[|run| - 1] == to
    && forall i | 0 <= i < |run| - 1 :: Next(cfg, user, k, run[i], run[i + 1])
  }

  lemma OneMoreStep(cfg: Config, user: string, k: nat, from: System, run: seq<System>, sys: System, step: Step)
    requires Leads(cfg, user, k, from, run, sys) && Enabled(cfg, user, k, sys, step)
    ensures Leads(cfg, user, k, from, run + [Apply(cfg, user, k, sys, step)], Apply(cfg, user, k, sys, step))
  {
    var run' := run + [Apply(cfg, user, k, sys, step)];
    forall i | 0 <= i < |run'| - 1
      ensures Next(cfg, user, k, run'[i], run'[i + 1])
    {
      if i < |run| - 1 {
        assert Next(cfg, user, k, run[i], run[i + 1]);
      }
    }
  }

  /** The evictions of a call, one after the other. */
  lemma {:induction false} EvictAll(cfg: Config, user: string, k: nat, from: System, run: seq<System>, sys: System, c: nat)
    returns (run': seq<System>, sys': System)
    requires Leads(cfg, user, k, from, run, sys) && IsEvicting(sys.calls, c)
    ensures Leads(cfg, user, k, from, run', sys')
    ensures sys'.rows == sys.rows - sys.calls[c].left && IsEvicting(sys'.calls, c) && sys'.calls[c].left == {}
    ensures sys'.calls[c].s == sys.calls[c].s && sys'.calls - {c} == sys.calls - {c}
    decreases |sys.calls[c].left|
  {
    var left := sys.calls[c].left;
    if left == {} {
      run', sys' := run, sys;
      assert sys.rows - {} == sys.rows;
    } else {
      var id :| id in left;
      var sys1 := Evicted(cfg, user, k, sys, c, id);
      OneMoreStep(cfg, user, k, from, run, sys, EvictOne(c, id));
      run', sys' := EvictAll(cfg, user, k, from, run + [sys1], sys1, c);
    }
  }

  lemma Evicted(cfg: Config, user: string, k: nat, sys: System, c: nat, id: string) returns (sys': System)
    requires IsEvicting(sys.calls, c) && id in sys.calls[c].left
    ensures Enabled(cfg, user, k, sys, EvictOne(c, id)) && sys' == Apply(cfg, user, k, sys, EvictOne(c, id))
    ensures IsEvicting(sys'.calls, c) && sys'.calls[c].left == sys.calls[c].left - {id}
    ensures sys'.rows - sys'.calls[c].left == sys.rows - sys.calls[c].left
    ensures sys'.calls[c].s == sys.calls[c].s && sys'.calls - {c} == sys.calls - {c}
  {
    sys' := Apply(cfg, user, k, sys, EvictOne(c, id));
    assert sys.rows - {id} - (sys.calls[c].left - {id}) == sys.rows - sys.calls[c].left;
  }

  /**
   A Create that nothing comes between is a run of these steps: whatever the wrapper's Create may do, a new call here
   can do, step by step, with the same rows at the end and the other calls as they were.
   */
  lemma CreateIsRun(cfg: Config, k: nat, sys: System, c: nat, s: Session, now: Time, db': Db) returns (run: seq<System>)
    requires ControlNext(cfg, Db(sys.rows, false), Op.Create(s), now, db', Done)
    requires c !in sys.calls && |sys.calls| < k
    ensures |run| > 0 && run[|run| - 1].rows == db'.rows && run[|run| - 1].calls == sys.calls
    ensures Leads(cfg, s.user, k, sys, run, run[|run| - 1])
  {
    var stamped := Stamp(cfg, s);
    var victims :|
      && IsEviction(cfg, sys.rows, s.user, victims)
      && (db', Done) == DbExec(Db(sys.rows - victims, false), Op.Create(stamped), 0);
    var listed;
    run, listed := Listed(cfg, k, sys, c, stamped, victims);
    var last;
    run, last := EvictAll(cfg, s.user, k, sys, run, listed, c);
    OneMoreStep(cfg, s.user, k, sys, run, last, Insert(c));
    run := run + [Apply(cfg, s.user, k, last, Insert(c))];
  }

  /** The first two steps of a call. */
  lemma Listed(cfg: Config, k: nat, sys: System, c: nat, s: Session, victims: set<string>)
    returns (run: seq<System>, listed: System)
    requires c !in sys.calls && |sys.calls| < k && InSite(cfg, s) && IsEviction(cfg, sys.rows, s.user, victims)
    ensures Leads(cfg, s.user, k, sys, run, listed)
    ensures listed.rows == sys.rows && IsEvicting(listed.calls, c) && listed.calls[c].left == victims && listed.calls[c].s == s
    ensures listed.calls - {c} == sys.calls
  {
    var begun := Apply(cfg, s.user, k, sys, Begin(c, s));
    OneMoreStep(cfg, s.user, k, sys, [sys], sys, Begin(c, s));
    listed := Apply(cfg, s.user, k, begun, ListAll(c, victims));
    OneMoreStep(cfg, s.user, k, sys, [sys] + [begun], begun, ListAll(c, victims));
    run := [sys] + [begun] + [listed];
  }
}
