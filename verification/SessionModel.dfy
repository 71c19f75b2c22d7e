/**
 The session record (session/session.go) and the meaning of the session store interface.

 A store is seen here as a plain table from session ID to session, searched by a full scan.  The two
 backends keep faster structures; they are proved against this table in SessionMemory and SessionKvs.

 Time is an integer number of nanoseconds; `None` stands for the zero time of an unset expiry.
 */
module SessionModel {
  import opened Wrappers

  type Time = int

  datatype Session = Session(
    id: string,
    user: string,
    site: string,
    data: Option<map<string, string>>,
    createdAt: Time,
    updatedAt: Time,
    lastAccessedAt: Time,
    expiresAt: Option<Time>)

  /** A caller's pointer to a session; stores stamp fields of the pointed-to record in place. */
  class SessionRef {
    var value: Session

    constructor (value: Session)
      ensures this.value == value
    {
      this.value := value;
    }
  }

  datatype Error =
    | NotFound
    | Expired
    | InvalidSession
    | NotSerializable
    | SizeLimitExceeded
    | StoreClosed
    | BadRecord

  predicate IsExpired(s: Session, now: Time) {
    s.expiresAt.Some? && now > s.expiresAt.value
  }

  /** The session has no end, or has not passed it. */
  predicate Lasts(s: Session, now: Time) {
    s.expiresAt.None? || now <= s.expiresAt.value
  }

  function TTL(s: Session, now: Time): (ttl: nat)
    ensures ttl > 0 <==> s.expiresAt.Some? && now < s.expiresAt.value
    ensures ttl > 0 ==> now + ttl == s.expiresAt.value
  {
    if s.expiresAt.None? then 0
    else if s.expiresAt.value - now < 0 then 0
    else s.expiresAt.value - now
  }

  const MAX_SESSION_ID_LENGTH := 256

  predicate UrlSafe(c: char) {
    'A' <= c <= 'Z' || 'a' <= c <= 'z' || '0' <= c <= '9' || c == '-' || c == '_' || c == '.'
  }

  predicate ValidId(id: string) {
    && 1 <= |id| <= MAX_SESSION_ID_LENGTH
    && forall i | 0 <= i < |id| :: UrlSafe(id[i])
  }

  /** In codes of ASCII: the digits, the letters, '-', '.' and '_'. */
  predicate UrlSafeCode(n: int) {
    48 <= n <= 57 || 65 <= n <= 90 || 97 <= n <= 122 || n == 45 || n == 46 || n == 95
  }

  method ValidSessionID(id: string) returns (ok: bool)
    ensures ok <==> ValidId(id)
    ensures ok <==> 1 <= |id| <= 256 && forall i | 0 <= i < |id| :: UrlSafeCode(id[i] as int)
  {
    assert forall i | 0 <= i < |id| :: UrlSafe(id[i]) <==> UrlSafeCode(id[i] as int);
    if id == "" || |id| > MAX_SESSION_ID_LENGTH {
      return false;
    }
    for i := 0 to |id|
      invariant forall k | 0 <= k < i :: UrlSafe(id[k])
    {
      if !UrlSafe(id[i]) {
        return false;
      }
    }
    return true;
  }

  // ----- the table -----

  type Rows = map<string, Session>

  datatype Db = Db(rows: Rows, closed: bool)

  datatype Op =
    | Create(s: Session)
    | Get(id: string)
    | Update(s: Session)
    | Delete(id: string)
    | DeleteByUser(user: string)
    | Touch(id: string)
    | List(user: string)

  datatype Reply =
    | Done
    | Fail(error: Error)
    | Found(s: Session)
    | Count(n: nat)
    | Listing(sessions: seq<Session>)

  /** Every row is stored under its own ID. */
  ghost predicate WellKeyed(rows: Rows) {
    forall id | id in rows :: rows[id].id == id
  }

  ghost predicate ValidDb(db: Db) {
    WellKeyed(db.rows) && (db.closed ==> db.rows == map[])
  }

  function IdsOf(rows: Rows, user: string): set<string> {
    set id | id in rows && rows[id].user == user
  }

  function SessionsOf(rows: Rows, user: string): set<Session> {
    set id | id in rows && rows[id].user == user :: rows[id]
  }

  ghost predicate Sorted(r: seq<Session>) {
    forall i, j | 0 <= i < j < |r| :: r[i].createdAt <= r[j].createdAt
  }

  /** `r` is the user's sessions in the order of their creation time, ties in any order. */
  ghost predicate IsListing(rows: Rows, user: string, r: seq<Session>) {
    Sorted(r) && multiset(r) == multiset(SessionsOf(rows, user))
  }

  /** What a store with these rows may answer, and the rows it is left with. */
  ghost predicate DbNext(db: Db, op: Op, now: Time, db': Db, reply: Reply) {
    if op.List? && !db.closed then
      db' == db && reply.Listing? && IsListing(db.rows, op.user, reply.sessions)
    else
      (db', reply) == DbExec(db, op, now)
  }

  /** The operations whose outcome is determined by the rows (all but a listing with ties). */
  function DbExec(db: Db, op: Op, now: Time): (Db, Reply) {
    match op
    case Create(s) =>
      if s.id == "" then (db, Fail(InvalidSession))
      else if db.closed then (db, Fail(StoreClosed))
      else (db.(rows := db.rows[s.id := s]), Done)
    case Get(id) =>
      if id !in db.rows then (db, Fail(NotFound))
      else if db.closed then (db, Fail(StoreClosed))
      else if IsExpired(db.rows[id], now) then (db.(rows := db.rows - {id}), Fail(Expired))
      else (db, Found(db.rows[id]))
    case Update(s) =>
      if s.id == "" then (db, Fail(InvalidSession))
      else if db.closed then (db, Fail(StoreClosed))
      else if s.id !in db.rows then (db, Fail(NotFound))
      else (db.(rows := db.rows[s.id := s.(updatedAt := now)]), Done)
    case Delete(id) =>
      if db.closed then (db, Fail(StoreClosed)) else (db.(rows := db.rows - {id}), Done)
    case DeleteByUser(user) =>
      if db.closed then (db, Fail(StoreClosed))
      else (db.(rows := db.rows - IdsOf(db.rows, user)), Count(|IdsOf(db.rows, user)|))
    case Touch(id) =>
      if db.closed then (db, Fail(StoreClosed))
      else if id !in db.rows then (db, Fail(NotFound))
      else (db.(rows := db.rows[id := db.rows[id].(lastAccessedAt := now)]), Done)
    case List(_) =>
      (db, Fail(StoreClosed))
  }

  // ----- listings -----

  /** The exchange sort that both backends use to order a listing. */
  method SortByCreation(a: array<Session>)
    modifies a
    ensures Sorted(a[..])
    ensures multiset(a[..]) == multiset(old(a[..]))
  {
    var i := 0;
    while i < a.Length - 1
      invariant 0 <= i
      invariant a.Length > 0 ==> i < a.Length
      invariant forall p, q | 0 <= p < i && p < q < a.Length :: a[p].createdAt <= a[q].createdAt
      invariant multiset(a[..]) == multiset(old(a[..]))
    {
      var j := i + 1;
      while j < a.Length
        invariant i < j <= a.Length
        invariant forall p, q | 0 <= p < i && p < q < a.Length :: a[p].createdAt <= a[q].createdAt
        invariant forall q | i < q < j :: a[i].createdAt <= a[q].createdAt
        invariant multiset(a[..]) == multiset(old(a[..]))
      {
        if a[j].createdAt < a[i].createdAt {
          a[i], a[j] := a[j], a[i];
        }
        j := j + 1;
      }
      i := i + 1;
    }
  }

  lemma ListingElements(rows: Rows, user: string, r: seq<Session>)
    requires IsListing(rows, user, r)
    ensures forall s :: s in r <==> s in SessionsOf(rows, user)
    ensures |r| == |SessionsOf(rows, user)|
  {
    forall s
      ensures s in r <==> s in SessionsOf(rows, user)
    {
      assert s in r <==> s in multiset(r);
    }
    assert |multiset(r)| == |r|;
  }

  lemma TwoOccurrences<T>(r: seq<T>, i: nat, j: nat)
    requires i < j < |r|
    ensures r[i] == r[j] ==> multiset(r)[r[i]] >= 2
  {
    assert r == r[..j] + [r[j]] + r[j + 1..];
    assert r[i] in r[..j];
    assert multiset(r) == multiset(r[..j]) + multiset{r[j]} + multiset(r[j + 1..]);
  }

  /** No session is listed twice, so distinct positions hold distinct IDs. */
  lemma ListingDistinct(rows: Rows, user: string, r: seq<Session>, i: nat, j: nat)
    requires WellKeyed(rows) && IsListing(rows, user, r)
    requires i < j < |r|
    ensures r[i].id != r[j].id
  {
    ListingElements(rows, user, r);
    assert r[i] in r && r[j] in r;
    TwoOccurrences(r, i, j);
    assert multiset(r)[r[i]] <= 1;
  }

  function RowsAt(rows: Rows, ids: set<string>): set<Session>
    requires ids <= rows.Keys
  {
    set id | id in ids :: rows[id]
  }

  lemma CountIds(rows: Rows, user: string)
    requires WellKeyed(rows)
    ensures |SessionsOf(rows, user)| == |IdsOf(rows, user)|
  {
    CountRowsAt(rows, IdsOf(rows, user));
    assert SessionsOf(rows, user) == RowsAt(rows, IdsOf(rows, user));
  }

  lemma {:induction false} CountRowsAt(rows: Rows, ids: set<string>)
    requires WellKeyed(rows) && ids <= rows.Keys
    ensures |RowsAt(rows, ids)| == |ids|
  {
    if ids != {} {
      var x :| x in ids;
      CountRowsAt(rows, ids - {x});
      assert RowsAt(rows, ids) == RowsAt(rows, ids - {x}) + {rows[x]};
      assert rows[x] !in RowsAt(rows, ids - {x});
    }
  }
}
