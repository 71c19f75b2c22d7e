/**
 The in-memory session store (session/backend/memory/memory.go): a session map plus an index from user
 to session IDs, kept in step by every operation.
 */
module SessionMemory {
  import opened Wrappers
  import opened SessionModel

  type Index = map<string, set<string>>

  /** The index a full scan of the rows would build: no empty entry, no stale or missing ID. */
  function IndexOf(rows: Rows): Index {
    map user | user in (set id | id in rows :: rows[id].user) :: IdsOf(rows, user)
  }

  /** Whether storing `s` leaves the owner of an already stored ID as it was. */
  predicate KeepsOwner(rows: Rows, s: Session) {
    s.id in rows ==> rows[s.id].user == s.user
  }

  class MemoryStore {
    var sessions: Rows
    var userIndex: Index
    var closed: bool

    function State(): Db
      reads this
    {
      Db(sessions, closed)
    }

    /** The index of every user is exactly the set of stored IDs of that user, and no entry is empty. */
    ghost predicate Valid()
      reads this
    {
      ValidDb(State()) && userIndex == IndexOf(sessions)
    }

    constructor ()
      ensures Valid() && State() == Db(map[], false)
    {
      sessions, userIndex, closed := map[], map[], false;
    }

    /** Reusing a stored ID for another user is accepted, and is exactly what breaks the index. */
    method Create(sess: SessionRef?) returns (err: Option<Error>)
      requires Valid()
      modifies this
      ensures sess == null ==> err == Some(InvalidSession) && State() == old(State()) && Valid()
      ensures sess != null ==>
                DbNext(old(State()), Op.Create(sess.value), 0, State(), if err.None? then Done else Fail(err.value))
      ensures err.Some? ==> Valid()
      ensures err.None? ==> (Valid() <==> KeepsOwner(old(sessions), sess.value))
    {
      if sess == null || sess.value.id == "" {
        return Some(InvalidSession);
      }
      if closed {
        return Some(StoreClosed);
      }
      var s := sess.value;
      sessions := sessions[s.id := s];
      if s.user !in userIndex {
        userIndex := userIndex[s.user := {}];
      }
      userIndex := userIndex[s.user := userIndex[s.user] + {s.id}];
      PutKeepsIndex(old(sessions), s);
      return None;
    }

    method Get(id: string, now: Time) returns (r: Result<Session, Error>)
      requires Valid()
      modifies this
      ensures Valid()
      ensures DbNext(old(State()), Op.Get(id), now, State(), if r.Ok? then Found(r.value) else Fail(r.error))
      ensures r.Ok? <==>
                && id in old(sessions)
                && (old(sessions)[id].expiresAt.None? || now <= old(sessions)[id].expiresAt.value)
      ensures if r.Ok? then r.value == old(sessions)[id] && sessions == old(sessions)
              else if id in old(sessions) then r == Err(Expired) && sessions == old(sessions) - {id}
              else r == Err(NotFound) && sessions == old(sessions)
    {
      if id !in sessions {
        return Err(NotFound);
      }
      if closed {
        return Err(StoreClosed);
      }
      if IsExpired(sessions[id], now) {
        DeleteSessionLocked(id);
        return Err(Expired);
      }
      return Ok(sessions[id]);
    }

    /** The caller's session is stamped in place, and its stored copy carries the stamp. */
    method Update(sess: SessionRef?, now: Time) returns (err: Option<Error>)
      requires Valid()
      modifies this, sess
      ensures sess == null ==> err == Some(InvalidSession) && State() == old(State()) && Valid()
      ensures sess != null ==>
                && DbNext(old(State()), Op.Update(old(sess.value)), now, State(), if err.None? then Done else Fail(err.value))
                && sess.value == if err.None? then old(sess.value).(updatedAt := now) else old(sess.value)
      ensures err.Some? ==> Valid()
      ensures err.None? ==> (Valid() <==> KeepsOwner(old(sessions), old(sess.value)))
    {
      if sess == null || sess.value.id == "" {
        return Some(InvalidSession);
      }
      if closed {
        return Some(StoreClosed);
      }
      if sess.value.id !in sessions {
        return Some(NotFound);
      }
      sess.value := sess.value.(updatedAt := now);
      sessions := sessions[sess.value.id := sess.value];
      ReplaceKeepsIndex(old(sessions), sess.value);
      return None;
    }

    method Delete(id: string) returns (err: Option<Error>)
      requires Valid()
      modifies this
      ensures Valid()
      ensures DbNext(old(State()), Op.Delete(id), 0, State(), if err.None? then Done else Fail(err.value))
    {
      if closed {
        return Some(StoreClosed);
      }
      DeleteSessionLocked(id);
      return None;
    }

    method DeleteSessionLocked(id: string)
      requires Valid()
      modifies this`sessions, this`userIndex
      ensures Valid() && sessions == old(sessions) - {id}
    {
      if id !in sessions {
        return;
      }
      var user := sessions[id].user;
      if user in userIndex {
        userIndex := userIndex[user := userIndex[user] - {id}];
        if userIndex[user] == {} {
          userIndex := userIndex - {user};
        }
      }
      sessions := sessions - {id};
      DropKeepsIndex(old(sessions), id);
    }

    method DeleteByUserID(user: string) returns (r: Result<nat, Error>)
      requires Valid()
      modifies this
      ensures Valid()
      ensures DbNext(old(State()), DeleteByUser(user), 0, State(), if r.Ok? then Count(r.value) else Fail(r.error))
    {
      if closed {
        return Err(StoreClosed);
      }
      if user !in userIndex {
        assert IdsOf(sessions, user) == {};
        assert sessions - {} == sessions;
        return Ok(0);
      }
      var ids := userIndex[user];
      var left := ids;
      while left != {}
        invariant left <= ids
        invariant sessions == old(sessions) - (ids - left)
        invariant userIndex == old(userIndex) && closed == old(closed)
        decreases |left|
      {
        var id :| id in left;
        sessions := sessions - {id};
        left := left - {id};
      }
      userIndex := userIndex - {user};
      assert ids - left == ids == IdsOf(old(sessions), user);
      DropUserKeepsIndex(old(sessions), user);
      return Ok(|ids|);
    }

    method Touch(id: string, now: Time) returns (err: Option<Error>)
      requires Valid()
      modifies this
      ensures Valid()
      ensures DbNext(old(State()), Op.Touch(id), now, State(), if err.None? then Done else Fail(err.value))
    {
      if closed {
        return Some(StoreClosed);
      }
      if id !in sessions {
        return Some(NotFound);
      }
      sessions := sessions[id := sessions[id].(lastAccessedAt := now)];
      ReplaceKeepsIndex(old(sessions), sessions[id]);
      return None;
    }

    method Close()
      requires Valid()
      modifies this
      ensures Valid() && State() == Db(map[], true)
    {
      if closed {
        return;
      }
      sessions, userIndex, closed := map[], map[], true;
    }

    /** One tick of the background cleanup; what is left has no end or has not passed it. */
    method RemoveExpired(now: Time)
      requires Valid()
      modifies this
      ensures Valid() && closed == old(closed)
      ensures forall id | id in old(sessions) ::
                id in sessions <==> old(sessions)[id].expiresAt.None? || now <= old(sessions)[id].expiresAt.value
      ensures forall id | id in sessions :: id in old(sessions) && sessions[id] == old(sessions)[id]
    {
      if closed {
        return;
      }
      var left := sessions.Keys;
      while left != {}
        invariant Valid() && closed == old(closed)
        invariant left <= old(sessions).Keys
        invariant sessions.Keys <= old(sessions).Keys
        invariant forall id | id in sessions :: sessions[id] == old(sessions)[id]
        invariant forall id | id in old(sessions) ::
                    id in sessions <==> id in left || !IsExpired(old(sessions)[id], now)
        decreases |left|
      {
        var id :| id in left;
        left := left - {id};
        if IsExpired(sessions[id], now) {
          DeleteSessionLocked(id);
        }
      }
    }

    method ListByUserID(user: string) returns (r: Result<seq<Session>, Error>)
      requires Valid()
      ensures DbNext(State(), List(user), 0, State(), if r.Ok? then Listing(r.value) else Fail(r.error))
    {
      if closed {
        return Err(StoreClosed);
      }
      if user !in userIndex {
        assert SessionsOf(sessions, user) == {};
        return Ok([]);
      }
      var ids := userIndex[user];
      var found: seq<Session> := [];
      var left := ids;
      while left != {}
        invariant left <= ids
        invariant multiset(found) == multiset(RowsAt(sessions, ids - left))
        decreases |left|
      {
        var id :| id in left;
        CollectOne(sessions, ids - left, id);
        assert ids - (left - {id}) == (ids - left) + {id};
        left := left - {id};
        if id in sessions {
          found := found + [sessions[id]];
        }
      }
      assert ids - left == IdsOf(sessions, user);
      assert RowsAt(sessions, ids - left) == SessionsOf(sessions, user);
      var a := new Session[|found|](i requires 0 <= i < |found| => found[i]);
      assert a[..] == found;
      SortByCreation(a);
      return Ok(a[..]);
    }
  }

  // ----- the index under single row changes -----

  lemma PutKeepsIndex(rows: Rows, s: Session)
    requires WellKeyed(rows)
    ensures
      var old_ids := if s.user in IndexOf(rows) then IndexOf(rows)[s.user] else {};
      IndexOf(rows)[s.user := old_ids + {s.id}] == IndexOf(rows[s.id := s]) <==> KeepsOwner(rows, s)
  {
    var rows' := rows[s.id := s];
    var index := IndexOf(rows)[s.user := (if s.user in IndexOf(rows) then IndexOf(rows)[s.user] else {}) + {s.id}];
    assert IdsOf(rows', s.user) == IdsOf(rows, s.user) + {s.id};
    assert s.user !in IndexOf(rows) ==> IdsOf(rows, s.user) == {};
    if KeepsOwner(rows, s) {
      forall u | u != s.user
        ensures IdsOf(rows', u) == IdsOf(rows, u)
      {
      }
      assert index.Keys == IndexOf(rows').Keys by {
        forall u | u in index.Keys
          ensures u in IndexOf(rows').Keys
        {
          if u != s.user {
            var id :| id in rows && rows[id].user == u;
            assert rows'[id].user == u;
          } else {
            assert rows'[s.id].user == u;
          }
        }
      }
    } else {
      var u := rows[s.id].user;
      assert s.id in IdsOf(rows, u) && s.id !in IdsOf(rows', u);
      assert u in index && s.id in index[u];
    }
  }

  lemma ReplaceKeepsIndex(rows: Rows, s: Session)
    requires WellKeyed(rows) && s.id in rows
    ensures IndexOf(rows) == IndexOf(rows[s.id := s]) <==> KeepsOwner(rows, s)
  {
    PutKeepsIndex(rows, s);
    var u := rows[s.id].user;
    assert s.id in IdsOf(rows, u);
    if u == s.user {
      assert IndexOf(rows)[u] + {s.id} == IndexOf(rows)[u];
    } else {
      assert s.id !in IdsOf(rows[s.id := s], u);
    }
  }

  lemma CollectOne(rows: Rows, done: set<string>, id: string)
    requires WellKeyed(rows) && done <= rows.Keys && id in rows && id !in done
    ensures multiset(RowsAt(rows, done + {id})) == multiset(RowsAt(rows, done)) + multiset{rows[id]}
  {
    assert RowsAt(rows, done + {id}) == RowsAt(rows, done) + {rows[id]};
    assert rows[id] !in RowsAt(rows, done);
  }

  lemma DropUserKeepsIndex(rows: Rows, user: string)
    ensures IndexOf(rows - IdsOf(rows, user)) == IndexOf(rows) - {user}
  {
    var rows' := rows - IdsOf(rows, user);
    assert IdsOf(rows', user) == {};
    forall u | u != user
      ensures IdsOf(rows', u) == IdsOf(rows, u)
      ensures u in IndexOf(rows') <==> u in IndexOf(rows)
    {
      if u in IndexOf(rows) {
        var k :| k in rows && rows[k].user == u;
        assert k in rows' && rows'[k].user == u;
      }
    }
  }

  lemma DropKeepsIndex(rows: Rows, id: string)
    requires id in rows
    ensures
      var user := rows[id].user;
      var ids := IndexOf(rows)[user] - {id};
      IndexOf(rows - {id}) == if ids == {} then IndexOf(rows) - {user} else IndexOf(rows)[user := ids]
  {
    var user := rows[id].user;
    var rows' := rows - {id};
    assert IdsOf(rows', user) == IdsOf(rows, user) - {id};
    forall u | u != user
      ensures IdsOf(rows', u) == IdsOf(rows, u)
      ensures u in IndexOf(rows') <==> u in IndexOf(rows)
    {
      if u in IndexOf(rows) {
        var k :| k in rows && rows[k].user == u;
        assert k in rows' && rows'[k].user == u;
      }
    }
    if IdsOf(rows', user) != {} {
      var k :| k in IdsOf(rows', user);
      assert k in rows' && rows'[k].user == user;
    }
  }
}
