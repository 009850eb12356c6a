/**
 * Read-only projections: delivering rows in an arbitrary order, and the sessions
 * referenced by the score records of a test (and user).
 */
module Queries {
  import opened Tables

  /** No element occurs twice. */
  predicate Distinct<T(==)>(s: seq<T>)
  {
    forall i, j :: 0 <= i < j < |s| ==> s[i] != s[j]
  }

  /**
   * `list(rows)` followed by `shuffle`: every row exactly once, in an order the caller
   * cannot rely on. The order is left to the choice of each pick; nothing about
   * randomness is modelled, only that the result is some permutation of the rows.
   */
  method InSomeOrder<T(==)>(rows: set<T>) returns (s: seq<T>)
    ensures forall x :: x in s <==> x in rows
    ensures Distinct(s)
    ensures |s| == |rows|
  {
    s := [];
    var remaining := rows;
    while remaining != {}
      invariant remaining <= rows
      invariant forall x :: x in s <==> x in rows && x !in remaining
      invariant Distinct(s)
      invariant |s| + |remaining| == |rows|
      decreases |remaining|
    {
      var x :| x in remaining;
      s := s + [x];
      remaining := remaining - {x};
    }
  }

  /** `Sessions.objects.filter(id__in=ids)`: the sessions whose key is in `ids`, in table order. */
  function SessionsWithIds(sessions: seq<Session>, ids: set<nat>): (r: seq<Session>)
    ensures forall s :: s in r <==> s in sessions && s.id in ids
    ensures |r| <= |sessions|
    ensures IdsIncreasing(sessions) ==> IdsIncreasing(r)
  {
    if sessions == [] then []
    else
      var n := |sessions| - 1;
      var front := SessionsWithIds(sessions[..n], ids);
      assert IdsIncreasing(sessions) ==> IdsIncreasing(sessions[..n]);
      assert forall s :: s in front ==> s in sessions[..n];
      front + (if sessions[n].id in ids then [sessions[n]] else [])
  }

  /** Session keys strictly increase along the table, as auto-assigned keys do. */
  predicate IdsIncreasing(sessions: seq<Session>)
  {
    forall i, j :: 0 <= i < j < |sessions| ==> sessions[i].id < sessions[j].id
  }

  /** Appending a session with the next key keeps the keys increasing and below the counter. */
  lemma AppendSession(sessions: seq<Session>, s: Session, next: nat)
    requires IdsIncreasing(sessions) && (forall t :: t in sessions ==> t.id < next)
    requires s.id == next
    ensures IdsIncreasing(sessions + [s]) && (forall t :: t in sessions + [s] ==> t.id < next + 1)
  {
  }

  /** `get_sessions_by_test`: the distinct session keys of the test's records, then their sessions. */
  function SessionsByTest(records: seq<Record>, sessions: seq<Session>, testId: nat): (r: seq<Session>)
    ensures forall s :: s in r <==>
      s in sessions && exists rec :: rec in records && rec.testId == testId && rec.sessionId == s.id
    ensures IdsIncreasing(sessions) ==> Distinct(r)
  {
    var ids := set rec | rec in records && rec.testId == testId :: rec.sessionId;
    SessionsWithIds(sessions, ids)
  }

  /** `get_sessions_by_test_and_user`: as above, restricted to the records of one user. */
  function SessionsByTestAndUser(records: seq<Record>, sessions: seq<Session>, testId: nat, userId: nat): (r: seq<Session>)
    ensures forall s :: s in r <==>
      s in sessions && exists rec :: rec in records && rec.testId == testId && rec.user == userId && rec.sessionId == s.id
    ensures IdsIncreasing(sessions) ==> Distinct(r)
  {
    var ids := set rec | rec in records && rec.testId == testId && rec.user == userId :: rec.sessionId;
    SessionsWithIds(sessions, ids)
  }
}
