/** The director's dashboard counters: all cases and the cases in each of the
    four known statuses. */
module StatsRoute {
  import opened Domain
  import opened Store

  datatype Stats = Stats(totalCases: nat, newCases: nat, assignedCases: nat, inProgressCases: nat, completedCases: nat)

  /** Number of cases whose status is exactly `status`. */
  function CountWithStatus(cases: seq<Case>, status: string): (n: nat)
    ensures n <= |cases|
    ensures n == 0 <==> forall k :: 0 <= k < |cases| ==> cases[k].status != status
  {
    if cases == [] then 0
    else (if cases[0].status == status then 1 else 0) + CountWithStatus(cases[1..], status)
  }

  predicate KnownStatus(s: string) {
    s == StatusNew || s == StatusAssigned || s == StatusInProgress || s == StatusCompleted
  }

  function StatsOf(cases: seq<Case>): (st: Stats)
    ensures st.totalCases == |cases|
  {
    Stats(|cases|,
          CountWithStatus(cases, StatusNew),
          CountWithStatus(cases, StatusAssigned),
          CountWithStatus(cases, StatusInProgress),
          CountWithStatus(cases, StatusCompleted))
  }

  function Sum(st: Stats): nat {
    st.newCases + st.assignedCases + st.inProgressCases + st.completedCases
  }

  method Get(db: Db, session: Option<Session>) returns (r: Response<Stats>)
    ensures session.None? ==> r == Fail(401, "Unauthorized")
    ensures session.Some? && session.value.role != MedicalDirector ==> r == Fail(403, "Insufficient permissions")
    ensures r.Ok? <==> Guard(session, MedicalDirector).None?
    ensures r.Ok? ==> r.status == 200 && r.value == StatsOf(db.cases)
  {
    var denied := Guard(session, MedicalDirector);
    if denied.Some? {
      return Fail(denied.value.status, denied.value.error);
    }
    var totalCases := |db.cases|;
    var newCases := CountWithStatus(db.cases, StatusNew);
    var assignedCases := CountWithStatus(db.cases, StatusAssigned);
    var inProgressCases := CountWithStatus(db.cases, StatusInProgress);
    var completedCases := CountWithStatus(db.cases, StatusCompleted);
    r := Ok(200, Stats(totalCases, newCases, assignedCases, inProgressCases, completedCases));
  }

  /** Number of cases whose status is none of the four known ones. */
  function CountUnknown(cases: seq<Case>): (n: nat)
    ensures n <= |cases|
    ensures n == 0 <==> forall k :: 0 <= k < |cases| ==> KnownStatus(cases[k].status)
  {
    if cases == [] then 0
    else (if KnownStatus(cases[0].status) then 0 else 1) + CountUnknown(cases[1..])
  }

  /** Every case is counted by exactly one of the four counters or is of an
      unknown status. */
  lemma {:induction false} CountersPartition(cases: seq<Case>)
    ensures Sum(StatsOf(cases)) + CountUnknown(cases) == |cases|
  {
    if cases != [] {
      CountersPartition(cases[1..]);
    }
  }

  /** The four per-status counters never exceed the total, and they add up to
      it exactly when every case is in one of the four known statuses. */
  lemma CountersBoundedByTotal(cases: seq<Case>)
    ensures Sum(StatsOf(cases)) <= |cases|
    ensures Sum(StatsOf(cases)) == |cases| <==> forall k :: 0 <= k < |cases| ==> KnownStatus(cases[k].status)
  {
    CountersPartition(cases);
  }

  /** Appending a case raises the total and exactly the counter of its status. */
  lemma {:induction false} CountAppend(cases: seq<Case>, c: Case, status: string)
    ensures CountWithStatus(cases + [c], status)
            == CountWithStatus(cases, status) + (if c.status == status then 1 else 0)
  {
    if cases != [] {
      assert (cases + [c])[1..] == cases[1..] + [c];
      CountAppend(cases[1..], c, status);
    }
  }

  /** After a case is created, the dashboard shows one more case in total and
      one more new case, and the other counters stay as they were. */
  lemma CreationCountsAsNew(cases: seq<Case>, c: Case)
    requires c.status == StatusNew
    ensures var before := StatsOf(cases); var after := StatsOf(cases + [c]);
      after == before.(totalCases := before.totalCases + 1, newCases := before.newCases + 1)
  {
    CountAppend(cases, c, StatusNew);
    CountAppend(cases, c, StatusAssigned);
    CountAppend(cases, c, StatusInProgress);
    CountAppend(cases, c, StatusCompleted);
  }
}
