/** The paramedic's active-case endpoint: the cases assigned to the signed-in
    paramedic that are not finished yet. */
module ParamedicCasesRoute {
  import opened Domain
  import opened Store
  import Seqs
  import Ordering

  /** Assigned to `paramedicId` and either assigned or in progress. */
  predicate IsActiveFor(paramedicId: string, c: Case) {
    c.paramedicId == Some(paramedicId) && (c.status == StatusAssigned || c.status == StatusInProgress)
  }

  function ActiveCases(cases: seq<Case>, paramedicId: string): (r: seq<Case>)
    ensures forall c :: c in r <==> c in cases && IsActiveFor(paramedicId, c)
  {
    Seqs.Filter(cases, c => IsActiveFor(paramedicId, c))
  }

  method Get(db: Db, session: Option<Session>) returns (r: Response<seq<Case>>)
    ensures session.None? ==> r == Fail(401, "Unauthorized")
    ensures session.Some? && session.value.role != Paramedic ==> r == Fail(403, "Insufficient permissions")
    ensures r.Ok? <==> Guard(session, Paramedic).None?
    ensures r.Ok? ==> r.status == 200 && Ordering.NewestFirst(r.value)
                      && multiset(r.value) == multiset(ActiveCases(db.cases, session.value.userId))
    ensures r.Ok? ==> forall c :: c in r.value <==> c in db.cases && IsActiveFor(session.value.userId, c)
  {
    var denied := Guard(session, Paramedic);
    if denied.Some? {
      return Fail(denied.value.status, denied.value.error);
    }
    var active := ActiveCases(db.cases, session.value.userId);
    var listed := Ordering.SortNewestFirst(active);
    assert forall c :: c in listed <==> c in multiset(active);
    r := Ok(200, listed);
  }

  /** A case another paramedic holds, or one that is new or completed, never
      appears in the list. */
  lemma ForeignOrClosedNeverListed(cases: seq<Case>, paramedicId: string, c: Case)
    requires c.paramedicId != Some(paramedicId) || c.status == StatusNew || c.status == StatusCompleted
    ensures c !in ActiveCases(cases, paramedicId)
  {
  }
}
