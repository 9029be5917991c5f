/** The paramedic's case-history endpoint: every case ever assigned to the
    signed-in paramedic, optionally narrowed by status and by a creation-time
    window, newest first, each with at most one treatment note attached. */
module HistoryRoute {
  import opened Domain
  import opened Store
  import Seqs
  import Ordering

  /** The instants the three named periods start at, as read from the clock
      when the request is handled (milliseconds since the epoch). */
  datatype Clock = Clock(startOfToday: int, weekAgo: int, monthAgo: int)

  /** The lower bound for a non-empty `period`; an unrecognised period starts
      at the epoch. */
  function StartDate(period: string, clock: Clock): (t: int)
    ensures period == "today" ==> t == clock.startOfToday
    ensures period == "week" ==> t == clock.weekAgo
    ensures period == "month" ==> t == clock.monthAgo
    ensures period != "today" && period != "week" && period != "month" ==> t == 0
  {
    match period
    case "today" => clock.startOfToday
    case "week" => clock.weekAgo
    case "month" => clock.monthAgo
    case _ => 0
  }

  /** The query's where clause. */
  datatype Where = Where(paramedicId: string, status: Option<string>, createdAtGte: Option<int>)

  /** A query parameter value counts only when present and non-empty. */
  predicate Given(p: Option<string>) {
    p.Some? && p.value != ""
  }

  /** The where clause the query parameters call for: the paramedic always,
      the status unless absent, empty or "all", the start date whenever a
      non-empty period is given. */
  function ClauseFor(paramedicId: string, status: Option<string>, period: Option<string>, clock: Clock): (w: Where)
    ensures w.paramedicId == paramedicId
    ensures w.status.Some? <==> Given(status) && status.value != "all"
    ensures w.status.Some? ==> w.status == status
    ensures w.createdAtGte.Some? <==> Given(period)
    ensures w.createdAtGte.Some? ==> w.createdAtGte.value == StartDate(period.value, clock)
  {
    Where(paramedicId,
          if Given(status) && status.value != "all" then status else None,
          if Given(period) then Some(StartDate(period.value, clock)) else None)
  }

  /** Builds the where clause step by step from the query parameters. */
  method BuildWhere(paramedicId: string, status: Option<string>, period: Option<string>, clock: Clock)
      returns (w: Where)
    ensures w == ClauseFor(paramedicId, status, period, clock)
  {
    w := Where(paramedicId, None, None);
    if Given(status) && status.value != "all" {
      w := w.(status := status);
    }
    if Given(period) {
      var startDate := StartDate(period.value, clock);
      w := w.(createdAtGte := Some(startDate));
    }
  }

  predicate Matches(w: Where, c: Case) {
    && c.paramedicId == Some(w.paramedicId)
    && (w.status.Some? ==> c.status == w.status.value)
    && (w.createdAtGte.Some? ==> c.createdAt >= w.createdAtGte.value)
  }

  /** A listed row: the case with only its first treatment note attached. */
  function HistoryRow(c: Case): (row: Case)
    ensures row.(treatmentNotes := c.treatmentNotes) == c
    ensures row.treatmentNotes <= c.treatmentNotes
    ensures |row.treatmentNotes| == if c.treatmentNotes == [] then 0 else 1
  {
    c.(treatmentNotes := Seqs.Take(c.treatmentNotes, 1))
  }

  /** The test the query applies to each stored case. */
  function Selects(w: Where): Case -> bool {
    c => Matches(w, c)
  }

  /** The rows the query returns: the matching cases in stored order, each
      cut down to its first note. */
  function Rows(cases: seq<Case>, w: Where): (r: seq<Case>)
    ensures |r| == |Seqs.Filter(cases, Selects(w))|
    ensures forall row :: row in r ==> Matches(w, row) && |row.treatmentNotes| <= 1
    ensures forall row :: row in r ==> exists c :: c in cases && Matches(w, c) && row == HistoryRow(c)
    ensures forall c :: c in cases && Matches(w, c) ==> HistoryRow(c) in r
  {
    var selected := Seqs.Filter(cases, Selects(w));
    var r := RowsOf(selected);
    assert forall row :: row in r ==> exists c :: c in cases && Matches(w, c) && row == HistoryRow(c) by {
      forall row | row in r ensures exists c :: c in cases && Matches(w, c) && row == HistoryRow(c) {
        var k :| 0 <= k < |selected| && r[k] == row;
        assert selected[k] in selected;
      }
    }
    assert forall c :: c in selected ==> HistoryRow(c) in r by {
      forall c | c in selected ensures HistoryRow(c) in r {
        var k :| 0 <= k < |selected| && selected[k] == c;
        assert r[k] == HistoryRow(c);
      }
    }
    r
  }

  /** Each selected case cut down to its first note, one for one. */
  function RowsOf(selected: seq<Case>): (r: seq<Case>)
    ensures |r| == |selected|
    ensures forall k :: 0 <= k < |selected| ==> r[k] == HistoryRow(selected[k])
  {
    seq(|selected|, k requires 0 <= k < |selected| => HistoryRow(selected[k]))
  }

  lemma RowsOfConcat(a: seq<Case>, b: seq<Case>)
    ensures RowsOf(a + b) == RowsOf(a) + RowsOf(b)
  {
    var l := RowsOf(a + b);
    var r := RowsOf(a) + RowsOf(b);
    forall k | 0 <= k < |l| ensures l[k] == r[k] {
      if k < |a| {
        assert (a + b)[k] == a[k];
      } else {
        assert (a + b)[k] == b[k - |a|];
      }
    }
  }

  /** The rows of two runs of stored cases are the rows of each, in order:
      every stored case contributes its own row, once, where it stands. */
  lemma RowsConcat(a: seq<Case>, b: seq<Case>, w: Where)
    ensures Rows(a + b, w) == Rows(a, w) + Rows(b, w)
  {
    Seqs.FilterConcat(a, b, Selects(w));
    RowsOfConcat(Seqs.Filter(a, Selects(w)), Seqs.Filter(b, Selects(w)));
  }

  /** One stored case gives its row exactly when it matches. */
  lemma RowsOfOne(c: Case, w: Where)
    ensures Rows([c], w) == if Matches(w, c) then [HistoryRow(c)] else []
  {
    assert [c][1..] == [];
  }

  method Get(db: Db, session: Option<Session>, status: Option<string>, period: Option<string>, clock: Clock)
      returns (r: Response<seq<Case>>)
    ensures session.None? ==> r == Fail(401, "Unauthorized")
    ensures session.Some? && session.value.role != Paramedic ==> r == Fail(403, "Insufficient permissions")
    ensures r.Ok? <==> Guard(session, Paramedic).None?
    ensures r.Ok? ==> r.status == 200 && Ordering.NewestFirst(r.value)
    ensures r.Ok? ==> multiset(r.value)
                      == multiset(Rows(db.cases, ClauseFor(session.value.userId, status, period, clock)))
    ensures r.Ok? ==> forall row :: row in r.value ==>
                        row.paramedicId == Some(session.value.userId) && |row.treatmentNotes| <= 1
  {
    var denied := Guard(session, Paramedic);
    if denied.Some? {
      return Fail(denied.value.status, denied.value.error);
    }
    var w := BuildWhere(session.value.userId, status, period, clock);
    var rows := Rows(db.cases, w);
    var listed := Ordering.SortNewestFirst(rows);
    assert forall row :: row in listed <==> row in multiset(rows);
    r := Ok(200, listed);
  }

  /** A period the server does not recognise restricts nothing, since no case
      was created before the epoch. */
  lemma UnknownPeriodRestrictsNothing(w: Where, period: string, clock: Clock, c: Case)
    requires period != "today" && period != "week" && period != "month"
    requires w.createdAtGte.None? && c.createdAt >= 0
    ensures Matches(w.(createdAtGte := Some(StartDate(period, clock))), c) <==> Matches(w, c)
  {
  }

  /** A history row still tells whether the case has any treatment note. */
  lemma RowKeepsWhetherNotesExist(c: Case)
    ensures HistoryRow(c).treatmentNotes == [] <==> c.treatmentNotes == []
  {
  }
}
