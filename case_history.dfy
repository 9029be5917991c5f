/** The paramedic's case-history page: the two filters, the query string
    they produce, the load of the history rows, and the label shown for each
    record. */
module CaseHistory {
  import opened Domain
  import HistoryRoute

  const AllFilter := "all"

  /** URLSearchParams as an ordered list of name/value pairs. */
  type Params = seq<(string, string)>

  /** URLSearchParams.get: the first value under `name`, or null. */
  function Lookup(params: Params, name: string): (v: Option<string>)
    ensures v.Some? ==> (name, v.value) in params
    ensures v.None? <==> forall k :: 0 <= k < |params| ==> params[k].0 != name
  {
    if params == [] then None
    else if params[0].0 == name then Some(params[0].1)
    else Lookup(params[1..], name)
  }

  /** The query the page sends: a status and a period, each only when its
      filter is not "all". */
  function Query(statusFilter: string, periodFilter: string): (params: Params)
    ensures Lookup(params, "status") == if statusFilter != AllFilter then Some(statusFilter) else None
    ensures Lookup(params, "period") == if periodFilter != AllFilter then Some(periodFilter) else None
    ensures |params| <= 2
  {
    (if statusFilter != AllFilter then [("status", statusFilter)] else [])
    + (if periodFilter != AllFilter then [("period", periodFilter)] else [])
  }

  /** The filter the endpoint derives from the page's query is the one the
      page's two selects describe. */
  lemma QueryReachesServer(statusFilter: string, periodFilter: string, paramedicId: string, clock: HistoryRoute.Clock)
    requires statusFilter != "" && periodFilter != ""
    ensures var q := Query(statusFilter, periodFilter);
      var w := HistoryRoute.ClauseFor(paramedicId, Lookup(q, "status"), Lookup(q, "period"), clock);
      && (w.status.Some? <==> statusFilter != AllFilter)
      && (w.status.Some? ==> w.status.value == statusFilter)
      && (w.createdAtGte.Some? <==> periodFilter != AllFilter)
      && (w.createdAtGte.Some? ==> w.createdAtGte.value == HistoryRoute.StartDate(periodFilter, clock))
  {
  }

  /** The text in a record's last column. */
  datatype RecordLabel = Complete | Incomplete | NotesCount(n: nat) | NoNotesYet

  /** The label for a row as the page computes it from the row it received. */
  function LabelOf(row: Case): (l: RecordLabel)
    ensures row.status == StatusCompleted ==> (l == Complete <==> row.medicalReport.Some?)
    ensures row.status == StatusCompleted ==> (l == Incomplete <==> row.medicalReport.None?)
    ensures row.status != StatusCompleted && row.treatmentNotes != [] ==> l == NotesCount(|row.treatmentNotes|)
    ensures row.status != StatusCompleted && row.treatmentNotes == [] ==> l == NoNotesYet
  {
    if row.status == StatusCompleted then
      if row.medicalReport.Some? then Complete else Incomplete
    else if |row.treatmentNotes| > 0 then NotesCount(|row.treatmentNotes|)
    else NoNotesYet
  }

  /** As written, the label is computed from the history endpoint's row, which
      carries at most one note: the count can never exceed one. */
  lemma NoteCountCappedAtOne(c: Case)
    ensures LabelOf(HistoryRoute.HistoryRow(c)).NotesCount? ==> LabelOf(HistoryRoute.HistoryRow(c)).n == 1
  {
  }

  lemma ThreeNotesShownAsOne(c: Case)
    requires c.status == StatusInProgress && |c.treatmentNotes| == 3
    ensures LabelOf(c) == NotesCount(3)
    ensures LabelOf(HistoryRoute.HistoryRow(c)) == NotesCount(1)
  {
  }

  /** A history entry that carries the case's note count beside its row. */
  datatype Entry = Entry(row: Case, noteCount: nat)

  /** The entry for a stored case: the endpoint's row, which differs from the
      case only in keeping the first note, and the case's full note count. */
  function EntryOf(c: Case): (e: Entry)
    ensures e.row.(treatmentNotes := c.treatmentNotes) == c && e.row.treatmentNotes <= c.treatmentNotes
    ensures e.noteCount == |c.treatmentNotes|
    ensures e.noteCount > 0 <==> e.row.treatmentNotes != []
  {
    Entry(HistoryRoute.HistoryRow(c), |c.treatmentNotes|)
  }

  /** The label read from an entry, the count taken from `noteCount`. */
  function EntryLabel(e: Entry): (l: RecordLabel)
    ensures e.noteCount == |e.row.treatmentNotes| ==> l == LabelOf(e.row)
    ensures e.row.status == StatusCompleted ==> (l == Complete <==> e.row.medicalReport.Some?)
    ensures e.row.status != StatusCompleted ==> (l.NotesCount? <==> e.noteCount > 0)
    ensures l.NotesCount? ==> l.n == e.noteCount
  {
    if e.row.status == StatusCompleted then
      if e.row.medicalReport.Some? then Complete else Incomplete
    else if e.noteCount > 0 then NotesCount(e.noteCount)
    else NoNotesYet
  }

  /** With the count sent beside the row, every record is labelled as its full
      case would be. */
  lemma EntryLabelIsFaithful(c: Case)
    ensures EntryLabel(EntryOf(c)) == LabelOf(c)
  {
  }

  function Labels(entries: seq<Entry>): (labels: seq<RecordLabel>)
    ensures |labels| == |entries|
    ensures forall k :: 0 <= k < |entries| ==> labels[k] == EntryLabel(entries[k])
  {
    seq(|entries|, k requires 0 <= k < |entries| => EntryLabel(entries[k]))
  }

  /** What the page shows. */
  datatype Screen = LoadingHistory | NothingShown | HistoryError(message: string) | NoHistory | HistoryTable(labels: seq<RecordLabel>)

  datatype HistoryReply = HistoryReceived(rows: seq<Entry>) | HistoryFailed

  class CaseHistoryView {
    var cases: seq<Entry>
    var loading: bool
    var error: string
    var statusFilter: string
    var periodFilter: string

    constructor ()
      ensures statusFilter == AllFilter && periodFilter == AllFilter
      ensures cases == [] && loading && error == ""
    {
      cases := [];
      loading := true;
      error := "";
      statusFilter := AllFilter;
      periodFilter := AllFilter;
    }

    /** Builds the query string's parameters one append at a time. */
    method BuildQuery() returns (params: Params)
      ensures params == Query(statusFilter, periodFilter)
    {
      params := [];
      if statusFilter != AllFilter {
        params := params + [("status", statusFilter)];
      }
      if periodFilter != AllFilter {
        params := params + [("period", periodFilter)];
      }
    }

    /** Loads the history; a failure sets the error, and nothing clears it. */
    method FetchCaseHistory(reply: HistoryReply)
      modifies this
      ensures !loading
      ensures reply.HistoryReceived? ==> cases == reply.rows && error == old(error)
      ensures reply.HistoryFailed? ==> cases == old(cases) && error == "Failed to load case history"
      ensures statusFilter == old(statusFilter) && periodFilter == old(periodFilter)
    {
      loading := true;
      if reply.HistoryReceived? {
        cases := reply.rows;
      } else {
        error := "Failed to load case history";
      }
      loading := false;
    }

    method SetStatusFilter(value: string)
      modifies this
      ensures statusFilter == value
      ensures periodFilter == old(periodFilter) && cases == old(cases) && loading == old(loading) && error == old(error)
    {
      statusFilter := value;
    }

    method SetPeriodFilter(value: string)
      modifies this
      ensures periodFilter == value
      ensures statusFilter == old(statusFilter) && cases == old(cases) && loading == old(loading) && error == old(error)
    {
      periodFilter := value;
    }

    /** The screen for the current state; `sessionLoading` is whether the
        session is still being resolved. */
    function Shown(sessionLoading: bool, session: Option<Session>): (s: Screen)
      reads this
      ensures sessionLoading || loading ==> s == LoadingHistory
      ensures !sessionLoading && !loading && (session.None? || session.value.role != Paramedic) ==> s == NothingShown
      ensures !sessionLoading && !loading && session.Some? && session.value.role == Paramedic ==>
                (error != "" ==> s == HistoryError(error))
                && (error == "" ==> (cases == [] <==> s == NoHistory))
                && (error == "" && cases != [] ==> s == HistoryTable(Labels(cases)))
      ensures s.HistoryTable? ==> |s.labels| == |cases| && forall k :: 0 <= k < |cases| ==> s.labels[k] == EntryLabel(cases[k])
    {
      if sessionLoading || loading then LoadingHistory
      else if session.None? || session.value.role != Paramedic then NothingShown
      else if error != "" then HistoryError(error)
      else if cases == [] then NoHistory
      else HistoryTable(Labels(cases))
    }
  }

  /** Once a load has failed, the error stays on screen through later
      successful loads. */
  method ErrorOutlivesReload(rows: seq<Entry>) returns (v: CaseHistoryView)
    ensures v.error == "Failed to load case history" && v.cases == rows
    ensures v.Shown(false, Some(Session("p1", Paramedic))) == HistoryError("Failed to load case history")
  {
    v := new CaseHistoryView();
    v.FetchCaseHistory(HistoryFailed);
    v.FetchCaseHistory(HistoryReceived(rows));
  }
}
