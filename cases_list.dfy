/** The director's case table: the loaded cases, a status filter, paging by
    ten, and per-case assignment of a paramedic. */
module CasesList {
  import opened Domain
  import Seqs

  datatype Paramedic = Paramedic(id: string, name: string)

  /** A case as the table receives it from the case list endpoint. */
  datatype Row = Row(
    id: string,
    patientName: Option<string>,
    location: string,
    severity: string,
    status: string,
    createdAt: int,
    paramedic: Option<Paramedic>)

  const ItemsPerPage: nat := 10
  const AllStatuses := "all"

  function Min(a: int, b: int): int {
    if a <= b then a else b
  }

  /** The rows the status filter lets through, in their loaded order. */
  function Filtered(cases: seq<Row>, filterStatus: string): (r: seq<Row>)
    ensures |r| <= |cases|
    ensures filterStatus == AllStatuses ==> r == cases
    ensures filterStatus != AllStatuses ==> forall c :: c in r <==> c in cases && c.status == filterStatus
  {
    if filterStatus == AllStatuses then cases
    else Seqs.Filter(cases, (c: Row) => c.status == filterStatus)
  }

  /** Math.ceil(n / 10): the fewest pages of ten that hold n rows. */
  function TotalPages(n: nat): (p: nat)
    ensures n <= p * ItemsPerPage
    ensures p == 0 || (p - 1) * ItemsPerPage < n
  {
    (n + ItemsPerPage - 1) / ItemsPerPage
  }

  /** Page `page` (counted from one) of `s`: the slice the component computes
      as `slice(indexOfFirstItem, indexOfLastItem)`. */
  function PageOf<T>(s: seq<T>, page: nat): (r: seq<T>)
    requires page >= 1
    ensures |r| <= ItemsPerPage
    ensures r != [] ==> (page - 1) * ItemsPerPage + |r| <= |s|
    ensures forall k :: 0 <= k < |r| ==> r[k] == s[(page - 1) * ItemsPerPage + k]
    ensures page <= TotalPages(|s|) <==> r != []
  {
    s[Min((page - 1) * ItemsPerPage, |s|)..Min(page * ItemsPerPage, |s|)]
  }

  /** Pages 1 to k, one after the other. */
  function Pages<T>(s: seq<T>, k: nat): seq<T> {
    if k == 0 then [] else Pages(s, k - 1) + PageOf(s, k)
  }

  lemma {:induction false} PagesArePrefix<T>(s: seq<T>, k: nat)
    ensures Pages(s, k) == s[..Min(k * ItemsPerPage, |s|)]
  {
    if k > 0 {
      PagesArePrefix(s, k - 1);
      var a := Min((k - 1) * ItemsPerPage, |s|);
      var b := Min(k * ItemsPerPage, |s|);
      assert s[..a] + s[a..b] == s[..b];
    }
  }

  /** Paging loses and repeats nothing: the pages 1 to TotalPages, in order,
      are exactly the rows. */
  lemma PagesCoverAll<T>(s: seq<T>)
    ensures Pages(s, TotalPages(|s|)) == s
  {
    PagesArePrefix(s, TotalPages(|s|));
  }

  /** `paramedics.find(p => p.id === id)`: the first paramedic with that id. */
  function FindParamedic(paramedics: seq<Paramedic>, id: string): (r: Option<Paramedic>)
    ensures r.None? <==> forall k :: 0 <= k < |paramedics| ==> paramedics[k].id != id
    ensures r.Some? ==> r.value.id == id && r.value in paramedics
    ensures forall k :: 0 <= k < |paramedics| && paramedics[k].id == id && (forall j :: 0 <= j < k ==> paramedics[j].id != id) ==>
              r == Some(paramedics[k])
  {
    if paramedics == [] then None
    else if paramedics[0].id == id then Some(paramedics[0])
    else FindParamedic(paramedics[1..], id)
  }

  /** The local update after a successful assignment: the case with that id
      becomes assigned to the paramedic found (or to nobody if none was). */
  function MarkAssigned(cases: seq<Row>, caseId: string, paramedic: Option<Paramedic>): (r: seq<Row>)
    ensures |r| == |cases|
    ensures forall k :: 0 <= k < |r| && cases[k].id != caseId ==> r[k] == cases[k]
    ensures forall k :: 0 <= k < |r| && cases[k].id == caseId ==>
              r[k].status == StatusAssigned && r[k].paramedic == paramedic
              && r[k].(status := cases[k].status, paramedic := cases[k].paramedic) == cases[k]
  {
    seq(|cases|, k requires 0 <= k < |cases| =>
      if cases[k].id == caseId then cases[k].(status := StatusAssigned, paramedic := paramedic) else cases[k])
  }

  /** An assigned case leaves the "NEW" view of the table. */
  lemma AssignedLeavesNewFilter(cases: seq<Row>, caseId: string, paramedic: Option<Paramedic>)
    ensures forall c :: c in Filtered(MarkAssigned(cases, caseId, paramedic), StatusNew) ==> c.id != caseId
  {
    var r := MarkAssigned(cases, caseId, paramedic);
    forall c | c in Filtered(r, StatusNew) ensures c.id != caseId {
      var k :| 0 <= k < |r| && r[k] == c;
    }
  }

  /** What the panel body shows. */
  datatype Panel = Loading | ErrorMessage(message: string) | EmptyNotice(filterStatus: string) | Table(rows: seq<Row>)

  /** The outcome of loading the cases: the server's list (absent when the
      body has none), the server's refusal with its error text, or a network
      failure with its message. */
  datatype CasesFetch = CasesReceived(cases: Option<seq<Row>>) | CasesRefused(serverError: string) | CasesUnreachable(message: string)

  datatype ParamedicsFetch = ParamedicsReceived(users: Option<seq<Paramedic>>) | ParamedicsFailed

  /** The outcome of the assignment request. */
  datatype AssignReply = AssignAccepted | AssignRefused(serverError: string)

  datatype AssignOutcome = NoSelection | Assigned | AssignFailed

  class CasesListView {
    var cases: seq<Row>
    var loading: bool
    var error: string
    var paramedics: seq<Paramedic>
    var fetchingParamedics: bool
    var assigning: Option<string>
    var paramedicSelections: map<string, string>
    var filterStatus: string
    var currentPage: nat

    /** The current page never goes below one. */
    predicate Valid()
      reads this
    {
      currentPage >= 1
    }

    constructor ()
      ensures Valid()
      ensures cases == [] && loading && error == "" && paramedics == [] && !fetchingParamedics
      ensures assigning.None? && paramedicSelections == map[] && filterStatus == AllStatuses && currentPage == 1
    {
      cases := [];
      loading := true;
      error := "";
      paramedics := [];
      fetchingParamedics := false;
      assigning := None;
      paramedicSelections := map[];
      filterStatus := AllStatuses;
      currentPage := 1;
    }

    /** The rows the filter lets through. */
    function FilteredCases(): (r: seq<Row>)
      reads this
      ensures |r| <= |cases|
    {
      Filtered(cases, filterStatus)
    }

    function PageCount(): (p: nat)
      reads this
      ensures p * ItemsPerPage >= |FilteredCases()|
    {
      TotalPages(|FilteredCases()|)
    }

    /** The rows of the current page: what the table is meant to show. */
    function CurrentCases(): (r: seq<Row>)
      reads this
      requires Valid()
      ensures |r| <= ItemsPerPage
      ensures currentPage <= PageCount() <==> r != []
    {
      PageOf(FilteredCases(), currentPage)
    }

    /** The table body as the component renders it: every filtered row,
        whatever the page. */
    function RenderedRowsAsWritten(): (r: seq<Row>)
      reads this
      ensures forall x :: x in r <==> x in cases && (filterStatus == AllStatuses || x.status == filterStatus)
      ensures PageCount() > 1 ==> |r| > ItemsPerPage
    {
      FilteredCases()
    }

    /** The table body with the page applied. */
    function RenderedRows(): (r: seq<Row>)
      reads this
      requires Valid()
      ensures |r| <= ItemsPerPage
    {
      CurrentCases()
    }

    function Shown(): (p: Panel)
      reads this
      requires Valid()
      ensures loading ==> p == Loading
      ensures !loading && error != "" ==> p == ErrorMessage(error)
      ensures !loading && error == "" ==> (FilteredCases() == [] <==> p == EmptyNotice(filterStatus))
      ensures !loading && error == "" && FilteredCases() != [] ==> p == Table(RenderedRows())
    {
      if loading then Loading
      else if error != "" then ErrorMessage(error)
      else if FilteredCases() == [] then EmptyNotice(filterStatus)
      else Table(RenderedRows())
    }

    /** The pager appears only when there is more than one page. */
    function PagerShown(): (b: bool)
      reads this
      ensures b <==> |FilteredCases()| > ItemsPerPage
    {
      PageCount() > 1
    }

    method LoadCases(fetch: CasesFetch)
      modifies this
      ensures !loading
      ensures fetch.CasesReceived? ==> error == old(error) && cases == (if fetch.cases.Some? then fetch.cases.value else [])
      ensures fetch.CasesRefused? ==> cases == [] && error == (if fetch.serverError != "" then fetch.serverError else "Failed to fetch cases")
      ensures fetch.CasesUnreachable? ==> cases == [] && error == (if fetch.message != "" then fetch.message else "An error occurred while fetching cases")
      ensures paramedics == old(paramedics) && fetchingParamedics == old(fetchingParamedics)
      ensures assigning == old(assigning) && paramedicSelections == old(paramedicSelections)
      ensures filterStatus == old(filterStatus) && currentPage == old(currentPage)
    {
      match fetch {
        case CasesReceived(received) =>
          cases := if received.Some? then received.value else [];
        case CasesRefused(serverError) =>
          error := if serverError != "" then serverError else "Failed to fetch cases";
          cases := [];
        case CasesUnreachable(message) =>
          error := if message != "" then message else "An error occurred while fetching cases";
          cases := [];
      }
      loading := false;
    }

    method LoadParamedics(fetch: ParamedicsFetch)
      modifies this
      ensures !fetchingParamedics
      ensures paramedics == (if fetch.ParamedicsReceived? && fetch.users.Some? then fetch.users.value else [])
      ensures cases == old(cases) && loading == old(loading) && error == old(error)
      ensures assigning == old(assigning) && paramedicSelections == old(paramedicSelections)
      ensures filterStatus == old(filterStatus) && currentPage == old(currentPage)
    {
      if fetch.ParamedicsReceived? && fetch.users.Some? {
        paramedics := fetch.users.value;
      } else {
        paramedics := [];
      }
      fetchingParamedics := false;
    }

    method SelectParamedic(caseId: string, paramedicId: string)
      modifies this
      ensures paramedicSelections == old(paramedicSelections)[caseId := paramedicId]
      ensures cases == old(cases) && loading == old(loading) && error == old(error)
      ensures paramedics == old(paramedics) && fetchingParamedics == old(fetchingParamedics)
      ensures assigning == old(assigning) && filterStatus == old(filterStatus) && currentPage == old(currentPage)
    {
      paramedicSelections := paramedicSelections[caseId := paramedicId];
    }

    /** The paramedic chosen for a case, if a non-empty choice was made. */
    function Selection(caseId: string): (r: Option<string>)
      reads this
      ensures r.Some? <==> caseId in paramedicSelections && paramedicSelections[caseId] != ""
      ensures r.Some? ==> r.value == paramedicSelections[caseId]
    {
      if caseId in paramedicSelections && paramedicSelections[caseId] != "" then Some(paramedicSelections[caseId])
      else None
    }

    /** Assigns the case to the selected paramedic; `reply` is the server's
        answer to the assignment request. */
    method Assign(caseId: string, reply: AssignReply) returns (outcome: AssignOutcome)
      modifies this
      ensures outcome == NoSelection <==> old(Selection(caseId)).None?
      ensures outcome == Assigned <==> old(Selection(caseId)).Some? && reply.AssignAccepted?
      ensures outcome != Assigned ==> cases == old(cases) && paramedicSelections == old(paramedicSelections)
      ensures outcome == Assigned ==>
                cases == MarkAssigned(old(cases), caseId, FindParamedic(paramedics, old(Selection(caseId)).value))
                && paramedicSelections == old(paramedicSelections)[caseId := ""]
      ensures outcome == NoSelection ==> assigning == old(assigning)
      ensures outcome != NoSelection ==> assigning.None?
      ensures loading == old(loading) && error == old(error)
      ensures paramedics == old(paramedics) && fetchingParamedics == old(fetchingParamedics)
      ensures filterStatus == old(filterStatus) && currentPage == old(currentPage)
    {
      var selected := Selection(caseId);
      if selected.None? {
        return NoSelection;
      }
      var paramedicId := selected.value;
      assigning := Some(caseId);
      if reply.AssignAccepted? {
        cases := MarkAssigned(cases, caseId, FindParamedic(paramedics, paramedicId));
        paramedicSelections := paramedicSelections[caseId := ""];
        outcome := Assigned;
      } else {
        outcome := AssignFailed;
      }
      assigning := None;
    }

    method ChangeFilter(status: string)
      modifies this
      ensures filterStatus == status
      ensures cases == old(cases) && loading == old(loading) && error == old(error)
      ensures paramedics == old(paramedics) && fetchingParamedics == old(fetchingParamedics)
      ensures assigning == old(assigning) && paramedicSelections == old(paramedicSelections)
      ensures currentPage == old(currentPage)
    {
      filterStatus := status;
    }

    /** The "Previous" button: shown with the pager, disabled on page one. */
    method ClickPrevious()
      requires Valid()
      modifies this
      ensures Valid()
      ensures currentPage == if old(PagerShown()) && old(currentPage) != 1 then old(currentPage) - 1 else old(currentPage)
      ensures old(currentPage) <= PageCount() ==> currentPage <= PageCount()
      ensures cases == old(cases) && loading == old(loading) && error == old(error)
      ensures paramedics == old(paramedics) && fetchingParamedics == old(fetchingParamedics)
      ensures assigning == old(assigning) && paramedicSelections == old(paramedicSelections)
      ensures filterStatus == old(filterStatus)
    {
      if PagerShown() && currentPage != 1 {
        currentPage := currentPage - 1;
      }
    }

    /** The "Next" button: shown with the pager, disabled on the last page. */
    method ClickNext()
      requires Valid()
      modifies this
      ensures Valid()
      ensures currentPage == if old(PagerShown()) && old(currentPage) != old(PageCount()) then old(currentPage) + 1 else old(currentPage)
      ensures old(currentPage) <= PageCount() ==> currentPage <= PageCount()
      ensures cases == old(cases) && loading == old(loading) && error == old(error)
      ensures paramedics == old(paramedics) && fetchingParamedics == old(fetchingParamedics)
      ensures assigning == old(assigning) && paramedicSelections == old(paramedicSelections)
      ensures filterStatus == old(filterStatus)
    {
      if PagerShown() && currentPage != PageCount() {
        currentPage := currentPage + 1;
      }
    }
  }

  /** With eleven matching rows the pager offers two pages, yet the table as
      rendered holds all eleven rows on each of them: moving between pages
      changes nothing in the table. */
  lemma RenderIgnoresPage(v: CasesListView, r: Row)
    requires v.Valid() && v.filterStatus == AllStatuses
    requires v.cases == seq(11, _ => r)
    ensures v.PagerShown()
    ensures |v.RenderedRowsAsWritten()| == 11 > ItemsPerPage
    ensures |v.RenderedRows()| <= ItemsPerPage
  {
  }

  /** With the page applied, each filtered row is shown on exactly one page:
      the pages the pager offers, read in order, are the filtered rows. */
  lemma RenderedPagesCoverFiltered(v: CasesListView)
    ensures Pages(v.FilteredCases(), v.PageCount()) == v.FilteredCases()
  {
    PagesCoverAll(v.FilteredCases());
  }
}
