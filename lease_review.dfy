/** The lease review page's analysis request: when it is made, and which answers reach
    the rights store. The stored state code, the token and the server's answer are
    inputs; the answer's body is a parsed JSON value. */
module LeaseReview {
  import opened Outcomes
  import LeaseStore
  import RightsStore

  /** A parsed JSON value. Numbers are kept as integers. */
  datatype JsValue =
    | JNull
    | JBool(b: bool)
    | JNumber(n: int)
    | JString(s: string)
    | JArray(items: seq<JsValue>)
    | JObject(fields: map<string, JsValue>)

  /** `v.key` when `v` is an object that has `key`. */
  function Member(v: JsValue, key: string): (m: Option<JsValue>)
    ensures m.Some? <==> v.JObject? && key in v.fields
  {
    if v.JObject? && key in v.fields then Some(v.fields[key]) else None
  }

  predicate IsStringMember(v: JsValue, key: string) {
    Member(v, key).Some? && Member(v, key).value.JString?
  }

  /** `isValidConcern(item)`: an object whose `category` and `issue` are strings. `null`
      is refused here too; in the page it makes the check throw, which likewise stores
      nothing. */
  predicate IsValidConcern(item: JsValue) {
    item.JObject? && IsStringMember(item, "category") && IsStringMember(item, "issue")
  }

  /** The answer is taken: `analysis` is an array and every item of it is a concern. */
  predicate AcceptedAnalysis(data: JsValue) {
    && Member(data, "analysis").Some?
    && Member(data, "analysis").value.JArray?
    && forall item | item in Member(data, "analysis").value.items :: IsValidConcern(item)
  }

  /** A single malformed item anywhere in the array refuses the whole answer. */
  lemma OneBadItemRefusesAll(data: JsValue, bad: JsValue)
    requires Member(data, "analysis").Some? && Member(data, "analysis").value.JArray?
    requires bad in Member(data, "analysis").value.items && !IsValidConcern(bad)
    ensures !AcceptedAnalysis(data)
  {
  }

  /** The string in `v.key`, or `None`. */
  function StringMember(v: JsValue, key: string): (s: Option<string>)
    ensures s.Some? <==> IsStringMember(v, key)
  {
    if IsStringMember(v, key) then Some(Member(v, key).value.s) else None
  }

  function SeverityOf(v: JsValue): Option<RightsStore.Severity> {
    match StringMember(v, "severity")
    case Some("low") => Some(RightsStore.Low)
    case Some("medium") => Some(RightsStore.Medium)
    case Some("high") => Some(RightsStore.High)
    case _ => None
  }

  /** A checked item as the store holds it. */
  function ToConcern(item: JsValue): (c: RightsStore.Concern)
    requires IsValidConcern(item)
    ensures Some(c.category) == StringMember(item, "category")
    ensures Some(c.issue) == StringMember(item, "issue")
  {
    RightsStore.Concern(
      Member(item, "category").value.s, Member(item, "issue").value.s, SeverityOf(item),
      StringMember(item, "sourceClause"), StringMember(item, "recommendation"))
  }

  /** `data.analysis` as stored, for an accepted answer: every item, in order. */
  function StoredAnalysis(data: JsValue): (analysis: seq<RightsStore.Concern>)
    requires AcceptedAnalysis(data)
    ensures var items := Member(data, "analysis").value.items;
      |analysis| == |items| && forall k | 0 <= k < |items| :: analysis[k] == ToConcern(items[k])
  {
    var items := Member(data, "analysis").value.items;
    seq(|items|, k requires 0 <= k < |items| => ToConcern(items[k]))
  }

  /** A bill as the store holds it; a member that is not a string is held as "". */
  function ToBill(v: JsValue): RightsStore.Bill {
    RightsStore.Bill(StringMember(v, "title").GetOr(""), StringMember(v, "link").GetOr(""),
                     StringMember(v, "updated").GetOr(""))
  }

  /** `Array.isArray(data.bills) ? data.bills : []` */
  function StoredBills(data: JsValue): (bills: seq<RightsStore.Bill>)
    ensures !(Member(data, "bills").Some? && Member(data, "bills").value.JArray?) ==> bills == []
    ensures Member(data, "bills").Some? && Member(data, "bills").value.JArray? ==>
      var items := Member(data, "bills").value.items;
      |bills| == |items| && forall k | 0 <= k < |items| :: bills[k] == ToBill(items[k])
  {
    match Member(data, "bills")
    case Some(JArray(items)) => seq(|items|, k requires 0 <= k < |items| => ToBill(items[k]))
    case _ => []
  }

  const DefaultState := "TX"

  /** The body of `POST /api/rights/analyze-ai`. */
  datatype AnalyzeRequest = AnalyzeRequest(leaseId: int, state: string)

  /** `leases.find((l) => l.id === id)` */
  function FindLease(leases: seq<LeaseStore.Lease>, id: int): (found: Option<LeaseStore.Lease>)
    ensures found.Some? ==> found.value in leases && found.value.id == id
    ensures found.None? <==> forall l | l in leases :: l.id != id
  {
    if leases == [] then None
    else if leases[0].id == id then Some(leases[0])
    else FindLease(leases[1..], id)
  }

  /** The request the effect makes, if any: only with a selected lease that is in the
      list and a non-empty token, for the stored state code or "TX". */
  function RequestFor(selected: Option<int>, leases: seq<LeaseStore.Lease>, token: Option<string>,
                      storedState: Option<string>): (r: Option<AnalyzeRequest>)
    ensures r.Some? <==> selected.Some? && FindLease(leases, selected.value).Some? && token.Some? && token.value != ""
    ensures r.Some? ==> r.value.leaseId == selected.value && r.value.state == storedState.GetOr(DefaultState)
  {
    if selected.None? then None
    else
      var lease := FindLease(leases, selected.value);
      if lease.None? || token.None? || token.value == "" then None
      else Some(AnalyzeRequest(lease.value.id, storedState.GetOr(DefaultState)))
  }

  class ReviewPage {
    var selectedLeaseId: Option<int>
    var loading: bool
    const rights: RightsStore.Store
    const leases: LeaseStore.Store

    constructor (rights: RightsStore.Store, leases: LeaseStore.Store)
      ensures this.rights == rights && this.leases == leases
      ensures selectedLeaseId.None? && !loading
    {
      this.rights, this.leases := rights, leases;
      selectedLeaseId, loading := None, false;
    }

    /** The effect that runs `fetchRightsData()`, with `storedState` the stored
        `userState`, `token` the session token and `reply` how the request ended. Without
        a request nothing changes. With one, the summary and the previous analysis are
        cleared first, and only an OK answer whose analysis is accepted refills the
        store; loading ends false in every case. */
    method FetchRightsData(storedState: Option<string>, token: Option<string>, reply: Fetched<JsValue>)
      returns (sent: Option<AnalyzeRequest>)
      requires leases.Valid()
      modifies this, rights, leases
      ensures sent == RequestFor(selectedLeaseId, old(leases.leases), token, storedState)
      ensures selectedLeaseId == old(selectedLeaseId)
      ensures sent.None? ==>
        && loading == old(loading) && leases.State() == old(leases.State())
        && rights.analysis == old(rights.analysis) && rights.bills == old(rights.bills)
      ensures sent.Some? ==>
        && !loading
        && leases.State() == old(leases.State()).(selectedSummary := None, summaryError := None)
        && (if reply.Responded? && reply.ok && AcceptedAnalysis(reply.data)
            then rights.analysis == StoredAnalysis(reply.data) && rights.bills == StoredBills(reply.data)
            else rights.analysis == [] && rights.bills == [])
      ensures leases.Valid()
    {
      sent := RequestFor(selectedLeaseId, leases.leases, token, storedState);
      if sent.None? {
        return;
      }
      loading := true;
      leases.ClearLeaseSummary();
      rights.ClearRightsAnalysis();
      match reply {
        case Threw(_) =>
        case Responded(ok, data) =>
          if ok && AcceptedAnalysis(data) {
            rights.SetAnalysis(StoredAnalysis(data));
            rights.SetBills(StoredBills(data));
          }
      }
      loading := false;
    }
  }
}
