/** The client's store of the last tenant-rights analysis and the bills shown with it. */
module RightsStore {
  import opened Outcomes

  datatype Severity = Low | Medium | High

  /** `TenantRightsConcern` */
  datatype Concern = Concern(
    category: string, issue: string, severity: Option<Severity>,
    sourceClause: Option<string>, recommendation: Option<string>)

  /** `TenantRightsBill` */
  datatype Bill = Bill(title: string, link: string, updated: string)

  class Store {
    var analysis: seq<Concern>
    var bills: seq<Bill>

    constructor ()
      ensures analysis == [] && bills == []
    {
      analysis, bills := [], [];
    }

    /** `setAnalysis(data)` */
    method SetAnalysis(data: seq<Concern>)
      modifies this
      ensures analysis == data && bills == old(bills)
    {
      analysis := data;
    }

    /** `setBills(data)` */
    method SetBills(data: seq<Bill>)
      modifies this
      ensures bills == data && analysis == old(analysis)
    {
      bills := data;
    }

    /** `clearRightsAnalysis()` */
    method ClearRightsAnalysis()
      modifies this
      ensures analysis == [] && bills == []
    {
      analysis, bills := [], [];
    }
  }
}
