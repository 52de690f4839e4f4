/** The client's lease store: the user's leases, the summary shown on the review page,
    the quick-look dialog, and the upload flag. Each asynchronous action sets its
    "loading" fields, awaits the server, and settles; here the server's answer is an
    argument and the action is the whole sequence. */
module LeaseStore {
  import opened Outcomes
  import opened LeaseSummaryCard

  /** `Lease` */
  datatype Lease = Lease(id: int, originalFileName: string, uploadedAt: string)

  /** The body of `GET /api/lease`: its `leases` and `error` members. */
  datatype LeasesBody = LeasesBody(leases: Option<seq<Lease>>, error: Option<string>)

  /** The body of a `DELETE`: its `error` member (`None` also when the body is not JSON). */
  datatype DeleteBody = DeleteBody(error: Option<string>)

  /** The body of a summary request. */
  datatype SummaryBody = SummaryBody(summary: Option<LeaseSummary>, leaseFileName: Option<string>, error: Option<string>)

  /** The body of a quick-look request: the summary is text. */
  datatype TextSummaryBody = TextSummaryBody(summary: Option<string>, error: Option<string>)

  const LoadFailedMessage := "Failed to load leases."
  const LoadCrashedMessage := "An unexpected error occurred while loading leases."
  const DeleteFailedMessage := "Failed to delete lease."
  const DeleteCrashedMessage := "An unexpected error occurred while deleting the lease."
  const SummaryFailedMessage := "Failed to fetch summary."
  const SummaryCrashedMessage := "Unexpected error fetching summary."

  /** All the store's fields at one moment. */
  datatype LeaseState = LeaseState(
    leases: seq<Lease>, loading: bool, error: Option<string>,
    selectedSummary: Option<LeaseSummary>, summaryLoading: bool, summaryError: Option<string>,
    quickLookOpen: bool, quickLookLeaseId: Option<int>, quickLookSummary: Option<string>,
    quickLookLoading: bool, quickLookError: Option<string>, leaseFileName: Option<string>,
    uploading: bool)

  /** `initialState` */
  const InitialState := LeaseState([], false, None, None, false, None, false, None, None, false, None, None, false)

  /** The list after `leases.filter(l => l.id !== leaseId)`. */
  function Without(leases: seq<Lease>, leaseId: int): (r: seq<Lease>)
    ensures |r| <= |leases|
    ensures forall l | l in r :: l in leases && l.id != leaseId
    ensures forall l | l in leases && l.id != leaseId :: l in r
  {
    if leases == [] then []
    else (if leases[0].id != leaseId then [leases[0]] else []) + Without(leases[1..], leaseId)
  }

  /** The filter keeps the order of the remaining leases. */
  lemma {:induction false} WithoutAppend(a: seq<Lease>, b: seq<Lease>, leaseId: int)
    ensures Without(a + b, leaseId) == Without(a, leaseId) + Without(b, leaseId)
  {
    if a == [] {
      assert a + b == b;
    } else {
      assert (a + b)[1..] == a[1..] + b;
      WithoutAppend(a[1..], b, leaseId);
    }
  }

  /** Deleting the same lease twice leaves the list as the first deletion did. */
  lemma {:induction false} WithoutIdempotent(leases: seq<Lease>, leaseId: int)
    ensures Without(Without(leases, leaseId), leaseId) == Without(leases, leaseId)
  {
    if leases != [] {
      var head := if leases[0].id != leaseId then [leases[0]] else [];
      WithoutAppend(head, Without(leases[1..], leaseId), leaseId);
      WithoutIdempotent(leases[1..], leaseId);
    }
  }

  /** Deleting an id the list does not hold changes nothing. */
  lemma {:induction false} WithoutAbsent(leases: seq<Lease>, leaseId: int)
    requires forall l | l in leases :: l.id != leaseId
    ensures Without(leases, leaseId) == leases
  {
    if leases != [] {
      assert forall l | l in leases[1..] :: l in leases;
      WithoutAbsent(leases[1..], leaseId);
    }
  }

  class Store {
    var leases: seq<Lease>
    var loading: bool
    var error: Option<string>
    var selectedSummary: Option<LeaseSummary>
    var summaryLoading: bool
    var summaryError: Option<string>
    var quickLookOpen: bool
    var quickLookLeaseId: Option<int>
    var quickLookSummary: Option<string>
    var quickLookLoading: bool
    var quickLookError: Option<string>
    var leaseFileName: Option<string>
    var uploading: bool

    function State(): LeaseState
      reads this
    {
      LeaseState(leases, loading, error, selectedSummary, summaryLoading, summaryError,
                 quickLookOpen, quickLookLeaseId, quickLookSummary, quickLookLoading, quickLookError,
                 leaseFileName, uploading)
    }

    /** The quick-look dialog is open exactly when it has a lease to show. */
    ghost predicate Valid()
      reads this
    {
      quickLookOpen <==> quickLookLeaseId.Some?
    }

    /** Write every field of `s`: zustand's `set` with a full object. */
    method Assign(s: LeaseState)
      modifies this
      ensures State() == s
    {
      leases, loading, error := s.leases, s.loading, s.error;
      selectedSummary, summaryLoading, summaryError := s.selectedSummary, s.summaryLoading, s.summaryError;
      quickLookOpen, quickLookLeaseId, quickLookSummary := s.quickLookOpen, s.quickLookLeaseId, s.quickLookSummary;
      quickLookLoading, quickLookError, leaseFileName, uploading := s.quickLookLoading, s.quickLookError, s.leaseFileName, s.uploading;
    }

    constructor ()
      ensures State() == InitialState && Valid()
    {
      leases, loading, error := [], false, None;
      selectedSummary, summaryLoading, summaryError := None, false, None;
      quickLookOpen, quickLookLeaseId, quickLookSummary := false, None, None;
      quickLookLoading, quickLookError, leaseFileName, uploading := false, None, None, false;
    }

    /** `reset()`: every field back to `initialState`. */
    method Reset()
      modifies this
      ensures State() == InitialState && Valid()
    {
      Assign(InitialState);
    }

    /** `setUploading(value)` */
    method SetUploading(value: bool)
      requires Valid()
      modifies this
      ensures State() == old(State()).(uploading := value) && Valid()
    {
      uploading := value;
    }

    /** `openQuickLook(leaseId, leaseFileName?)`: open on this lease with nothing loaded. */
    method OpenQuickLook(leaseId: int, fileName: Option<string>)
      modifies this
      ensures State() == old(State()).(quickLookOpen := true, quickLookLeaseId := Some(leaseId),
                                       quickLookSummary := None, quickLookLoading := true,
                                       quickLookError := None, leaseFileName := fileName)
      ensures Valid()
    {
      quickLookOpen, quickLookLeaseId, quickLookSummary := true, Some(leaseId), None;
      quickLookLoading, quickLookError, leaseFileName := true, None, fileName;
    }

    /** `closeQuickLook()`: every quick-look field and the file name cleared. */
    method CloseQuickLook()
      modifies this
      ensures State() == old(State()).(quickLookOpen := false, quickLookLeaseId := None,
                                       quickLookSummary := None, quickLookLoading := false,
                                       quickLookError := None, leaseFileName := None)
      ensures Valid()
    {
      quickLookOpen, quickLookLeaseId, quickLookSummary := false, None, None;
      quickLookLoading, quickLookError, leaseFileName := false, None, None;
    }

    /** `clearLeaseSummary()` */
    method ClearLeaseSummary()
      requires Valid()
      modifies this
      ensures State() == old(State()).(selectedSummary := None, summaryError := None) && Valid()
    {
      selectedSummary, summaryError := None, None;
    }

    /** `fetchLeases()`: a refusal or a body without `leases` empties the list and keeps
      the server's `error` (`??` keeps even an empty one) or the default; a throw keeps an
      `Error`'s message. Only the list fields change, and loading ends in every case. */
    method FetchLeases(reply: Fetched<LeasesBody>)
      requires Valid()
      modifies this
      ensures Valid()
      ensures match reply
        case Threw(e) =>
          State() == old(State()).(leases := [], loading := false, error := Some(MessageOr(e, LoadCrashedMessage)))
        case Responded(ok, data) =>
          if !ok || data.leases.None? then
            State() == old(State()).(leases := [], loading := false, error := Some(data.error.GetOr(LoadFailedMessage)))
          else
            State() == old(State()).(leases := data.leases.value, loading := false, error := None)
    {
      loading, error := true, None;
      match reply {
        case Threw(e) =>
          error, leases, loading := Some(MessageOr(e, LoadCrashedMessage)), [], false;
        case Responded(ok, data) =>
          if !ok || data.leases.None? {
            error, leases, loading := Some(data.error.GetOr(LoadFailedMessage)), [], false;
            return;
          }
          leases, loading := data.leases.value, false;
      }
    }

    /** `removeLease(leaseId)`: on success exactly the leases with this id leave the list,
      the others staying in order; on a refusal or a throw the list is kept and the error
      is set. */
    method RemoveLease(leaseId: int, reply: Fetched<DeleteBody>)
      requires Valid()
      modifies this
      ensures Valid()
      ensures match reply
        case Threw(e) =>
          State() == old(State()).(loading := false, error := Some(MessageOr(e, DeleteCrashedMessage)))
        case Responded(ok, data) =>
          if !ok then
            State() == old(State()).(loading := false, error := Some(data.error.GetOr(DeleteFailedMessage)))
          else
            State() == old(State()).(leases := Without(old(leases), leaseId), loading := false, error := None)
    {
      loading, error := true, None;
      match reply {
        case Threw(e) =>
          error, loading := Some(MessageOr(e, DeleteCrashedMessage)), false;
        case Responded(ok, data) =>
          if !ok {
            error, loading := Some(data.error.GetOr(DeleteFailedMessage)), false;
            return;
          }
          leases, loading := Without(leases, leaseId), false;
      }
    }

    /** `fetchLeaseSummary(leaseId)`: the old summary is dropped before the request; a
      refusal also drops the file name, while a throw leaves the file name as it was. */
    method FetchLeaseSummary(reply: Fetched<SummaryBody>)
      requires Valid()
      modifies this
      ensures Valid()
      ensures match reply
        case Threw(e) =>
          State() == old(State()).(selectedSummary := None, summaryLoading := false,
                                   summaryError := Some(MessageOr(e, SummaryCrashedMessage)))
        case Responded(ok, data) =>
          if !ok || data.summary.None? then
            State() == old(State()).(selectedSummary := None, summaryLoading := false,
                                     summaryError := Some(data.error.GetOr(SummaryFailedMessage)),
                                     leaseFileName := None)
          else
            State() == old(State()).(selectedSummary := data.summary, summaryLoading := false,
                                     summaryError := None, leaseFileName := data.leaseFileName)
    {
      summaryLoading, summaryError, selectedSummary := true, None, None;
      match reply {
        case Threw(e) =>
          summaryError, summaryLoading, selectedSummary := Some(MessageOr(e, SummaryCrashedMessage)), false, None;
        case Responded(ok, data) =>
          if !ok || data.summary.None? {
            summaryError, summaryLoading := Some(data.error.GetOr(SummaryFailedMessage)), false;
            selectedSummary, leaseFileName := None, None;
            return;
          }
          selectedSummary, leaseFileName := data.summary, data.leaseFileName;
          summaryLoading, summaryError := false, None;
      }
    }

    /** `fetchQuickLookSummary(leaseId)`: only the quick-look text, loading and error
      fields change; an empty text counts as missing. */
    method FetchQuickLookSummary(reply: Fetched<TextSummaryBody>)
      requires Valid()
      modifies this
      ensures Valid()
      ensures match reply
        case Threw(e) =>
          State() == old(State()).(quickLookSummary := None, quickLookLoading := false,
                                   quickLookError := Some(MessageOr(e, SummaryCrashedMessage)))
        case Responded(ok, data) =>
          if !ok || data.summary.None? || data.summary.value == "" then
            State() == old(State()).(quickLookSummary := None, quickLookLoading := false,
                                     quickLookError := Some(data.error.GetOr(SummaryFailedMessage)))
          else
            State() == old(State()).(quickLookSummary := data.summary, quickLookLoading := false,
                                     quickLookError := None)
    {
      quickLookLoading, quickLookError := true, None;
      match reply {
        case Threw(e) =>
          quickLookError, quickLookLoading, quickLookSummary := Some(MessageOr(e, SummaryCrashedMessage)), false, None;
        case Responded(ok, data) =>
          if !ok || data.summary.None? || data.summary.value == "" {
            quickLookError, quickLookLoading, quickLookSummary := Some(data.error.GetOr(SummaryFailedMessage)), false, None;
            return;
          }
          quickLookSummary, quickLookLoading, quickLookError := data.summary, false, None;
      }
    }
  }
}
