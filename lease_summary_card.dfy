/** The lease summary card: an error, a placeholder, or the seven standard fields in a
    fixed order followed by a raw listing of whatever other fields the summary has. */
module LeaseSummaryCard {
  import opened Outcomes

  /** One property of the summary object, in the object's key order. */
  datatype Entry = Entry(key: string, value: string)

  /** `LeaseSummary`: the summary object as its entries, keys in `Object.keys` order. */
  type LeaseSummary = seq<Entry>

  /** An object has each key once. */
  predicate DistinctKeys(summary: LeaseSummary) {
    forall i, j | 0 <= i < j < |summary| :: summary[i].key != summary[j].key
  }

  function Keys(summary: LeaseSummary): (ks: seq<string>)
    ensures |ks| == |summary| && forall i | 0 <= i < |summary| :: ks[i] == summary[i].key
  {
    seq(|summary|, i requires 0 <= i < |summary| => summary[i].key)
  }

  /** In an object, where each key occurs once, `summary[key]` is the value stored under
      that key. */
  lemma {:induction false} LookupFindsOwnValue(summary: LeaseSummary, i: nat)
    requires DistinctKeys(summary) && i < |summary|
    ensures Lookup(summary, summary[i].key) == Some(summary[i].value)
  {
    if i > 0 {
      assert summary[0].key != summary[i].key;
      assert summary[1..][i - 1] == summary[i];
      LookupFindsOwnValue(summary[1..], i - 1);
    }
  }

  /** An entry of the `FIELDS` table. */
  datatype Field = Field(key: string, caption: string)

  const Fields: seq<Field> := [
    Field("rent", "Monthly Rent"),
    Field("leaseStartDate", "Lease Start Date"),
    Field("leaseEndDate", "Lease End Date"),
    Field("securityDeposit", "Security Deposit"),
    Field("noticePeriod", "Notice Period"),
    Field("lateFees", "Late Fees"),
    Field("petPolicy", "Pet Policy")
  ]

  /** `FIELDS.some(f => f.key === key)` */
  predicate IsStandardKey(key: string) {
    exists i | 0 <= i < |Fields| :: Fields[i].key == key
  }

  /** `summary[key]`, or `None` when the object has no such key. */
  function Lookup(summary: LeaseSummary, key: string): (v: Option<string>)
    ensures v.None? <==> key !in Keys(summary)
    ensures v.Some? ==> Entry(key, v.value) in summary
  {
    if summary == [] then None
    else if summary[0].key == key then Some(summary[0].value)
    else Lookup(summary[1..], key)
  }

  /** The entries whose keys are not standard, in the summary's key order; the card's
      `extraFields` are their keys, and the raw section shows exactly these entries. */
  function ExtraEntries(summary: LeaseSummary): (extra: LeaseSummary)
    ensures |extra| <= |summary|
  {
    if summary == [] then []
    else (if IsStandardKey(summary[0].key) then [] else [summary[0]]) + ExtraEntries(summary[1..])
  }

  /** The extra entries are exactly the summary's entries with a non-standard key. */
  lemma {:induction false} ExtraEntriesMembers(summary: LeaseSummary)
    ensures forall e | e in ExtraEntries(summary) :: e in summary && !IsStandardKey(e.key)
    ensures forall e | e in summary && !IsStandardKey(e.key) :: e in ExtraEntries(summary)
  {
    if summary != [] {
      ExtraEntriesMembers(summary[1..]);
      assert summary == [summary[0]] + summary[1..];
    }
  }

  /** The filter keeps the object's key order. */
  lemma {:induction false} ExtraEntriesAppend(a: LeaseSummary, b: LeaseSummary)
    ensures ExtraEntries(a + b) == ExtraEntries(a) + ExtraEntries(b)
  {
    if a == [] {
      assert a + b == b;
    } else {
      assert (a + b)[1..] == a[1..] + b;
      ExtraEntriesAppend(a[1..], b);
    }
  }

  /** Standard fields and extra fields split the summary's keys: every key is in exactly
      one of the two groups. */
  lemma ExtraFieldsPartition(summary: LeaseSummary, key: string)
    requires key in Keys(summary)
    ensures IsStandardKey(key) <==> key !in Keys(ExtraEntries(summary))
  {
    var i :| 0 <= i < |summary| && Keys(summary)[i] == key;
    var extra := ExtraEntries(summary);
    ExtraEntriesMembers(summary);
    if !IsStandardKey(key) {
      assert summary[i] in extra;
      var j :| 0 <= j < |extra| && extra[j] == summary[i];
      assert Keys(extra)[j] == key;
    } else {
      forall j | 0 <= j < |extra| ensures Keys(extra)[j] != key {
        assert extra[j] in extra;
      }
    }
  }

  /** A summary holding only standard keys has no raw section, and one made only of
      unknown keys shows every entry there. */
  lemma {:induction false} ExtraEntriesExtremes(summary: LeaseSummary)
    ensures (forall e | e in summary :: IsStandardKey(e.key)) ==> ExtraEntries(summary) == []
    ensures (forall e | e in summary :: !IsStandardKey(e.key)) ==> ExtraEntries(summary) == summary
  {
    if summary != [] {
      assert forall e | e in summary[1..] :: e in summary;
      ExtraEntriesExtremes(summary[1..]);
    }
  }

  /** One `<dt>`/`<dd>` pair of the standard list. */
  datatype Row = Row(caption: string, shown: string, found: bool)

  const NotFoundText := "Not found"

  /** The standard rows, in the `FIELDS` order: the value when it is truthy (a non-empty
      string), otherwise "Not found". */
  function StandardRows(summary: LeaseSummary): (rows: seq<Row>)
    ensures |rows| == |Fields| == 7
    ensures forall i | 0 <= i < 7 :: rows[i].caption == Fields[i].caption
    ensures forall i | 0 <= i < 7 ::
      var v := Lookup(summary, Fields[i].key);
      (rows[i].found <==> v.Some? && v.value != "")
      && rows[i].shown == (if rows[i].found then v.value else NotFoundText)
  {
    seq(7, i requires 0 <= i < 7 =>
      var v := Lookup(summary, Fields[i].key);
      if v.Some? && v.value != "" then Row(Fields[i].caption, v.value, true)
      else Row(Fields[i].caption, NotFoundText, false))
  }

  /** What the card shows. */
  datatype CardView =
    | ErrorView(message: string)
    | NoSummaryView
    | SummaryView(rows: seq<Row>, raw: Option<LeaseSummary>)

  const NoSummaryText := "No summary available."

  /** `LeaseSummaryCard({ summary, error })`: a truthy error wins over everything, then a
      missing summary, and only then the fields; the raw section appears exactly when
      there are extra fields. */
  function View(summary: Option<LeaseSummary>, error: Option<string>): (v: CardView)
    ensures v.ErrorView? <==> error.Some? && error.value != ""
    ensures v.ErrorView? ==> v.message == error.value
    ensures v.NoSummaryView? <==> (error.None? || error.value == "") && summary.None?
    ensures v.SummaryView? ==>
      && v.rows == StandardRows(summary.value)
      && (v.raw.Some? <==> ExtraEntries(summary.value) != [])
      && (v.raw.Some? ==> v.raw.value == ExtraEntries(summary.value))
  {
    if error.Some? && error.value != "" then ErrorView(error.value)
    else if summary.None? then NoSummaryView
    else
      var extra := ExtraEntries(summary.value);
      SummaryView(StandardRows(summary.value), if |extra| > 0 then Some(extra) else None)
  }
}
