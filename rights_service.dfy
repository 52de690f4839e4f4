/** The server's tenant-rights checks: per-state rules applied to a lease's text through
    two case-insensitive regular expressions, and the shaping of OpenStates bill search
    results into `{ title, link, updated }` records. Reading the rules file, the state to
    jurisdiction table and the HTTP call are inputs. */
module RightsService {
  import opened JsText
  import opened Outcomes

  // ---------------------------------------------------------------- regular expressions

  /** `t[lo..hi]` holds no line terminator, so `.*` can cross it. */
  predicate LineFree(t: string, lo: int, hi: int)
    requires 0 <= lo <= hi <= |t|
  {
    forall k | lo <= k < hi :: !IsLineTerminator(t[k])
  }

  /** The pattern `ws[0].*ws[1].*...` matches `t` starting at index `i`: each word appears
      literally, and the `.*` gaps between consecutive words are free of line terminators. */
  predicate MatchesAt(t: string, i: int, ws: seq<string>)
    decreases |ws|
  {
    ws == [] ||
    (OccursAt(t, ws[0], i) &&
      (|ws| == 1 ||
        exists k | i + |ws[0]| <= k <= |t| :: LineFree(t, i + |ws[0]|, k) && MatchesAt(t, k, ws[1..])))
  }

  /** `/ws[0].*ws[1].*.../i.test(text)` for patterns written in lower-case ASCII. Without
      the `u` flag, `/i` folds a character only when both it and its folded form are ASCII,
      so folding the text with `Lower` and matching literally is the same test. */
  predicate RegexTest(text: string, ws: seq<string>) {
    exists p | 0 <= p <= |text| :: MatchesAt(Lower(text), p, ws)
  }

  /** The words occur in `t[lo..hi]`, in this order and without overlapping. */
  predicate InOrderIn(t: string, lo: int, hi: int, ws: seq<string>)
    decreases |ws|
  {
    ws == [] ||
    exists i | lo <= i && i + |ws[0]| <= hi :: OccursAt(t, ws[0], i) && InOrderIn(t, i + |ws[0]|, hi, ws[1..])
  }

  /** The reading of the pattern in plain words: some line of the text contains the words
      in order, with the text compared in lower case. */
  predicate WordsInOneLine(text: string, ws: seq<string>) {
    var t := Lower(text);
    exists lo, hi | 0 <= lo <= hi <= |t| :: LineFree(t, lo, hi) && InOrderIn(t, lo, hi, ws)
  }

  predicate WordsWithoutBreaks(ws: seq<string>) {
    forall w | w in ws :: NoLineBreak(w)
  }

  lemma {:induction false} InOrderWiden(t: string, lo: int, lo': int, hi: int, ws: seq<string>)
    requires lo' <= lo && InOrderIn(t, lo, hi, ws)
    ensures InOrderIn(t, lo', hi, ws)
  {
    if ws != [] {
      var i :| lo <= i && i + |ws[0]| <= hi && OccursAt(t, ws[0], i) && InOrderIn(t, i + |ws[0]|, hi, ws[1..]);
      assert lo' <= i;
    }
  }

  /** A match starting at `i` lies inside a line-free span that holds the words in order. */
  lemma {:induction false} MatchIsInOneLine(t: string, i: int, ws: seq<string>)
    requires ws != [] && WordsWithoutBreaks(ws) && MatchesAt(t, i, ws)
    ensures exists hi | i <= hi <= |t| :: LineFree(t, i, hi) && InOrderIn(t, i, hi, ws)
    decreases |ws|
  {
    var e := i + |ws[0]|;
    assert ws[0] in ws;
    assert t[i..e] == ws[0];
    assert LineFree(t, i, e) by {
      forall k | i <= k < e ensures !IsLineTerminator(t[k]) {
        assert t[k] == ws[0][k - i];
      }
    }
    if |ws| == 1 {
      assert InOrderIn(t, e, e, ws[1..]);
      assert InOrderIn(t, i, e, ws);
    } else {
      var k :| e <= k <= |t| && LineFree(t, e, k) && MatchesAt(t, k, ws[1..]);
      assert forall w | w in ws[1..] :: w in ws;
      MatchIsInOneLine(t, k, ws[1..]);
      var hi :| k <= hi <= |t| && LineFree(t, k, hi) && InOrderIn(t, k, hi, ws[1..]);
      InOrderWiden(t, k, e, hi, ws[1..]);
      assert InOrderIn(t, i, hi, ws);
    }
  }

  /** Words in order inside a line-free span give a match starting inside the span. */
  lemma {:induction false} OneLineIsMatch(t: string, lo: int, hi: int, ws: seq<string>)
    requires 0 <= lo <= hi <= |t| && ws != []
    requires LineFree(t, lo, hi) && InOrderIn(t, lo, hi, ws)
    ensures exists p | lo <= p <= hi :: MatchesAt(t, p, ws)
    decreases |ws|
  {
    var i :| lo <= i && i + |ws[0]| <= hi && OccursAt(t, ws[0], i) && InOrderIn(t, i + |ws[0]|, hi, ws[1..]);
    if |ws| > 1 {
      var e := i + |ws[0]|;
      OneLineIsMatch(t, e, hi, ws[1..]);
      var k :| e <= k <= hi && MatchesAt(t, k, ws[1..]);
      assert LineFree(t, e, k);
      assert MatchesAt(t, i, ws);
    } else {
      assert MatchesAt(t, i, ws);
    }
  }

  /** The regular expression's test agrees with its plain reading, in both directions,
      for any non-empty list of words that themselves contain no line break. */
  lemma RegexTestMeansWordsInOneLine(text: string, ws: seq<string>)
    requires ws != [] && WordsWithoutBreaks(ws)
    ensures RegexTest(text, ws) <==> WordsInOneLine(text, ws)
  {
    var t := Lower(text);
    if RegexTest(text, ws) {
      var p :| 0 <= p <= |t| && MatchesAt(t, p, ws);
      MatchIsInOneLine(t, p, ws);
      var hi :| p <= hi <= |t| && LineFree(t, p, hi) && InOrderIn(t, p, hi, ws);
      assert WordsInOneLine(text, ws);
    }
    if WordsInOneLine(text, ws) {
      var lo, hi :| 0 <= lo <= hi <= |t| && LineFree(t, lo, hi) && InOrderIn(t, lo, hi, ws);
      OneLineIsMatch(t, lo, hi, ws);
    }
  }

  /** `/landlord.*enter.*without.*notice/i` */
  const NoticeWords: seq<string> := ["landlord", "enter", "without", "notice"]

  /** The alternatives of `(more than|exceed|over)` in `/late fee.*(more than|exceed|over)/i`. */
  const LateFeeAlternatives: seq<string> := ["more than", "exceed", "over"]

  predicate NoticePatternTest(text: string) {
    RegexTest(text, NoticeWords)
  }

  predicate LateFeePatternTest(text: string) {
    exists a | a in LateFeeAlternatives :: RegexTest(text, ["late fee", a])
  }

  /** Both patterns are the same as "the words appear in this order on one line", with
      letter case ignored. */
  lemma PatternsReadPlainly(text: string)
    ensures NoticePatternTest(text) <==> WordsInOneLine(text, NoticeWords)
    ensures LateFeePatternTest(text) <==>
      (exists a | a in LateFeeAlternatives :: WordsInOneLine(text, ["late fee", a]))
  {
    RegexTestMeansWordsInOneLine(text, NoticeWords);
    forall a | a in LateFeeAlternatives
      ensures RegexTest(text, ["late fee", a]) <==> WordsInOneLine(text, ["late fee", a])
    {
      RegexTestMeansWordsInOneLine(text, ["late fee", a]);
    }
  }

  // ---------------------------------------------------------------- analyzeLeaseByState

  datatype NoticeToEnterRule = NoticeToEnterRule(minimumNotice: string, exceptions: seq<string>)

  datatype LateFeesRule = LateFeesRule(
    maxAllowed: Option<string>, gracePeriod: Option<string>,
    mustBeReasonable: Option<bool>, notDefinedInStatute: Option<bool>)

  /** One state's entry in `rightsRules.json`. */
  datatype StateRightsRules = StateRightsRules(noticeToEnter: Option<NoticeToEnterRule>, lateFees: Option<LateFeesRule>)

  const RulesUnavailableMessage := "\U{26A0}\U{FE0F} Unable to load tenant rights rules at this time."

  function NoRightsDataMessage(state: string): string {
    "\U{26A0}\U{FE0F} No rights data available for " + state + "."
  }

  function NoticeViolationMessage(minimumNotice: string): string {
    "\U{274C} Entry without notice violates " + minimumNotice + " rule."
  }

  function LateFeeWarningMessage(maxAllowed: string): string {
    "\U{26A0}\U{FE0F} Late fee clause may exceed " + maxAllowed + " limit."
  }

  /** The notice rule applies: the state has a `noticeToEnter` rule and the pattern matches. */
  predicate NoticeFlagged(rules: StateRightsRules, leaseText: string) {
    rules.noticeToEnter.Some? && NoticePatternTest(leaseText)
  }

  /** `stateRules.lateFees?.maxAllowed` is truthy (a non-empty string) and the pattern matches. */
  predicate LateFeeFlagged(rules: StateRightsRules, leaseText: string) {
    && rules.lateFees.Some? && rules.lateFees.value.maxAllowed.Some?
    && rules.lateFees.value.maxAllowed.value != ""
    && LateFeePatternTest(leaseText)
  }

  /** `analyzeLeaseByState(leaseText, state)`, where `rules` is the parsed rules file or
      `None` when reading or parsing it failed. The notice message, when present, comes
      before the late-fee message, and there are never more than two. */
  method AnalyzeLeaseByState(rules: Option<map<string, StateRightsRules>>, leaseText: string, state: string)
    returns (results: seq<string>)
    ensures rules.None? ==> results == [RulesUnavailableMessage]
    ensures rules.Some? && state !in rules.value ==> results == [NoRightsDataMessage(state)]
    ensures rules.Some? && state in rules.value ==>
      var r := rules.value[state];
      && |results| == (if NoticeFlagged(r, leaseText) then 1 else 0) + (if LateFeeFlagged(r, leaseText) then 1 else 0)
      && (NoticeFlagged(r, leaseText) ==> results[0] == NoticeViolationMessage(r.noticeToEnter.value.minimumNotice))
      && (LateFeeFlagged(r, leaseText) ==> results[|results| - 1] == LateFeeWarningMessage(r.lateFees.value.maxAllowed.value))
  {
    if rules.None? {
      return [RulesUnavailableMessage];
    }
    results := [];
    if state !in rules.value {
      results := results + [NoRightsDataMessage(state)];
      return;
    }
    var stateRules := rules.value[state];
    if stateRules.noticeToEnter.Some? {
      if NoticePatternTest(leaseText) {
        results := results + [NoticeViolationMessage(stateRules.noticeToEnter.value.minimumNotice)];
      }
    }
    if stateRules.lateFees.Some? && stateRules.lateFees.value.maxAllowed.Some?
       && stateRules.lateFees.value.maxAllowed.value != "" {
      if LateFeePatternTest(leaseText) {
        results := results + [LateFeeWarningMessage(stateRules.lateFees.value.maxAllowed.value)];
      }
    }
  }

  // ---------------------------------------------------------------- fetchOpenStatesBills

  /** `bill.sources?.[0]?.url`: a string, or anything else (absent list, absent first
      entry, absent or non-string url). */
  datatype UrlField = UrlText(url: string) | NotText

  /** One element of `data.results`, reduced to the fields the mapping reads. */
  datatype RawBill = RawBill(title: string, updatedAt: string, firstSourceUrl: UrlField)

  /** The record the server returns. */
  datatype TenantRightsBill = TenantRightsBill(title: string, link: string, updated: string)

  /** One element of `data.results`: `null`, a primitive (a number, string or boolean,
      which has no `sources`), or an object. */
  datatype ResultItem = NullItem | PrimitiveItem | ObjectItem(bill: RawBill)

  /** What the search request produced: it threw, answered with a non-OK status, or
      answered with a body whose `results` is a list (`Some`) or not (`None`). */
  datatype BillsReply = FetchThrew | NotOk | Received(results: Option<seq<ResultItem>>)

  /** `typeof url === 'string' && url.startsWith('http') ? url : null` */
  function Link(u: UrlField): (link: Option<string>)
    ensures link.Some? <==> u.UrlText? && IsPrefix("http", u.url)
    ensures link.Some? ==> link.value == u.url
  {
    if u.UrlText? && IsPrefix("http", u.url) then Some(u.url) else None
  }

  /** The `.map(...).filter(bill => bill.link !== null)` chain over non-null bills. */
  function KeepLinked(bills: seq<RawBill>): (kept: seq<TenantRightsBill>)
    ensures |kept| <= |bills|
    ensures forall b | b in kept :: IsPrefix("http", b.link)
  {
    if bills == [] then []
    else
      var b := bills[0];
      (match Link(b.firstSourceUrl)
       case Some(link) => [TenantRightsBill(b.title, link, b.updatedAt)]
       case None => [])
      + KeepLinked(bills[1..])
  }

  /** The filter works bill by bill, so input order is kept. */
  lemma {:induction false} KeepLinkedAppend(a: seq<RawBill>, b: seq<RawBill>)
    ensures KeepLinked(a + b) == KeepLinked(a) + KeepLinked(b)
  {
    if a == [] {
      assert a + b == b;
    } else {
      assert (a + b)[1..] == a[1..] + b;
      KeepLinkedAppend(a[1..], b);
    }
  }

  /** A bill is kept, with its title, link and date copied, exactly when its first
      source url is a string starting with `http`. */
  lemma {:induction false} KeptExactlyLinked(bills: seq<RawBill>, out: TenantRightsBill)
    ensures out in KeepLinked(bills) <==>
      exists b | b in bills :: Link(b.firstSourceUrl) == Some(out.link)
                               && out == TenantRightsBill(b.title, out.link, b.updatedAt)
  {
    if bills != [] {
      KeptExactlyLinked(bills[1..], out);
      assert forall b | b in bills :: b == bills[0] || b in bills[1..];
    }
  }

  /** When every bill has a web link, each one is kept, in its place, with its title,
      link and date copied. */
  lemma {:induction false} KeepLinkedAllLinked(bills: seq<RawBill>)
    requires forall b | b in bills :: Link(b.firstSourceUrl).Some?
    ensures |KeepLinked(bills)| == |bills|
    ensures forall i | 0 <= i < |bills| ::
      && bills[i].firstSourceUrl.UrlText?
      && KeepLinked(bills)[i] == TenantRightsBill(bills[i].title, bills[i].firstSourceUrl.url, bills[i].updatedAt)
  {
    if bills != [] {
      assert bills[0] in bills;
      assert forall b | b in bills[1..] :: b in bills;
      KeepLinkedAllLinked(bills[1..]);
      var rest := KeepLinked(bills[1..]);
      var b := bills[0];
      assert KeepLinked(bills) == [TenantRightsBill(b.title, b.firstSourceUrl.url, b.updatedAt)] + rest;
      forall i | 1 <= i < |bills|
        ensures && bills[i].firstSourceUrl.UrlText?
                && KeepLinked(bills)[i] == TenantRightsBill(bills[i].title, bills[i].firstSourceUrl.url, bills[i].updatedAt)
      {
        assert bills[i] == bills[1..][i - 1];
      }
    }
  }

  /** What the `map` callback reads from an element that is not `null`; a primitive has
      no `sources`, so its url is never text. */
  function AsRawBill(item: ResultItem): (b: RawBill)
    requires !item.NullItem?
    ensures item.ObjectItem? ==> b == item.bill
    ensures item.PrimitiveItem? ==> Link(b.firstSourceUrl).None?
  {
    if item.ObjectItem? then item.bill else RawBill("", "", NotText)
  }

  function NoNull(results: seq<ResultItem>): (ok: bool)
    ensures ok <==> forall x | x in results :: !x.NullItem?
  {
    forall i | 0 <= i < |results| :: !results[i].NullItem?
  }

  /** The elements as the `map` callback reads them, in order. */
  function Mapped(results: seq<ResultItem>): (bills: seq<RawBill>)
    requires forall x | x in results :: !x.NullItem?
    ensures |bills| == |results| && forall i | 0 <= i < |results| :: bills[i] == AsRawBill(results[i])
  {
    seq(|results|, i requires 0 <= i < |results| => AsRawBill(results[i]))
  }

  /** A primitive element never yields a bill: the result is made of the object
      elements with a web link. */
  lemma PrimitivesYieldNothing(results: seq<ResultItem>, out: TenantRightsBill)
    requires forall x | x in results :: !x.NullItem?
    ensures out in KeepLinked(Mapped(results)) <==>
      exists i | 0 <= i < |results| :: results[i].ObjectItem?
        && Link(results[i].bill.firstSourceUrl) == Some(out.link)
        && out == TenantRightsBill(results[i].bill.title, out.link, results[i].bill.updatedAt)
  {
    var bills := Mapped(results);
    KeptExactlyLinked(bills, out);
    if out in KeepLinked(bills) {
      var b :| b in bills && Link(b.firstSourceUrl) == Some(out.link)
               && out == TenantRightsBill(b.title, out.link, b.updatedAt);
      var i :| 0 <= i < |bills| && bills[i] == b;
      assert results[i].ObjectItem?;
    }
  }

  /** `fetchOpenStatesBills(state)` given `getJurisdictionSlug(state)` (`None` for an
      unsupported state) and what the search request produced. Every failure, including a
      `null` element or a `results` that is not a list (both throw inside the `try`),
      gives the empty list; otherwise the elements are mapped and filtered by
      `KeepLinked`. */
  function FetchOpenStatesBills(jurisdiction: Option<string>, reply: BillsReply): (bills: seq<TenantRightsBill>)
    ensures jurisdiction.None? || jurisdiction == Some("") ==> bills == []
    ensures reply.FetchThrew? || reply.NotOk? ==> bills == []
    ensures reply.Received? && (reply.results.None? || !NoNull(reply.results.value)) ==> bills == []
    ensures (jurisdiction.Some? && jurisdiction.value != "" && reply.Received? && reply.results.Some?
             && NoNull(reply.results.value)) ==> bills == KeepLinked(Mapped(reply.results.value))
    ensures forall b | b in bills :: IsPrefix("http", b.link)
  {
    if jurisdiction.None? || jurisdiction.value == "" then []
    else
      match reply
      case FetchThrew => []
      case NotOk => []
      case Received(results) =>
        if results.None? || !NoNull(results.value) then [] else KeepLinked(Mapped(results.value))
  }
}
