/** The tenant-rights panel: the numbered list of concerns with their React keys, the
    list of recent bills, and the link to the state's HUD page. */
module TenantRightsPanel {
  import opened JsText
  import opened Outcomes
  import RightsStore
  import HudLinks

  // ---------------------------------------------------------------- keys

  /** `generateKey(category, issue)`: a key never holds a capital letter. */
  function GenerateKey(category: string, issue: string): (key: string)
    ensures Lower(key) == key
  {
    var c, i := Lower(Trim(category)), Lower(Trim(issue));
    LowerIdempotent(Trim(category));
    LowerIdempotent(Trim(issue));
    JoinKeepsLower(c, i);
    c + "::" + i
  }

  /** Joining two lower-case texts with `::` gives a lower-case text. */
  lemma JoinKeepsLower(a: string, b: string)
    requires Lower(a) == a && Lower(b) == b
    ensures Lower(a + "::" + b) == a + "::" + b
  {
    var k := a + "::" + b;
    forall j | 0 <= j < |k| ensures Lower(k)[j] == k[j] {
      if j < |a| {
        assert k[j] == a[j] && Lower(a)[j] == LowerChar(a[j]);
      } else if j >= |a| + 2 {
        var m := j - |a| - 2;
        assert k[j] == b[m] && Lower(b)[m] == LowerChar(b[m]);
      }
    }
  }

  /** White space around either part and its letter case never change the key. */
  lemma GenerateKeyIgnoresPaddingAndCase(c: string, i: string, pre: string, post: string)
    requires AllSpace(pre) && AllSpace(post)
    ensures GenerateKey(pre + c + post, pre + i + post) == GenerateKey(c, i)
    ensures GenerateKey(Lower(c), Lower(i)) == GenerateKey(c, i)
  {
    TrimIgnoresPadding(pre, c, post);
    TrimIgnoresPadding(pre, i, post);
    LowerTrimCommute(c);
    LowerTrimCommute(i);
    LowerIdempotent(Trim(c));
    LowerIdempotent(Trim(i));
  }

  /** `` `${generateKey(category, issue)}-${index}` `` */
  function ItemKey(category: string, issue: string, index: nat): string {
    GenerateKey(category, issue) + "-" + Decimal(index)
  }

  /** The index can be read back from a key: it is the text after the key's last `-`,
      because the decimal numeral has no `-` in it. */
  lemma {:induction false} SameKeySameIndex(c1: string, i1: string, n1: nat, c2: string, i2: string, n2: nat)
    requires ItemKey(c1, i1, n1) == ItemKey(c2, i2, n2)
    ensures n1 == n2
  {
    var s := ItemKey(c1, i1, n1);
    var d1, d2 := Decimal(n1), Decimal(n2);
    var k1, k2 := GenerateKey(c1, i1) + "-", GenerateKey(c2, i2) + "-";
    assert s == k1 + d1 && s == k2 + d2;
    assert s[|s| - |d1| - 1] == '-' by { assert s[|k1| - 1] == k1[|k1| - 1]; }
    assert s[|s| - |d2| - 1] == '-' by { assert s[|k2| - 1] == k2[|k2| - 1]; }
    forall m | |s| - |d1| <= m < |s| ensures s[m] != '-' {
      assert s[m] == d1[m - |k1|];
    }
    forall m | |s| - |d2| <= m < |s| ensures s[m] != '-' {
      assert s[m] == d2[m - |k2|];
    }
    assert |d1| == |d2|;
    assert d1 == s[|k1|..] == d2;
    DecimalInjective(n1, n2);
  }

  /** Items at different positions always get different keys, whatever their texts. */
  lemma DistinctIndicesDistinctKeys(c1: string, i1: string, n1: nat, c2: string, i2: string, n2: nat)
    requires n1 != n2
    ensures ItemKey(c1, i1, n1) != ItemKey(c2, i2, n2)
  {
    if ItemKey(c1, i1, n1) == ItemKey(c2, i2, n2) {
      SameKeySameIndex(c1, i1, n1, c2, i2, n2);
    }
  }

  // ---------------------------------------------------------------- the concerns list

  /** An analysis item as the panel reads it: `category` and `issue` may be missing. */
  datatype Item = Item(category: Option<string>, issue: Option<string>)

  function FromConcern(c: RightsStore.Concern): Item {
    Item(Some(c.category), Some(c.issue))
  }

  /** `String(field || '').trim()`: a missing or empty field shows as "". */
  function ShownText(field: Option<string>): (t: string)
    ensures field.None? ==> t == ""
    ensures field.Some? ==> t == Trim(field.value)
  {
    if field.Some? && field.value != "" then Trim(field.value) else ""
  }

  /** One `<li>`: its key, its number, and the two texts shown. */
  datatype ItemView = ItemView(key: string, number: nat, category: string, issue: string)

  /** The rendered list: one entry per item, in array order, numbered from 1, with keys
      that are pairwise distinct. */
  function ConcernList(items: seq<Item>): (views: seq<ItemView>)
    ensures |views| == |items|
    ensures forall k | 0 <= k < |items| ::
      && views[k].number == k + 1
      && views[k].category == ShownText(items[k].category)
      && views[k].issue == ShownText(items[k].issue)
      && views[k].key == ItemKey(views[k].category, views[k].issue, k)
    ensures forall j, k | 0 <= j < k < |views| :: views[j].key != views[k].key
  {
    var views := seq(|items|, k requires 0 <= k < |items| =>
      var category := ShownText(items[k].category);
      var issue := ShownText(items[k].issue);
      ItemView(ItemKey(category, issue, k), k + 1, category, issue));
    forall j, k | 0 <= j < k < |views| ensures views[j].key != views[k].key {
      DistinctIndicesDistinctKeys(views[j].category, views[j].issue, j, views[k].category, views[k].issue, k);
    }
    views
  }

  // ---------------------------------------------------------------- the bills list

  /** One bill `<li>`: keyed and linked by the bill's link, with the date's first ten
      characters. */
  datatype BillView = BillView(link: string, title: string, date: string)

  /** The rendered bills: bills with an empty link are skipped, the rest keep their order. */
  function BillList(bills: seq<RightsStore.Bill>): (views: seq<BillView>)
    ensures |views| <= |bills|
    ensures forall v | v in views :: v.link != "" && |v.date| <= 10
    ensures forall b | b in bills && b.link != "" :: BillView(b.link, b.title, SliceTo(b.updated, 10)) in views
    ensures forall v | v in views :: exists b | b in bills :: b.link == v.link && b.title == v.title && v.date == SliceTo(b.updated, 10)
  {
    if bills == [] then []
    else
      var b := bills[0];
      var rest := BillList(bills[1..]);
      assert forall x | x in bills[1..] :: x in bills;
      if b.link != "" then [BillView(b.link, b.title, SliceTo(b.updated, 10))] + rest else rest
  }

  /** The filter keeps the array's order. */
  lemma {:induction false} BillListAppend(a: seq<RightsStore.Bill>, b: seq<RightsStore.Bill>)
    ensures BillList(a + b) == BillList(a) + BillList(b)
  {
    if a == [] {
      assert a + b == b;
    } else {
      assert (a + b)[1..] == a[1..] + b;
      BillListAppend(a[1..], b);
    }
  }

  /** The bills section: the list whenever the store has any bill, even when every one
      of them is skipped, and the placeholder only for an empty array. */
  datatype BillsSection = Bills(views: seq<BillView>) | NoBills(message: string)

  function BillsSectionOf(bills: seq<RightsStore.Bill>, state: string): (s: BillsSection)
    ensures s.NoBills? <==> bills == []
    ensures s.NoBills? ==> s.message == "No relevant bills found for " + state + "."
    ensures s.Bills? ==> s.views == BillList(bills)
  {
    if |bills| > 0 then Bills(BillList(bills)) else NoBills("No relevant bills found for " + state + ".")
  }

  /** Bills none of which has a link render no entries at all. */
  lemma {:induction false} LinklessBillsRenderNothing(bills: seq<RightsStore.Bill>)
    requires forall b | b in bills :: b.link == ""
    ensures BillList(bills) == []
  {
    if bills != [] {
      assert bills[0] in bills;
      assert forall x | x in bills[1..] :: x in bills;
      LinklessBillsRenderNothing(bills[1..]);
    }
  }

  /** A non-empty bill array whose links are all empty renders an empty list, not the
      placeholder. */
  lemma LinklessBillsRenderEmptyList(bills: seq<RightsStore.Bill>, state: string)
    requires bills != [] && forall b | b in bills :: b.link == ""
    ensures BillsSectionOf(bills, state) == Bills([])
  {
    LinklessBillsRenderNothing(bills);
  }

  // ---------------------------------------------------------------- the panel

  const NoConcernsText := "No concerns detected in this lease."

  datatype ConcernsSection = Concerns(views: seq<ItemView>) | NoConcerns(message: string)

  /** `TenantRightsPanel({ state })` with the store's `analysis` and `bills`. */
  datatype PanelView = PanelView(concerns: ConcernsSection, bills: BillsSection, hudLink: string, hudCaption: string)

  function Panel(state: string, analysis: seq<Item>, bills: seq<RightsStore.Bill>): (v: PanelView)
    ensures v.concerns.NoConcerns? <==> analysis == []
    ensures v.concerns.NoConcerns? ==> v.concerns.message == NoConcernsText
    ensures v.concerns.Concerns? ==> v.concerns.views == ConcernList(analysis)
    ensures v.bills == BillsSectionOf(bills, state)
    ensures v.hudLink == HudLinks.GetHudLinkByState(state) && v.hudLink != ""
    ensures v.hudCaption == "View official HUD tenant rights for " + state
  {
    PanelView(
      if |analysis| > 0 then Concerns(ConcernList(analysis)) else NoConcerns(NoConcernsText),
      BillsSectionOf(bills, state),
      HudLinks.GetHudLinkByState(state),
      "View official HUD tenant rights for " + state)
  }
}
