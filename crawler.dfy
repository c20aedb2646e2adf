/**
 * The crawler's run (crawler.py): the paginated catalog fetch, the in-place
 * assignment of prints and market caps, the per-set total, and `main`'s loop
 * over the configured sets with its guard on the prints data.
 *
 * The catalog service is a finite sequence of page responses, the prints
 * data an optional map (None when the file does not exist), and the
 * EUR->USD rate a parameter.
 */
module Crawler {
  import opened Wrappers
  import opened Numbers
  import opened Text
  import opened CardFields

  /** One response of the catalog's search endpoint. */
  datatype Page = Page(ok: bool, data: seq<RawCard>, hasMore: bool, nextPage: Option<string>)

  /** After this page the loop requests another: `has_more` is set and `next_page` is a non-empty URL. */
  predicate FollowsOn(p: Page) {
    p.hasMore && Truthy(p.nextPage)
  }

  /** The records the fetch loop keeps, in order, when the service answers with `pages`. */
  function Collected(pages: seq<Page>): seq<RawCard>
    decreases |pages|
  {
    if pages == [] || !pages[0].ok then []
    else pages[0].data + (if FollowsOn(pages[0]) then Collected(pages[1..]) else [])
  }

  /** The records of all pages, in order, with no stopping rule. */
  function ConcatData(pages: seq<Page>): seq<RawCard>
    decreases |pages|
  {
    if pages == [] then [] else pages[0].data + ConcatData(pages[1..])
  }

  /** The kept records are a prefix of all the records the service sent. */
  lemma {:induction false} CollectedIsPrefix(pages: seq<Page>)
    ensures |Collected(pages)| <= |ConcatData(pages)|
    ensures Collected(pages) == ConcatData(pages)[..|Collected(pages)|]
    decreases |pages|
  {
    if pages != [] && pages[0].ok && FollowsOn(pages[0]) {
      CollectedIsPrefix(pages[1..]);
    }
  }

  /**
   * The loop stops after reading `n` pages: those are all successful, all but
   * the last ask for more, and the loop ends there because the responses run
   * out, page `n` fails, or page `n - 1` asks for no more.
   */
  predicate StopsAfter(pages: seq<Page>, n: nat) {
    n <= |pages|
    && (forall i :: 0 <= i < n ==> pages[i].ok)
    && (forall i :: 0 <= i < n - 1 ==> FollowsOn(pages[i]))
    && (n < |pages| ==> !pages[n].ok || (n > 0 && !FollowsOn(pages[n - 1])))
  }

  /** The fetched card list is the concatenation of the pages read before the loop stopped. */
  lemma {:induction false} CollectedIsConcatOfReadPages(pages: seq<Page>, n: nat)
    requires StopsAfter(pages, n)
    ensures Collected(pages) == ConcatData(pages[..n])
    decreases |pages|
  {
    if n == 0 {
      assert pages == [] || !pages[0].ok;
    } else {
      assert pages[..n] == [pages[0]] + pages[1..][..n - 1];
      if n == 1 {
        assert pages[1..][..0] == [];
        if FollowsOn(pages[0]) {
          assert |pages| == 1 || !pages[1].ok;
          assert Collected(pages[1..]) == [];
        }
      } else {
        assert StopsAfter(pages[1..], n - 1);
        CollectedIsConcatOfReadPages(pages[1..], n - 1);
      }
    }
  }

  /** The loop always stops after some number of pages. */
  lemma {:induction false} LoopStops(pages: seq<Page>)
    ensures exists n: nat :: StopsAfter(pages, n)
    decreases |pages|
  {
    if pages == [] || !pages[0].ok || !FollowsOn(pages[0]) {
      assert StopsAfter(pages, if pages == [] || !pages[0].ok then 0 else 1);
    } else {
      LoopStops(pages[1..]);
      var m: nat :| StopsAfter(pages[1..], m);
      assert StopsAfter(pages, m + 1);
    }
  }

  /** Responses after the loop has stopped make no difference; in particular a failed page keeps what came before it. */
  lemma {:induction false} CollectedIgnoresLaterPages(pages: seq<Page>, more: seq<Page>)
    requires exists n: nat :: n < |pages| && StopsAfter(pages, n)
    ensures Collected(pages + more) == Collected(pages)
    decreases |pages|
  {
    var n: nat :| n < |pages| && StopsAfter(pages, n);
    assert (pages + more)[0] == pages[0];
    if n > 0 && pages[0].ok && FollowsOn(pages[0]) {
      assert (pages + more)[1..] == pages[1..] + more;
      assert n - 1 < |pages[1..]| && StopsAfter(pages[1..], n - 1);
      CollectedIgnoresLaterPages(pages[1..], more);
    }
  }

  /** The fetched records so far are always a prefix of what further responses yield. */
  lemma {:induction false} CollectedPrefix(pages: seq<Page>, more: seq<Page>)
    ensures Collected(pages) <= Collected(pages + more)
    decreases |pages|
  {
    if pages != [] {
      assert (pages + more)[0] == pages[0];
      assert (pages + more)[1..] == pages[1..] + more;
      CollectedPrefix(pages[1..], more);
    }
  }

  /** Three pages, the second failing: only the first page's records are kept. */
  lemma SecondPageFails(p1: Page, p2: Page, p3: Page)
    requires p1.ok && FollowsOn(p1) && !p2.ok
    ensures Collected([p1, p2, p3]) == p1.data
  {
    assert [p1, p2, p3][1..] == [p2, p3];
  }

  /** The flat cards for a list of records, in the same order. */
  function NormalizeAll(records: seq<RawCard>, setCode: string, rate: real): (fs: seq<FlatCard>)
    ensures |fs| == |records|
    decreases |records|
  {
    if records == [] then [] else [Normalize(records[0], setCode, rate)] + NormalizeAll(records[1..], setCode, rate)
  }

  /** The i-th flat card is the i-th record normalised. */
  lemma {:induction false} NormalizeAllAt(records: seq<RawCard>, setCode: string, rate: real, i: nat)
    requires i < |records|
    ensures NormalizeAll(records, setCode, rate)[i] == Normalize(records[i], setCode, rate)
    decreases i
  {
    if i > 0 {
      NormalizeAllAt(records[1..], setCode, rate, i - 1);
    }
  }

  /** Normalising a concatenation normalises each part. */
  lemma {:induction false} NormalizeAllAppend(a: seq<RawCard>, b: seq<RawCard>, setCode: string, rate: real)
    ensures NormalizeAll(a + b, setCode, rate) == NormalizeAll(a, setCode, rate) + NormalizeAll(b, setCode, rate)
    decreases |a|
  {
    if a == [] {
      assert a + b == b;
    } else {
      assert (a + b)[0] == a[0];
      assert (a + b)[1..] == a[1..] + b;
      NormalizeAllAppend(a[1..], b, setCode, rate);
    }
  }

  /** The cards the crawler fetches for a set before market caps are assigned. */
  function FetchedCards(pages: seq<Page>, setCode: string, rate: real): seq<FlatCard> {
    NormalizeAll(Collected(pages), setCode, rate)
  }

  /** The contents of one card dictionary. */
  datatype CardState = CardState(fields: FlatCard, prints: Option<int>, marketCap: string)

  /**
   * One card dictionary. The crawler writes `prints` and `market_cap` into it
   * after the fetch; before that they are absent, which the CSV writer treats
   * like "" (None for prints, "" for market_cap here).
   */
  class Card {
    var name: string
    var collectorNumber: string
    var usd: Option<string>
    var rarity: string
    var thumbnail: string
    var prints: Option<int>
    var marketCap: string

    /** The five fields the fetch fills in. */
    function Fields(): FlatCard
      reads this
    {
      FlatCard(name, collectorNumber, usd, rarity, thumbnail)
    }

    function State(): CardState
      reads this
    {
      CardState(Fields(), prints, marketCap)
    }

    constructor (f: FlatCard)
      ensures State() == CardState(f, None, "")
    {
      name, collectorNumber, usd, rarity, thumbnail := f.name, f.collectorNumber, f.usd, f.rarity, f.thumbnail;
      prints, marketCap := None, "";
    }
  }

  /** The base URL of the first request; the later ones come from `next_page`. */
  const SearchUrl: string := "https://api.scryfall.com/cards/search"

  /** `cards` hold exactly the flat cards `flat`, one each, with no prints and no market cap yet. */
  predicate HoldsFetched(cards: seq<Card>, flat: seq<FlatCard>)
    reads cards
  {
    |cards| == |flat| && forall i :: 0 <= i < |cards| ==> cards[i].State() == CardState(flat[i], None, "")
  }

  /** The inner loop of the fetch: one new card per record of a page, in order. */
  method NewCards(records: seq<RawCard>, setCode: string, rate: real) returns (cards: seq<Card>)
    ensures forall i :: 0 <= i < |cards| ==> fresh(cards[i])
    ensures HoldsFetched(cards, NormalizeAll(records, setCode, rate))
  {
    cards := [];
    for j := 0 to |records|
      invariant |cards| == j
      invariant forall i :: 0 <= i < j ==> fresh(cards[i])
      invariant forall i :: 0 <= i < j ==> cards[i].State() == CardState(Normalize(records[i], setCode, rate), None, "")
    {
      var card := new Card(Normalize(records[j], setCode, rate));
      cards := cards + [card];
    }
    forall i | 0 <= i < |records|
      ensures cards[i].State() == CardState(NormalizeAll(records, setCode, rate)[i], None, "")
    {
      NormalizeAllAt(records, setCode, rate, i);
    }
  }

  lemma HoldsFetchedAppend(a: seq<Card>, ra: seq<RawCard>, b: seq<Card>, rb: seq<RawCard>, setCode: string, rate: real)
    requires HoldsFetched(a, NormalizeAll(ra, setCode, rate)) && HoldsFetched(b, NormalizeAll(rb, setCode, rate))
    ensures HoldsFetched(a + b, NormalizeAll(ra + rb, setCode, rate))
  {
    NormalizeAllAppend(ra, rb, setCode, rate);
    var fa, fb := NormalizeAll(ra, setCode, rate), NormalizeAll(rb, setCode, rate);
    forall i | 0 <= i < |a + b|
      ensures (a + b)[i].State() == CardState((fa + fb)[i], None, "")
    {
      if i < |a| {
        assert (a + b)[i] == a[i] && (fa + fb)[i] == fa[i];
      } else {
        assert (a + b)[i] == b[i - |a|] && (fa + fb)[i] == fb[i - |a|];
      }
    }
  }

  /** The cards of set `setCode`, one per record of the successful pages, in catalog order. */
  method FetchScryfallCards(setCode: string, rate: real, pages: seq<Page>) returns (cards: seq<Card>)
    ensures forall i :: 0 <= i < |cards| ==> fresh(cards[i])
    ensures HoldsFetched(cards, FetchedCards(pages, setCode, rate))
  {
    cards := [];
    ghost var kept: seq<RawCard> := [];
    var url: Option<string> := Some(SearchUrl);
    var k := 0;
    while Truthy(url) && k < |pages|
      invariant 0 <= k <= |pages|
      invariant forall i :: 0 <= i < |cards| ==> fresh(cards[i])
      invariant HoldsFetched(cards, NormalizeAll(kept, setCode, rate))
      invariant Truthy(url) ==> Collected(pages) == kept + Collected(pages[k..])
      invariant !Truthy(url) ==> Collected(pages) == kept
      decreases |pages| - k
    {
      var resp := pages[k];
      if !resp.ok {
        FailedPageStops(pages, k, kept);
        break;
      }
      if FollowsOn(resp) {
        PageGoesOn(pages, k, kept);
      } else {
        LastPage(pages, k, kept);
      }
      var pageCards := NewCards(resp.data, setCode, rate);
      HoldsFetchedAppend(cards, kept, pageCards, resp.data, setCode, rate);
      cards := cards + pageCards;
      kept := kept + resp.data;
      url := if resp.hasMore then resp.nextPage else None;
      k := k + 1;
    }
    if k == |pages| && Truthy(url) {
      assert pages[k..] == [];
    }
    assert Collected(pages) == kept;
  }

  /** One step of the fetch loop: a failed page ends it, keeping what came before. */
  lemma FailedPageStops(pages: seq<Page>, k: nat, kept: seq<RawCard>)
    requires k < |pages| && !pages[k].ok
    requires Collected(pages) == kept + Collected(pages[k..])
    ensures Collected(pages) == kept
  {
    CollectedFrom(pages, k);
    assert kept + [] == kept;
  }

  /** One step of the fetch loop: a page asking for more adds its records and goes on. */
  lemma PageGoesOn(pages: seq<Page>, k: nat, kept: seq<RawCard>)
    requires k < |pages| && pages[k].ok && FollowsOn(pages[k])
    requires Collected(pages) == kept + Collected(pages[k..])
    ensures Collected(pages) == (kept + pages[k].data) + Collected(pages[k + 1..])
  {
    CollectedFrom(pages, k);
    var data, later := pages[k].data, Collected(pages[k + 1..]);
    assert kept + (data + later) == (kept + data) + later;
  }

  /** One step of the fetch loop: a last page adds its records and ends it. */
  lemma LastPage(pages: seq<Page>, k: nat, kept: seq<RawCard>)
    requires k < |pages| && pages[k].ok && !FollowsOn(pages[k])
    requires Collected(pages) == kept + Collected(pages[k..])
    ensures Collected(pages) == kept + pages[k].data
  {
    CollectedFrom(pages, k);
    assert pages[k].data + [] == pages[k].data;
  }

  /** One step of the fetch loop, read off `Collected`. */
  lemma CollectedFrom(pages: seq<Page>, k: nat)
    requires k < |pages|
    ensures !pages[k].ok ==> Collected(pages[k..]) == []
    ensures pages[k].ok ==>
      Collected(pages[k..]) == pages[k].data + (if FollowsOn(pages[k]) then Collected(pages[k + 1..]) else [])
  {
    assert pages[k..][0] == pages[k];
    assert pages[k..][1..] == pages[k + 1..];
  }

  /** What `compute_and_assign_market_cap` leaves in a card: prints from the supply table, and the market cap. */
  function WithMarketCap(f: FlatCard, supply: map<string, int>): (st: CardState)
    ensures st.fields == f
    ensures st.prints == SupplyFor(supply, f.rarity)
    ensures st.marketCap == MarketCap(f.usd, SupplyFor(supply, f.rarity))
  {
    CardState(f, SupplyFor(supply, f.rarity), MarketCap(f.usd, SupplyFor(supply, f.rarity)))
  }

  /**
   * Assigns `prints` and `market_cap` to every card of the list, in place, and
   * returns the same list. The other fields are left as they were.
   */
  method ComputeAndAssignMarketCap(cards: seq<Card>, supply: map<string, int>) returns (result: seq<Card>)
    modifies cards
    ensures result == cards
    ensures forall c :: c in cards ==> c.Fields() == old(c.Fields())
    ensures forall c :: c in cards ==> c.State() == WithMarketCap(c.Fields(), supply)
  {
    for i := 0 to |cards|
      invariant forall c :: c in cards ==> c.Fields() == old(c.Fields())
      invariant forall j :: 0 <= j < i ==> cards[j].State() == WithMarketCap(cards[j].Fields(), supply)
    {
      var card := cards[i];
      var supplyValue := SupplyFor(supply, card.rarity);
      var cap := MarketCap(card.usd, supplyValue);
      card.prints, card.marketCap := supplyValue, cap;
      assert card.State() == WithMarketCap(card.Fields(), supply);
    }
    result := cards;
  }

  /** What a market-cap field adds to the set total: its value when non-empty and parseable, else nothing. */
  function CapValue(mc: string): real {
    if mc != "" && ParseFloat(mc).Some? then ParseFloat(mc).value else 0.0
  }

  /** The running sum of the total loop, before rounding. */
  function SumCaps(caps: seq<string>): (total: real)
    ensures (forall i :: 0 <= i < |caps| ==> caps[i] == "") ==> total == 0.0
    decreases |caps|
  {
    if caps == [] then 0.0 else SumCaps(caps[..|caps| - 1]) + CapValue(caps[|caps| - 1])
  }

  /** The market caps that count towards the total, in order, as numbers. */
  function KnownCaps(caps: seq<string>): (vs: seq<real>)
    ensures |vs| <= |caps|
    decreases |caps|
  {
    if caps == [] then []
    else if caps[0] != "" && ParseFloat(caps[0]).Some? then [ParseFloat(caps[0]).value] + KnownCaps(caps[1..])
    else KnownCaps(caps[1..])
  }

  function Sum(vs: seq<real>): real
    decreases |vs|
  {
    if vs == [] then 0.0 else vs[0] + Sum(vs[1..])
  }

  lemma {:induction false} SumCapsConcat(a: seq<string>, b: seq<string>)
    ensures SumCaps(a + b) == SumCaps(a) + SumCaps(b)
    decreases |b|
  {
    if b == [] {
      assert a + b == a;
    } else {
      assert (a + b)[..|a + b| - 1] == a + b[..|b| - 1];
      SumCapsConcat(a, b[..|b| - 1]);
    }
  }

  /** The total is exactly the sum of the non-empty, parseable market caps. */
  lemma {:induction false} SumCapsIsSumOfKnown(caps: seq<string>)
    ensures SumCaps(caps) == Sum(KnownCaps(caps))
    decreases |caps|
  {
    if caps != [] {
      assert caps == [caps[0]] + caps[1..];
      SumCapsConcat([caps[0]], caps[1..]);
      assert SumCaps([caps[0]]) == CapValue(caps[0]) by {
        assert [caps[0]][..0] == [];
      }
      SumCapsIsSumOfKnown(caps[1..]);
    }
  }

  /** A card whose market cap is empty or unparseable, wherever it stands, leaves the total unchanged. */
  lemma UnknownCapAddsNothing(before: seq<string>, mc: string, after: seq<string>)
    requires mc == "" || ParseFloat(mc).None?
    ensures SumCaps(before + [mc] + after) == SumCaps(before + after)
  {
    SumCapsConcat(before + [mc], after);
    SumCapsConcat(before, after);
    assert (before + [mc])[..|before + [mc]| - 1] == before;
  }

  /** Market caps the crawler writes are whole cents, so rounding the total changes nothing. */
  lemma {:induction false} WellFormedCapsSumExactly(caps: seq<string>)
    requires forall i :: 0 <= i < |caps| ==> WellFormedCap(caps[i])
    ensures OnCentGrid(SumCaps(caps))
    ensures RoundTo2(SumCaps(caps)) == SumCaps(caps)
    decreases |caps|
  {
    if caps == [] {
      assert (0.0 * 100.0).Floor == 0;
    } else {
      WellFormedCapsSumExactly(caps[..|caps| - 1]);
      var last := caps[|caps| - 1];
      assert WellFormedCap(last);
      if last == "" {
        assert CapValue(last) == 0.0;
        assert SumCaps(caps) == SumCaps(caps[..|caps| - 1]);
      } else {
        SumOnGrid(SumCaps(caps[..|caps| - 1]), CapValue(last));
      }
    }
    RoundTo2OnGrid(SumCaps(caps));
  }

  /** The market-cap field of every card, in order. */
  function MarketCaps(cards: seq<Card>): (caps: seq<string>)
    reads cards
    ensures |caps| == |cards|
    ensures forall i :: 0 <= i < |cards| ==> caps[i] == cards[i].marketCap
  {
    seq(|cards|, i reads cards requires 0 <= i < |cards| => cards[i].marketCap)
  }

  /** The loop of `main` computing a set's total: the sum of the readable market caps, rounded to cents. */
  method SetTotalMarketCap(cards: seq<Card>) returns (total: real)
    ensures total == RoundTo2(SumCaps(MarketCaps(cards)))
  {
    var totalMc := 0.0;
    for i := 0 to |cards|
      invariant totalMc == SumCaps(MarketCaps(cards)[..i])
    {
      var mc := cards[i].marketCap;
      assert MarketCaps(cards)[..i + 1][..i] == MarketCaps(cards)[..i];
      if mc != "" {
        var value := ParseFloat(mc);
        if value.Some? {
          totalMc := totalMc + value.value;
        }
      }
    }
    assert MarketCaps(cards)[..|cards|] == MarketCaps(cards);
    total := RoundTo2(totalMc);
  }

  /** One set the crawler processes: its output name, its catalog code and its key in the prints data. */
  datatype SetConfig = SetConfig(setName: string, scryfallCode: string, printsKey: string)

  /** The three sets, in the order they are processed. */
  const SetsToFetch: seq<SetConfig> := [
    SetConfig("alpha", "lea", "Alpha"),
    SetConfig("beta", "leb", "Beta"),
    SetConfig("unlimited", "2ed", "Unlimited")
  ]

  /** The supply table of a set: its entry in the prints data, or the empty table when it has none. */
  function SupplyTable(prints: map<string, map<string, int>>, key: string): map<string, int> {
    if key in prints then prints[key] else map[]
  }

  /** The responses the catalog gives for a set code; an unknown code gives none. */
  function PagesFor(catalog: map<string, seq<Page>>, code: string): seq<Page> {
    if code in catalog then catalog[code] else []
  }

  /** The card states after fetching and assigning market caps, as values. */
  function AssignedStates(flat: seq<FlatCard>, supply: map<string, int>): (sts: seq<CardState>)
    ensures |sts| == |flat|
    ensures forall i :: 0 <= i < |flat| ==> sts[i] == WithMarketCap(flat[i], supply)
  {
    seq(|flat|, i requires 0 <= i < |flat| => WithMarketCap(flat[i], supply))
  }

  /** The cards the crawler produces for one set. */
  function SetStates(cfg: SetConfig, prints: map<string, map<string, int>>, rate: real, catalog: map<string, seq<Page>>): seq<CardState> {
    AssignedStates(FetchedCards(PagesFor(catalog, cfg.scryfallCode), cfg.scryfallCode, rate), SupplyTable(prints, cfg.printsKey))
  }

  function CapsOf(sts: seq<CardState>): (caps: seq<string>)
    ensures |caps| == |sts|
    ensures forall i :: 0 <= i < |sts| ==> caps[i] == sts[i].marketCap
  {
    seq(|sts|, i requires 0 <= i < |sts| => sts[i].marketCap)
  }

  /** The total market cap the crawler records for one set. */
  function SetTotal(cfg: SetConfig, prints: map<string, map<string, int>>, rate: real, catalog: map<string, seq<Page>>): real {
    RoundTo2(SumCaps(CapsOf(SetStates(cfg, prints, rate, catalog))))
  }

  function States(cards: seq<Card>): (sts: seq<CardState>)
    reads cards
    ensures |sts| == |cards|
    ensures forall i :: 0 <= i < |cards| ==> sts[i] == cards[i].State()
  {
    seq(|cards|, i reads cards requires 0 <= i < |cards| => cards[i].State())
  }

  /** What the crawler keeps for one set: its cards and its total market cap. */
  datatype SetResult = SetResult(setName: string, cards: seq<Card>, total: real)

  /** `r` is what the crawler keeps for set `cfg`: its name, its cards' states and its total. */
  predicate Produced(r: SetResult, cfg: SetConfig, prints: map<string, map<string, int>>, rate: real, catalog: map<string, seq<Page>>)
    reads r.cards
  {
    r.setName == cfg.setName
    && States(r.cards) == SetStates(cfg, prints, rate, catalog)
    && r.total == SetTotal(cfg, prints, rate, catalog)
  }

  /** One pass of the crawler's loop over the sets: fetch, assign market caps, total. */
  method ProcessSet(cfg: SetConfig, prints: map<string, map<string, int>>, rate: real, catalog: map<string, seq<Page>>)
    returns (result: SetResult)
    ensures forall i :: 0 <= i < |result.cards| ==> fresh(result.cards[i])
    ensures Produced(result, cfg, prints, rate, catalog)
  {
    var supply := SupplyTable(prints, cfg.printsKey);
    var cards := FetchScryfallCards(cfg.scryfallCode, rate, PagesFor(catalog, cfg.scryfallCode));
    cards := ComputeAndAssignMarketCap(cards, supply);
    assert States(cards) == SetStates(cfg, prints, rate, catalog);
    var total := SetTotalMarketCap(cards);
    assert MarketCaps(cards) == CapsOf(States(cards));
    result := SetResult(cfg.setName, cards, total);
  }

  /**
   * The crawler's main flow. Without prints data (`prints` is None) it stops
   * before fetching anything. Otherwise every set is fetched, given market
   * caps and totalled, in the order of `SetsToFetch`.
   */
  method RunCrawler(prints: Option<map<string, map<string, int>>>, rate: real, catalog: map<string, seq<Page>>)
    returns (results: Option<seq<SetResult>>)
    ensures prints.None? <==> results.None?
    ensures results.Some? ==> |results.value| == |SetsToFetch|
    ensures results.Some? ==> forall k :: 0 <= k < |SetsToFetch| ==>
      Produced(results.value[k], SetsToFetch[k], prints.value, rate, catalog)
  {
    if prints.None? {
      return None;
    }
    var all: seq<SetResult> := [];
    for k := 0 to |SetsToFetch|
      invariant |all| == k
      invariant forall m :: 0 <= m < k ==> Produced(all[m], SetsToFetch[m], prints.value, rate, catalog)
    {
      var r := ProcessSet(SetsToFetch[k], prints.value, rate, catalog);
      all := all + [r];
    }
    results := Some(all);
  }

  /** Every market cap the crawler assigns is well formed: empty or a whole number of cents. */
  lemma AssignedCapsWellFormed(flat: seq<FlatCard>, supply: map<string, int>)
    ensures forall i :: 0 <= i < |flat| ==> WellFormedCap(CapsOf(AssignedStates(flat, supply))[i])
  {
    forall i | 0 <= i < |flat|
      ensures WellFormedCap(CapsOf(AssignedStates(flat, supply))[i])
    {
      assert CapsOf(AssignedStates(flat, supply))[i] == MarketCap(flat[i].usd, SupplyFor(supply, flat[i].rarity));
    }
  }

  /** Rounding the set total is a no-op: it is exactly the sum of the known market caps. */
  lemma SetTotalIsExactSum(cfg: SetConfig, prints: map<string, map<string, int>>, rate: real, catalog: map<string, seq<Page>>)
    ensures SetTotal(cfg, prints, rate, catalog) == Sum(KnownCaps(CapsOf(SetStates(cfg, prints, rate, catalog))))
    ensures OnCentGrid(SetTotal(cfg, prints, rate, catalog))
  {
    var flat := FetchedCards(PagesFor(catalog, cfg.scryfallCode), cfg.scryfallCode, rate);
    var caps := CapsOf(SetStates(cfg, prints, rate, catalog));
    AssignedCapsWellFormed(flat, SupplyTable(prints, cfg.printsKey));
    WellFormedCapsSumExactly(caps);
    SumCapsIsSumOfKnown(caps);
  }

  /** A set with no entry in the prints data has no prints, no market caps and a zero total. */
  lemma MissingPrintsKeyGivesZeroTotal(cfg: SetConfig, prints: map<string, map<string, int>>, rate: real, catalog: map<string, seq<Page>>)
    requires cfg.printsKey !in prints
    ensures forall st :: st in SetStates(cfg, prints, rate, catalog) ==> st.prints.None? && st.marketCap == ""
    ensures SetTotal(cfg, prints, rate, catalog) == 0.0
  {
    var caps := CapsOf(SetStates(cfg, prints, rate, catalog));
    assert forall i :: 0 <= i < |caps| ==> caps[i] == "";
    SumCapsIsSumOfKnown(caps);
    NoKnownCaps(caps);
    RoundTo2OnGrid(0.0);
  }

  lemma {:induction false} NoKnownCaps(caps: seq<string>)
    requires forall i :: 0 <= i < |caps| ==> caps[i] == ""
    ensures KnownCaps(caps) == []
    decreases |caps|
  {
    if caps != [] {
      NoKnownCaps(caps[1..]);
    }
  }

  /** The columns of a set's CSV file, in order; the rarity is not written. */
  const CsvColumns: seq<string> := ["name", "collector_number", "prints", "usd", "market_cap", "thumbnail"]

  /** The CSV cell of an optional value: empty when absent. */
  function CellOf(v: Option<string>): string {
    if v.Some? then v.value else ""
  }

  /** The cell a card's dictionary gives for `column`, "" when it has no such field. */
  function CsvCell(st: CardState, column: string): string {
    if column == "name" then st.fields.name
    else if column == "collector_number" then st.fields.collectorNumber
    else if column == "prints" then CellOf(if st.prints.Some? then Some(IntToString(st.prints.value)) else None)
    else if column == "usd" then CellOf(st.fields.usd)
    else if column == "market_cap" then st.marketCap
    else if column == "thumbnail" then st.fields.thumbnail
    else ""
  }

  /** The column names differ pairwise: no two have the same length. */
  lemma ColumnLengths()
    ensures |CsvColumns[0]| == 4 && |CsvColumns[1]| == 16 && |CsvColumns[2]| == 6
    ensures |CsvColumns[3]| == 3 && |CsvColumns[4]| == 10 && |CsvColumns[5]| == 9
  {
  }

  /** The CSV row written for a card: one cell per column, taken from the card. */
  function CsvRow(st: CardState): (row: map<string, string>)
    ensures forall c :: c in row <==> c in CsvColumns
    ensures row["name"] == st.fields.name
    ensures row["collector_number"] == st.fields.collectorNumber
    ensures row["prints"] == (if st.prints.Some? then IntToString(st.prints.value) else "")
    ensures row["usd"] == CellOf(st.fields.usd)
    ensures row["market_cap"] == st.marketCap
    ensures row["thumbnail"] == st.fields.thumbnail
  {
    ColumnLengths();
    map c | c in CsvColumns :: CsvCell(st, c)
  }
}
