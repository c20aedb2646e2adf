// How the crawler's CSV output and the web site's loading fit together: a
// row the crawler writes reads back as the same prints and market cap, and
// the site's total for a set is the crawler's recorded total.

module Pipeline {
  import opened Wrappers
  import opened Numbers
  import opened Text
  import opened Crawler
  import opened Site

  /** A written CSV row as the reader gives it back: every cell present. */
  function ReadBack(row: map<string, string>): (r: Row)
    ensures r.Keys == row.Keys
    ensures forall k :: k in row ==> r[k] == Some(row[k])
  {
    map k | k in row :: Some(row[k])
  }

  /** The rows of a set's CSV file, as the site reads them. */
  function WrittenFile(sts: seq<CardState>): (rows: seq<Row>)
    ensures |rows| == |sts|
    ensures forall i :: 0 <= i < |sts| ==> rows[i] == ReadBack(CsvRow(sts[i]))
  {
    seq(|sts|, i requires 0 <= i < |sts| => ReadBack(CsvRow(sts[i])))
  }

  /** A row the crawler writes has every numeric column the site converts. */
  lemma WrittenRowComplete(st: CardState)
    ensures MissingColumn(ReadBack(CsvRow(st))).None?
  {
    assert "prints" in CsvColumns && "usd" in CsvColumns && "market_cap" in CsvColumns;
  }

  /**
   * The site reads back the prints and the market cap the crawler assigned,
   * and the USD price whenever it was non-empty.
   */
  lemma RowRoundTrip(st: CardState)
    ensures MissingColumn(ReadBack(CsvRow(st))).None?
    ensures ParseRow(ReadBack(CsvRow(st))).prints == st.prints
    ensures ParseRow(ReadBack(CsvRow(st))).marketCap == (if st.marketCap == "" then None else ParseFloat(st.marketCap))
    ensures ParseRow(ReadBack(CsvRow(st))).usd == (if Truthy(st.fields.usd) then ParseFloat(st.fields.usd.value) else None)
  {
    WrittenRowComplete(st);
    if st.prints.Some? {
      IntRoundTrip(st.prints.value);
    }
  }

  /** The site's running sum and the crawler's running sum agree card by card. */
  lemma {:induction false} CapTotalIsSumCaps(cards: seq<SiteCard>, caps: seq<string>)
    requires |cards| == |caps|
    requires forall i :: 0 <= i < |caps| ==> cards[i].marketCap == ParseAmount(Some(caps[i]))
    ensures CapTotal(cards) == SumCaps(caps)
    decreases |caps|
  {
    if caps != [] {
      CapTotalIsSumCaps(cards[..|cards| - 1], caps[..|caps| - 1]);
    }
  }

  /**
   * Loading the CSV file the crawler writes for a set succeeds, gives one
   * card per crawled card with the same prints, and sums to the total the
   * crawler recorded.
   */
  lemma SiteTotalMatchesCrawler(cfg: SetConfig, prints: map<string, map<string, int>>, rate: real, catalog: map<string, seq<Page>>)
    ensures var sts := SetStates(cfg, prints, rate, catalog);
      var loaded := Load(WrittenFile(sts));
      && loaded.Loaded?
      && |loaded.cards| == |sts|
      && (forall i :: 0 <= i < |sts| ==> loaded.cards[i].prints == sts[i].prints)
      && loaded.total == SetTotal(cfg, prints, rate, catalog)
  {
    var sts := SetStates(cfg, prints, rate, catalog);
    var rows := WrittenFile(sts);
    forall i | 0 <= i < |rows|
      ensures MissingColumn(rows[i]).None?
    {
      WrittenRowComplete(sts[i]);
    }
    var loaded := Load(rows);
    forall i | 0 <= i < |sts|
      ensures loaded.cards[i].prints == sts[i].prints
      ensures loaded.cards[i].marketCap == ParseAmount(Some(CapsOf(sts)[i]))
    {
      RowRoundTrip(sts[i]);
    }
    CapTotalIsSumCaps(loaded.cards, CapsOf(sts));
    var flat := FetchedCards(PagesFor(catalog, cfg.scryfallCode), cfg.scryfallCode, rate);
    AssignedCapsWellFormed(flat, SupplyTable(prints, cfg.printsKey));
    WellFormedCapsSumExactly(CapsOf(sts));
  }
}
