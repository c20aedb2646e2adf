// The web site's loading of one set's CSV file: rows become cards with
// numeric fields, and the market caps are summed.

module Site {
  import opened Wrappers
  import opened Numbers
  import opened Text

  /**
   * A CSV row as the reader gives it: column name to cell. A cell is None
   * when the row is shorter than the header.
   */
  type Row = map<string, Option<string>>

  /** A loaded card: the row as read, with its three numeric columns converted. */
  datatype SiteCard = SiteCard(row: Row, prints: Option<int>, usd: Option<real>, marketCap: Option<real>)

  /** Either the cards and their total, or the column whose absence stopped loading. */
  datatype LoadResult = Loaded(cards: seq<SiteCard>, total: real) | KeyMissing(key: string)

  /** `prints` as an integer; a missing, empty or malformed cell gives None. */
  function ParsePrints(cell: Option<string>): (p: Option<int>)
    ensures p.Some? ==> cell.Some? && ParseInt(cell.value) == p
    ensures cell.Some? && ParseInt(cell.value).Some? ==> p.Some?
    ensures cell == Some("") ==> p.None?
  {
    if cell.None? then None else ParseInt(cell.value)
  }

  /** `usd` and `market_cap` as numbers; an empty, missing or malformed cell gives None. */
  function ParseAmount(cell: Option<string>): (v: Option<real>)
    ensures v.Some? ==> Truthy(cell) && ParseFloat(cell.value) == v
    ensures Truthy(cell) && ParseFloat(cell.value).Some? ==> v.Some?
  {
    if Truthy(cell) then ParseFloat(cell.value) else None
  }

  /** The first of the numeric columns, in the order they are converted, that the row lacks. */
  function MissingColumn(row: Row): (k: Option<string>)
    ensures k.None? <==> "prints" in row && "usd" in row && "market_cap" in row
    ensures k.Some? ==> k.value !in row
  {
    if "prints" !in row then Some("prints")
    else if "usd" !in row then Some("usd")
    else if "market_cap" !in row then Some("market_cap")
    else None
  }

  /** The card a complete row becomes. */
  function ParseRow(row: Row): (c: SiteCard)
    requires MissingColumn(row).None?
    ensures c.row == row
  {
    SiteCard(row, ParsePrints(row["prints"]), ParseAmount(row["usd"]), ParseAmount(row["market_cap"]))
  }

  /** The sum of the known market caps, in order. */
  function CapTotal(cards: seq<SiteCard>): (total: real)
    ensures (forall i :: 0 <= i < |cards| ==> cards[i].marketCap.None?) ==> total == 0.0
    decreases |cards|
  {
    if cards == [] then 0.0
    else CapTotal(cards[..|cards| - 1]) + cards[|cards| - 1].marketCap.GetOr(0.0)
  }

  /** The index of the first row lacking a numeric column, or |rows| when none does. */
  function FirstIncomplete(rows: seq<Row>): (n: nat)
    ensures n <= |rows|
    ensures forall i :: 0 <= i < n ==> MissingColumn(rows[i]).None?
    ensures n < |rows| ==> MissingColumn(rows[n]).Some?
    decreases |rows|
  {
    if rows == [] then 0
    else if MissingColumn(rows[0]).Some? then 0
    else 1 + FirstIncomplete(rows[1..])
  }

  /**
   * What loading a file of rows gives: the first row lacking a numeric column
   * stops it; otherwise one card per row and the sum of the known caps.
   */
  function Load(rows: seq<Row>): (r: LoadResult)
    ensures r.Loaded? <==> forall i :: 0 <= i < |rows| ==> MissingColumn(rows[i]).None?
    ensures r.Loaded? ==> |r.cards| == |rows|
    ensures r.Loaded? ==> forall i :: 0 <= i < |rows| ==> r.cards[i] == ParseRow(rows[i])
    ensures r.Loaded? ==> r.total == CapTotal(r.cards)
    ensures r.KeyMissing? ==>
      exists i :: 0 <= i < |rows| && MissingColumn(rows[i]) == Some(r.key)
        && forall j :: 0 <= j < i ==> MissingColumn(rows[j]).None?
  {
    var n := FirstIncomplete(rows);
    if n < |rows| then KeyMissing(MissingColumn(rows[n]).value)
    else
      var cards := seq(|rows|, i requires 0 <= i < |rows| => ParseRow(rows[i]));
      Loaded(cards, CapTotal(cards))
  }

  /**
   * Loads a set's CSV file. A file that does not exist (None) gives no cards
   * and a zero total.
   */
  method LoadDataForSet(file: Option<seq<Row>>) returns (result: LoadResult)
    ensures file.None? ==> result == Loaded([], 0.0)
    ensures file.Some? ==> result == Load(file.value)
  {
    var cards: seq<SiteCard> := [];
    var total := 0.0;
    if file.None? {
      return Loaded(cards, total);
    }
    var rows := file.value;
    for i := 0 to |rows|
      invariant |cards| == i
      invariant LoadedSoFar(rows, cards)
      invariant total == CapTotal(cards)
    {
      var row := rows[i];
      if "prints" !in row {
        FirstIncompleteAt(rows, i);
        return KeyMissing("prints");
      }
      var prints := ParsePrints(row["prints"]);
      if "usd" !in row {
        FirstIncompleteAt(rows, i);
        return KeyMissing("usd");
      }
      var usd := ParseAmount(row["usd"]);
      if "market_cap" !in row {
        FirstIncompleteAt(rows, i);
        return KeyMissing("market_cap");
      }
      var marketCap := ParseAmount(row["market_cap"]);
      if marketCap.Some? {
        total := total + marketCap.value;
      }
      var card := SiteCard(row, prints, usd, marketCap);
      LoadedSoFarAppend(rows, cards, card);
      CapTotalAppend(cards, card);
      cards := cards + [card];
    }
    LoadComplete(rows, cards);
    result := Loaded(cards, total);
  }

  /** `card` is what the complete row `row` becomes. */
  predicate RowLoaded(row: Row, card: SiteCard) {
    MissingColumn(row).None? && card == ParseRow(row)
  }

  /** `cards` are the parsed first rows of `rows`, each of which has every numeric column. */
  predicate LoadedSoFar(rows: seq<Row>, cards: seq<SiteCard>) {
    |cards| <= |rows| && forall j :: 0 <= j < |cards| ==> RowLoaded(rows[j], cards[j])
  }

  /** One more complete row, parsed, extends what has been loaded. */
  lemma LoadedSoFarAppend(rows: seq<Row>, cards: seq<SiteCard>, card: SiteCard)
    requires LoadedSoFar(rows, cards) && |cards| < |rows|
    requires RowLoaded(rows[|cards|], card)
    ensures LoadedSoFar(rows, cards + [card])
  {
    var cs := cards + [card];
    forall j | 0 <= j < |cs|
      ensures RowLoaded(rows[j], cs[j])
    {
      if j < |cards| {
        assert cs[j] == cards[j];
      }
    }
  }

  /** Adding a card adds its market cap, if any, to the total. */
  lemma CapTotalAppend(cards: seq<SiteCard>, card: SiteCard)
    ensures CapTotal(cards + [card]) == CapTotal(cards) + card.marketCap.GetOr(0.0)
  {
    assert (cards + [card])[..|cards|] == cards;
  }

  lemma {:induction false} FirstIncompleteAt(rows: seq<Row>, n: nat)
    requires n <= |rows|
    requires forall i :: 0 <= i < n ==> MissingColumn(rows[i]).None?
    requires n < |rows| ==> MissingColumn(rows[n]).Some?
    ensures FirstIncomplete(rows) == n
    decreases n
  {
    if n > 0 {
      FirstIncompleteAt(rows[1..], n - 1);
    }
  }

  /** When every row is complete, loading gives exactly the parsed rows. */
  lemma LoadComplete(rows: seq<Row>, cards: seq<SiteCard>)
    requires forall i :: 0 <= i < |rows| ==> MissingColumn(rows[i]).None?
    requires |cards| == |rows|
    requires forall i :: 0 <= i < |rows| ==> cards[i] == ParseRow(rows[i])
    ensures Load(rows) == Loaded(cards, CapTotal(cards))
  {
    FirstIncompleteAt(rows, |rows|);
    assert Load(rows).cards == cards;
  }
}
