/**
 * The per-card derivations of the crawler, as pure functions: choosing a USD
 * price (crawler.py, `fetch_scryfall_cards`), cleaning the collector number,
 * lower-casing the rarity, picking the thumbnail, and the prints/market-cap
 * formula of `compute_and_assign_market_cap`.
 */
module CardFields {
  import opened Wrappers
  import opened Numbers
  import opened Text

  /**
   * One record of the catalog's search response. A field the record lacks is
   * "" for the three text fields (the code reads them with a "" default) and
   * None for the prices and the small image (read without a default).
   */
  datatype RawCard = RawCard(
    name: string,
    collectorNumber: string,
    rarity: string,
    usd: Option<string>,
    eur: Option<string>,
    small: Option<string>)

  /** The flat card the crawler emits for one record. */
  datatype FlatCard = FlatCard(
    name: string,
    collectorNumber: string,
    usd: Option<string>,
    rarity: string,
    thumbnail: string)

  /**
   * The converted price of the `try` block: the EUR price times the rate,
   * formatted to cents, or "" when the EUR price does not parse.
   */
  function ConvertEur(eur: string, rate: real): (r: string)
    ensures r == "" <==> ParseFloat(eur).None?
    ensures ParseFloat(eur).Some? ==> ParseFloat(r) == Some(Rounded2(ParseFloat(eur).value * rate))
  {
    if ParseFloat(eur).None? then ""
    else
      Format2RoundTrip(ParseFloat(eur).value * rate);
      Format2(ParseFloat(eur).value * rate)
  }

  /** The USD price of a record, converting from EUR when the USD price is empty. */
  function ChooseUsd(usd: Option<string>, eur: Option<string>, rate: real): (r: Option<string>)
    ensures Truthy(usd) ==> r == usd
    ensures !Truthy(usd) && !Truthy(eur) ==> r == usd
    ensures !Truthy(usd) && Truthy(eur) ==> r == Some(ConvertEur(eur.value, rate))
    ensures Truthy(r) <==> Truthy(usd) || (Truthy(eur) && ParseFloat(eur.value).Some?)
  {
    if Truthy(usd) then usd
    else if Truthy(eur) then Some(ConvertEur(eur.value, rate))
    else usd
  }

  /** The collector number without any '#' and without surrounding whitespace. */
  function CleanCollectorNumber(s: string): (r: string)
    ensures '#' !in r
    ensures r != [] ==> !IsSpace(r[0]) && !IsSpace(r[|r| - 1])
  {
    StripKeepsAbsence(RemoveAll(s, '#'), '#');
    Strip(RemoveAll(s, '#'))
  }

  /**
   * The cleaned number is what is left of the input without its '#'s, with
   * whitespace cut from both ends: a contiguous slice of the '#'-free text
   * with only whitespace before and after it.
   */
  lemma CleanCollectorNumberContent(s: string)
    ensures TrimmedFrom(RemoveAll(s, '#'), CleanCollectorNumber(s))
  {
    StripRemovesOnlyEnds(RemoveAll(s, '#'));
  }

  const FallbackPrefix: string := "https://img.scryfall.com/cards/small/en/"

  /** The thumbnail URL synthesised when the catalog gives no small image. */
  function FallbackThumbnail(setCode: string, collectorNumber: string): string {
    FallbackPrefix + setCode + "/" + collectorNumber + ".jpg"
  }

  /** The catalog's small image when non-empty, otherwise the synthesised URL. */
  function Thumbnail(small: Option<string>, setCode: string, collectorNumber: string): (r: string)
    ensures Truthy(small) ==> r == small.value
    ensures !Truthy(small) ==> r == FallbackThumbnail(setCode, collectorNumber)
  {
    if Truthy(small) then small.value else FallbackThumbnail(setCode, collectorNumber)
  }

  /**
   * The flat card for one catalog record of set `setCode`, at EUR->USD rate
   * `rate`. It keeps the record's name; its collector number has no '#'
   * and no surrounding whitespace; its USD price is the record's when that is
   * non-empty, else the converted EUR price when that is non-empty; its rarity
   * is the record's with upper-case letters lowered; its thumbnail is the
   * record's small image, or the synthesised URL built from the cleaned number.
   */
  function Normalize(raw: RawCard, setCode: string, rate: real): (f: FlatCard)
    ensures f.name == raw.name
    ensures f.collectorNumber == Strip(RemoveAll(raw.collectorNumber, '#'))
    ensures '#' !in f.collectorNumber
    ensures f.collectorNumber != [] ==> !IsSpace(f.collectorNumber[0]) && !IsSpace(f.collectorNumber[|f.collectorNumber| - 1])
    ensures Truthy(raw.usd) ==> f.usd == raw.usd
    ensures !Truthy(raw.usd) && Truthy(raw.eur) ==> f.usd == Some(ConvertEur(raw.eur.value, rate))
    ensures Truthy(f.usd) <==> Truthy(raw.usd) || (Truthy(raw.eur) && ParseFloat(raw.eur.value).Some?)
    ensures |f.rarity| == |raw.rarity|
    ensures forall i :: 0 <= i < |f.rarity| ==> !IsUpper(f.rarity[i])
    ensures forall i :: 0 <= i < |raw.rarity| && IsUpper(raw.rarity[i]) ==>
      f.rarity[i] as int == raw.rarity[i] as int + ('a' as int - 'A' as int)
    ensures forall i :: 0 <= i < |raw.rarity| && !IsUpper(raw.rarity[i]) ==> f.rarity[i] == raw.rarity[i]
    ensures Truthy(raw.small) ==> f.thumbnail == raw.small.value
    ensures !Truthy(raw.small) ==> f.thumbnail == FallbackThumbnail(setCode, f.collectorNumber)
  {
    FlatCard(raw.name, CleanCollectorNumber(raw.collectorNumber), ChooseUsd(raw.usd, raw.eur, rate), Lower(raw.rarity),
      Thumbnail(raw.small, setCode, CleanCollectorNumber(raw.collectorNumber)))
  }

  /** The supply-table entry for a rarity: an exact-key lookup; None stands for "". */
  function SupplyFor(supply: map<string, int>, rarity: string): (p: Option<int>)
    ensures p.Some? <==> rarity in supply
    ensures p.Some? ==> p.value == supply[rarity]
  {
    if rarity in supply then Some(supply[rarity]) else None
  }

  /**
   * The unit price the market-cap formula multiplies: the parsed USD price,
   * 0.0 when the price is empty, None when it does not parse.
   */
  function PriceForCap(usd: Option<string>): (p: Option<real>)
    ensures p.None? <==> Truthy(usd) && ParseFloat(usd.value).None?
    ensures Truthy(usd) && p.Some? ==> ParseFloat(usd.value) == p
    ensures !Truthy(usd) ==> p == Some(0.0)
  {
    if Truthy(usd) then ParseFloat(usd.value) else Some(0.0)
  }

  /** A market-cap field: empty, or a parseable whole number of cents. */
  predicate WellFormedCap(s: string) {
    s == "" || (ParseFloat(s).Some? && OnCentGrid(ParseFloat(s).value))
  }

  /** The market-cap field of a card with price `usd` and supply `supply`. */
  function MarketCap(usd: Option<string>, supply: Option<int>): (r: string)
    ensures r != "" <==> PriceForCap(usd).Some? && supply.Some? && supply.value != 0
    ensures r != "" ==> ParseFloat(r) == Some(Rounded2(PriceForCap(usd).value * supply.value as real))
    ensures WellFormedCap(r)
  {
    if PriceForCap(usd).None? || supply.None? || supply.value == 0 then ""
    else
      Format2RoundTrip(PriceForCap(usd).value * supply.value as real);
      Rounded2OnGrid(PriceForCap(usd).value * supply.value as real);
      Format2(PriceForCap(usd).value * supply.value as real)
  }

  /** The documented rule does not hold: no price but a known non-zero supply gives "0.00", not "". */
  lemma MissingPriceGivesZeroCap(usd: Option<string>, supply: int)
    requires !Truthy(usd) && supply != 0
    ensures MarketCap(usd, Some(supply)) == "0.00"
  {
    assert Cents(0.0) == 0;
  }

  /** A set absent from the prints data gets the empty supply table: no card has a market cap. */
  lemma EmptySupplyTableGivesNoCaps(usd: Option<string>, rarity: string)
    ensures SupplyFor(map[], rarity) == None
    ensures MarketCap(usd, SupplyFor(map[], rarity)) == ""
  {
  }

  /** A non-empty USD price is never converted, whatever the EUR price and the rate. */
  lemma UsdPriceWins(raw: RawCard, setCode: string, rate1: real, rate2: real)
    requires Truthy(raw.usd)
    ensures Normalize(raw, setCode, rate1).usd == Normalize(raw, setCode, rate2).usd == raw.usd
  {
  }

  /** The fallback thumbnail is an https URL ending in ".jpg" whose last path part names the card. */
  lemma FallbackThumbnailShape(setCode: string, collectorNumber: string)
    ensures var u := FallbackThumbnail(setCode, collectorNumber);
      |u| == |FallbackPrefix| + |setCode| + |collectorNumber| + 5
      && u[..8] == "https://"
      && u[|u| - 4..] == ".jpg"
      && u[|FallbackPrefix|..|FallbackPrefix| + |setCode|] == setCode
      && u[|FallbackPrefix| + |setCode| + 1..|u| - 4] == collectorNumber
  {
    var u := FallbackThumbnail(setCode, collectorNumber);
    assert u[..8] == FallbackPrefix[..8];
  }

  /** The worked example: 10.00 EUR at the fallback rate 1.04 is 10.40 USD; 1100 rare prints give 11440.00. */
  lemma FallbackRateExample()
    ensures ChooseUsd(None, Some("10.00"), 1.04) == Some("10.40")
  {
    TenEurosParse();
    assert 10.0 * 1.04 == 10.4;
    TenFortyFormat();
    assert ConvertEur("10.00", 1.04) == Format2(10.4);
  }

  /** The worked example continued: 10.40 USD and 1100 rare prints give a market cap of 11440.00. */
  lemma FallbackRateMarketCap()
    ensures MarketCap(Some("10.40"), SupplyFor(map["rare" := 1100], "rare")) == "11440.00"
  {
    TenFortyParses();
    assert SupplyFor(map["rare" := 1100], "rare") == Some(1100);
    ElevenThousandFormat();
    assert 10.4 * 1100 as real == 11440.0;
  }

  lemma TenFortyParses()
    ensures PriceForCap(Some("10.40")) == Some(10.4)
  {
    TenFortyFormat();
    Format2RoundTrip(10.4);
    assert 10.4 == 1040 as real / 100.0;
    CentsOfWholeCents(1040);
    assert Rounded2(10.4) == SignedCents(false, 1040) == 10.4;
  }

  lemma ElevenThousandFormat()
    ensures Format2(11440.0) == "11440.00"
  {
    assert 11440.0 == 1144000 as real / 100.0;
    CentsOfWholeCents(1144000);
    ElevenThousandDigits();
    assert CentsText(1144000) == NatToString(11440) + "." + ['0', '0'];
  }

  lemma TenFortyFormat()
    ensures Format2(10.4) == "10.40"
  {
    assert 10.4 == 1040 as real / 100.0;
    CentsOfWholeCents(1040);
    assert NatToString(10) == "10";
  }

  lemma TenEurosParse()
    ensures ParseFloat("10.00") == Some(10.0)
  {
    CentsOfWholeCents(1000);
    assert NatToString(10) == "10";
    assert Format2(10.0) == "10.00";
    Format2RoundTrip(10.0);
  }

  lemma ElevenThousandDigits()
    ensures NatToString(11440) == "11440"
  {
    assert NatToString(11) == "11";
    assert NatToString(114) == "114";
    assert NatToString(1144) == "1144";
  }
}
