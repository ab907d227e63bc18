/**
 * The raw pricing record the API returns and the card view model the page
 * builds from it, with the per-record transform and its lifting to the
 * whole response (`data.map(...)`).
 */
module Records {
  import opened Options
  import opened Decimal
  import Pricing
  import Capacity

  /** One element of the API's JSON array. Optional costs may be null. */
  datatype RawSkip = RawSkip(
    id: int,
    size: int,
    hirePeriodDays: int,
    priceBeforeVat: int,
    vat: int,
    transportCost: Option<int>,
    perTonneCost: Option<int>,
    allowedOnRoad: bool,
    allowsHeavyWaste: bool)

  /** The view model of one card. */
  datatype Skip = Skip(
    id: int,
    size: int,
    sizeLabel: string,
    period: string,
    hirePeriodDays: int,
    price: string,
    priceNumeric: int,
    priceBeforeVat: string,
    vatAmount: string,
    vatRate: int,
    transportCost: Option<int>,
    perTonneCost: Option<int>,
    image: string,
    restrictions: seq<string>,
    roadLegal: bool,
    heavyWasteSuitable: bool,
    capacityInfo: Capacity.CapacityInfo)

  const YardsSuffix: string := " Yards"
  const PeriodSuffix: string := " day hire period"
  const Pound: char := '£'
  const ImageBase: string := "https://yozbrydxdlcxghkphhtq.supabase.co/storage/v1/object/public/skips/skip-sizes/"
  const ImageSuffix: string := "-yarder-skip.jpg"

  function SizeLabel(size: int): string {
    IntString(size) + YardsSuffix
  }

  function PeriodLabel(days: int): string {
    IntString(days) + PeriodSuffix
  }

  function PriceLabel(amount: int): string {
    [Pound] + IntString(amount)
  }

  function ImageUrl(size: int): string {
    ImageBase + IntString(size) + ImageSuffix
  }

  /** Reads the size back out of a size label. */
  function ParseSizeLabel(text: string): Option<int> {
    if |text| >= |YardsSuffix| && text[|text| - |YardsSuffix|..] == YardsSuffix
    then ParseInt(text[..|text| - |YardsSuffix|])
    else None
  }

  /** Reads the number of days back out of a hire-period label. */
  function ParsePeriodLabel(text: string): Option<int> {
    if |text| >= |PeriodSuffix| && text[|text| - |PeriodSuffix|..] == PeriodSuffix
    then ParseInt(text[..|text| - |PeriodSuffix|])
    else None
  }

  /** Reads the amount back out of a price label. */
  function ParsePriceLabel(text: string): Option<int> {
    if |text| > 0 && text[0] == Pound then ParseInt(text[1..]) else None
  }

  /**
   * The per-record transform: copies the identity, size, hire period, VAT
   * rate, optional costs and the two flags; prices the skip; looks up its
   * capacity; and builds its labels and image URL from the size.
   */
  function Transform(raw: RawSkip): (s: Skip)
    ensures s.id == raw.id && s.size == raw.size && s.hirePeriodDays == raw.hirePeriodDays
    ensures s.roadLegal == raw.allowedOnRoad && s.heavyWasteSuitable == raw.allowsHeavyWaste
    ensures s.vatRate == raw.vat
    ensures s.transportCost == raw.transportCost && s.perTonneCost == raw.perTonneCost
    ensures s.priceNumeric == Pricing.FinalPrice(raw.priceBeforeVat, raw.vat)
    ensures s.capacityInfo == Capacity.Lookup(raw.size)
    ensures s.restrictions == []
  {
    var finalPrice := Pricing.FinalPrice(raw.priceBeforeVat, raw.vat);
    var vatAmount := Pricing.VatAmount(raw.priceBeforeVat, raw.vat);
    Skip(
      id := raw.id,
      size := raw.size,
      sizeLabel := SizeLabel(raw.size),
      period := PeriodLabel(raw.hirePeriodDays),
      hirePeriodDays := raw.hirePeriodDays,
      price := PriceLabel(finalPrice),
      priceNumeric := finalPrice,
      priceBeforeVat := PriceLabel(raw.priceBeforeVat),
      vatAmount := PriceLabel(vatAmount),
      vatRate := raw.vat,
      transportCost := raw.transportCost,
      perTonneCost := raw.perTonneCost,
      image := ImageUrl(raw.size),
      restrictions := [],
      roadLegal := raw.allowedOnRoad,
      heavyWasteSuitable := raw.allowsHeavyWaste,
      capacityInfo := Capacity.Lookup(raw.size))
  }

  /** `data.map(transform)`: one view model per record, in the same order. */
  function TransformAll(data: seq<RawSkip>): (r: seq<Skip>)
    ensures |r| == |data|
  {
    seq(|data|, i requires 0 <= i < |data| => Transform(data[i]))
  }

  /** The i-th view model is the transform of the i-th raw record. */
  lemma TransformAllAt(data: seq<RawSkip>, i: nat)
    requires i < |data|
    ensures TransformAll(data)[i] == Transform(data[i])
  {
  }

  /**
   * The labels carry the record's figures: the size label reads back as the
   * size, the three price labels as the final price, the pre-VAT price and
   * the VAT amount, and the headline price is the sum of the other two.
   */
  lemma LabelsRoundTrip(raw: RawSkip)
    ensures ParseSizeLabel(Transform(raw).sizeLabel) == Some(raw.size)
    ensures ParsePriceLabel(Transform(raw).price) == Some(Transform(raw).priceNumeric)
    ensures ParsePriceLabel(Transform(raw).priceBeforeVat) == Some(raw.priceBeforeVat)
    ensures ParsePriceLabel(Transform(raw).vatAmount) == Some(Pricing.VatAmount(raw.priceBeforeVat, raw.vat))
    ensures Transform(raw).priceNumeric == raw.priceBeforeVat + Pricing.VatAmount(raw.priceBeforeVat, raw.vat)
  {
    var s := Transform(raw);
    IntStringRoundTrip(raw.size);
    assert s.sizeLabel[..|s.sizeLabel| - |YardsSuffix|] == IntString(raw.size);
    PriceLabelRoundTrip(s.priceNumeric);
    PriceLabelRoundTrip(raw.priceBeforeVat);
    PriceLabelRoundTrip(Pricing.VatAmount(raw.priceBeforeVat, raw.vat));
    Pricing.FinalPriceIsPricePlusVat(raw.priceBeforeVat, raw.vat);
  }

  /** The hire-period label reads back as the number of days it was built from. */
  lemma PeriodLabelRoundTrip(raw: RawSkip)
    ensures ParsePeriodLabel(Transform(raw).period) == Some(raw.hirePeriodDays)
  {
    var text := PeriodLabel(raw.hirePeriodDays);
    IntStringRoundTrip(raw.hirePeriodDays);
    assert text[..|text| - |PeriodSuffix|] == IntString(raw.hirePeriodDays);
  }

  lemma PriceLabelRoundTrip(amount: int)
    ensures ParsePriceLabel(PriceLabel(amount)) == Some(amount)
  {
    IntStringRoundTrip(amount);
    assert PriceLabel(amount)[1..] == IntString(amount);
  }

  /** Two cards show the same picture exactly when their skips are the same size. */
  lemma ImageDeterminedBySize(a: RawSkip, b: RawSkip)
    ensures Transform(a).image == Transform(b).image <==> a.size == b.size
  {
    var sa, sb := IntString(a.size), IntString(b.size);
    if ImageUrl(a.size) == ImageUrl(b.size) {
      assert sa == ImageUrl(a.size)[|ImageBase|..|ImageUrl(a.size)| - |ImageSuffix|];
      assert sb == ImageUrl(b.size)[|ImageBase|..|ImageUrl(b.size)| - |ImageSuffix|];
      IntStringInjective(a.size, b.size);
    }
  }

  /**
   * A six-yard skip for 14 days at 200 before 20% VAT, road legal and not for
   * heavy waste.
   */
  lemma SixYardExample(id: int)
    ensures var s := Transform(RawSkip(id, 6, 14, 200, 20, None, None, true, false));
      && s.sizeLabel == "6 Yards" && s.period == "14 day hire period"
      && s.price == "£240" && s.priceNumeric == 240
      && s.priceBeforeVat == "£200" && s.vatAmount == "£40"
      && s.roadLegal && !s.heavyWasteSuitable
      && s.capacityInfo == Capacity.CapacityInfo("45-50", "Kitchen renovation")
  {
    var s := Transform(RawSkip(id, 6, 14, 200, 20, None, None, true, false));
    Pricing.TwoHundredAtTwentyPercent();
    Capacity.LookupExamples();
    assert s.sizeLabel == "6 Yards" by {
      assert IntString(6) == "6";
    }
    assert s.period == "14 day hire period" by {
      assert IntString(14) == "14";
    }
    assert s.price == "£240" by {
      assert IntString(240) == "240";
    }
    assert s.priceBeforeVat == "£200" by {
      assert IntString(200) == "200";
    }
    assert s.vatAmount == "£40" by {
      assert IntString(40) == "40";
    }
  }
}
