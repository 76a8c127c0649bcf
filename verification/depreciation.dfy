/** The depreciation model of `calculate_asset_value` and the display labels
    of `divide_into_groups` (process_assets.py).  A current value is held
    exactly, in hundredths of a currency unit: market price times the
    retained whole percent. */
module Depreciation {
  import opened Strings
  import opened Pricing

  /** Configuration of one valuation run: the price table and the desktop
      serials that are valued as near-scrap whatever their remarks say. */
  datatype Config = Config(prices: PriceTable, scrapSerials: set<int>)

  /** The inventory's configuration. */
  const SourceConfig: Config := Config(SourcePrices, {11, 13, 14, 15})

  /** Percent of market price a scrap-listed desktop keeps. */
  const ScrapPercent: nat := 10

  /** Condition keyword found in a free-text remark. */
  datatype Condition = Excellent | Good | Moderate | Unrecognised

  /** First keyword of the lower-cased remark, tried in the order excellent,
      good, moderate-or-fair. */
  function ClassifyRemark(remarks: string): (c: Condition)
    ensures c == Condition.Excellent <==> Contains(Lower(remarks), "excellent")
    ensures c == Condition.Good <==>
              !Contains(Lower(remarks), "excellent") && Contains(Lower(remarks), "good")
    ensures c == Condition.Moderate <==>
              !Contains(Lower(remarks), "excellent") && !Contains(Lower(remarks), "good")
              && (Contains(Lower(remarks), "moderate") || Contains(Lower(remarks), "fair"))
    ensures c == Condition.Unrecognised <==>
              !Contains(Lower(remarks), "excellent") && !Contains(Lower(remarks), "good")
              && !Contains(Lower(remarks), "moderate") && !Contains(Lower(remarks), "fair")
  {
    var r := Lower(remarks);
    if Contains(r, "excellent") then Condition.Excellent
    else if Contains(r, "good") then Condition.Good
    else if Contains(r, "moderate") || Contains(r, "fair") then Condition.Moderate
    else Condition.Unrecognised
  }

  /** Retained percent of one tier.  Reconditioned laptops keep 40/30/20
      (default 30), everything else 70/60/50 (default 70). */
  function TierPercent(reconditioned: bool, c: Condition): (pct: nat)
    ensures reconditioned ==> pct in {40, 30, 20}
    ensures !reconditioned ==> pct in {70, 60, 50}
  {
    match c
    case Excellent => if reconditioned then 40 else 70
    case Good => if reconditioned then 30 else 60
    case Moderate => if reconditioned then 20 else 50
    case Unrecognised => if reconditioned then 30 else 70
  }

  /** The text fields of an asset record, every one of them scanned for the
      word "recondition". */
  function TextFields(a: Asset): seq<string>
  {
    [a.assetType, a.purchaseType, a.name, a.model, a.processor, a.remarks] + a.otherText
  }

  /** Some text field mentions reconditioning, in any letter case. */
  predicate MentionsRecondition(a: Asset)
  {
    exists k :: 0 <= k < |TextFields(a)| && Contains(Lower(TextFields(a)[k]), "recondition")
  }

  /** The valuation's notion of a reconditioned laptop: the purchase type says
      so or any text field mentions it. */
  predicate ReconditionedLaptop(a: Asset)
  {
    a.assetType == LaptopType && (a.purchaseType == "reconditioned" || MentionsRecondition(a))
  }

  /** The display labels' notion: the purchase type alone. */
  predicate ReconditionedByPurchase(a: Asset)
  {
    a.assetType == LaptopType && a.purchaseType == "reconditioned"
  }

  /** A desktop on the scrap list. */
  predicate Scrapped(cfg: Config, a: Asset)
  {
    a.assetType == PCType && a.serial in cfg.scrapSerials
  }

  /** Whole percent of the market price the asset keeps: 10 for a scrapped
      desktop whatever its remarks, otherwise the tier percent picked by the
      remark. */
  function RetainedPercent(cfg: Config, a: Asset): (pct: nat)
    ensures Scrapped(cfg, a) ==> pct == ScrapPercent
    ensures !Scrapped(cfg, a) ==> pct == TierPercent(ReconditionedLaptop(a), ClassifyRemark(a.remarks))
    ensures 10 <= pct <= 70 && pct % 10 == 0
  {
    if Scrapped(cfg, a) then ScrapPercent
    else TierPercent(ReconditionedLaptop(a), ClassifyRemark(a.remarks))
  }

  lemma ScaleBounds(price: int, pct: nat)
    requires price > 0 && 10 <= pct <= 70
    ensures 10 * price <= price * pct <= 70 * price
  {
  }

  /** `calculate_asset_value`, in hundredths of a currency unit.  With a
      positive table the value is positive and lies between 10% and 70% of
      the market price. */
  function CurrentValueCents(cfg: Config, a: Asset): (cents: int)
    ensures PositiveTable(cfg.prices) ==>
              10 * MarketPrice(cfg.prices, a) <= cents <= 70 * MarketPrice(cfg.prices, a)
    ensures PositiveTable(cfg.prices) ==> cents > 0
  {
    var price := MarketPrice(cfg.prices, a);
    var pct := RetainedPercent(cfg, a);
    if PositiveTable(cfg.prices) then ScaleBounds(price, pct); price * pct
    else price * pct
  }

  /** Condition tier shown next to an asset. */
  datatype Category = Excellent | Good | Moderate | Special

  /** Everything `divide_into_groups` attaches to one asset. */
  datatype Valuation = Valuation(marketPrice: int, cents: int, depreciationPercent: nat, category: Category)

  /** Depreciation label (100 minus the retained percent) of the tier chosen
      by the purchase type alone, 90 for a scrapped desktop. */
  function DepreciationLabel(cfg: Config, a: Asset): (pct: nat)
    ensures Scrapped(cfg, a) ==> pct == 100 - ScrapPercent
    ensures !Scrapped(cfg, a) ==>
              pct == 100 - TierPercent(ReconditionedByPurchase(a), ClassifyRemark(a.remarks))
  {
    if Scrapped(cfg, a) then 90
    else
      var c := ClassifyRemark(a.remarks);
      if ReconditionedByPurchase(a) then
        match c
        case Excellent => 60
        case Good => 70
        case Moderate => 80
        case Unrecognised => 70
      else
        match c
        case Excellent => 30
        case Good => 40
        case Moderate => 50
        case Unrecognised => 30
  }

  /** Displayed condition tier.  The remark's keyword decides (no keyword
      reads as Excellent, or as Good for a laptop bought reconditioned); the
      "Special" tier given to scrapped desktops is overwritten before it is
      stored, so it never shows. */
  function DisplayCategory(cfg: Config, a: Asset): (cat: Category)
    ensures cat != Category.Special
    ensures ClassifyRemark(a.remarks) == Condition.Good ==> cat == Category.Good
    ensures ClassifyRemark(a.remarks) == Condition.Moderate ==> cat == Category.Moderate
    ensures ClassifyRemark(a.remarks) == Condition.Excellent ==> cat == Category.Excellent
    ensures ClassifyRemark(a.remarks) == Condition.Unrecognised ==>
              cat == (if ReconditionedByPurchase(a) then Category.Good else Category.Excellent)
  {
    var c := ClassifyRemark(a.remarks);
    var byRemark :=
      match c
      case Excellent => Category.Excellent
      case Good => Category.Good
      case Moderate => Category.Moderate
      case Unrecognised => Category.Excellent;
    var remarkCategory :=
      if !Scrapped(cfg, a) && ReconditionedByPurchase(a) && c == Condition.Unrecognised then Category.Good
      else byRemark;
    // a scrapped desktop is first labelled Special, but the labelling step
    // ends by storing `remarkCategory` over it
    remarkCategory
  }

  /** The per-asset valuation step of `divide_into_groups`. */
  function Value(cfg: Config, a: Asset): (v: Valuation)
    ensures v.marketPrice == MarketPrice(cfg.prices, a)
    ensures v.cents == v.marketPrice * RetainedPercent(cfg, a)
    ensures v.depreciationPercent == DepreciationLabel(cfg, a)
    ensures v.category != Category.Special
  {
    Valuation(MarketPrice(cfg.prices, a), CurrentValueCents(cfg, a), DepreciationLabel(cfg, a), DisplayCategory(cfg, a))
  }

  /** A scrapped desktop keeps exactly 10% of its market price, whatever its
      remarks say. */
  lemma ScrapOverridesRemarks(cfg: Config, a: Asset, remarks: string)
    requires Scrapped(cfg, a)
    ensures CurrentValueCents(cfg, a.(remarks := remarks)) == MarketPrice(cfg.prices, a) * 10
  {
  }

  /** For every remark, a reconditioned laptop keeps a strictly smaller share
      than any other asset; a remark without keyword reads as Good for a
      reconditioned laptop and as Excellent for everything else. */
  lemma TierOrdering(c: Condition)
    ensures TierPercent(true, c) < TierPercent(false, c)
    ensures TierPercent(true, Condition.Unrecognised) == TierPercent(true, Condition.Good)
    ensures TierPercent(false, Condition.Unrecognised) == TierPercent(false, Condition.Excellent)
    ensures TierPercent(true, Condition.Excellent) > TierPercent(true, Condition.Good) > TierPercent(true, Condition.Moderate)
    ensures TierPercent(false, Condition.Excellent) > TierPercent(false, Condition.Good) > TierPercent(false, Condition.Moderate)
  {
  }

  /** The first keyword wins: a remark holding "good" and "fair" but not
      "excellent" is Good. */
  lemma FirstKeywordWins(remarks: string)
    requires !Contains(Lower(remarks), "excellent")
    requires Contains(Lower(remarks), "good")
    ensures ClassifyRemark(remarks) == Condition.Good
  {
  }

  /** The label and the value agree on the tier unless a laptop not bought as
      reconditioned mentions reconditioning in some text field. */
  lemma LabelMatchesValue(cfg: Config, a: Asset)
    requires !(a.assetType == LaptopType && a.purchaseType != "reconditioned" && MentionsRecondition(a))
    ensures DepreciationLabel(cfg, a) + RetainedPercent(cfg, a) == 100
  {
  }

  /** A laptop from the new-purchase section whose status reads
      "Reconditioned" is valued as reconditioned (30%) but labelled with the
      standard depreciation (30%), so label and value disagree. */
  lemma LabelDisagreesWithValue()
    ensures var a := Asset(LaptopType, 1, "Dell", "", "", 0, "new", "", ["Reconditioned"]);
            DepreciationLabel(SourceConfig, a) + RetainedPercent(SourceConfig, a) != 100
  {
    var a := Asset(LaptopType, 1, "Dell", "", "", 0, "new", "", ["Reconditioned"]);
    var l := Lower("Reconditioned");
    assert l[0..11] == "recondition";
    assert OccursAt(l, "recondition", 0);
    assert TextFields(a)[6] == "Reconditioned";
    assert MentionsRecondition(a);
    assert ClassifyRemark("") == Condition.Unrecognised by {
      EmptyContainsNothing("excellent");
      EmptyContainsNothing("good");
      EmptyContainsNothing("moderate");
      EmptyContainsNothing("fair");
    }
  }

  /** A new laptop at 100,000 whose remark reads "Excellent condition" is
      worth 70,000.00. */
  lemma NewLaptopExample(cfg: Config, a: Asset)
    requires a.assetType == LaptopType && a.purchaseType == "new" && a.remarks == "Excellent condition"
    requires !MentionsRecondition(a)
    requires MarketPrice(cfg.prices, a) == 100000
    ensures CurrentValueCents(cfg, a) == 7000000
  {
    ReadsExcellent();
  }

  lemma ReadsExcellent()
    ensures ClassifyRemark("Excellent condition") == Condition.Excellent
  {
    var l := Lower("Excellent condition");
    assert l[0..9] == "excellent";
    assert OccursAt(l, "excellent", 0);
  }

  /** A reconditioned laptop at 50,000 whose remark reads "Good, working"
      is worth 15,000.00. */
  lemma ReconditionedLaptopExample(cfg: Config, a: Asset)
    requires a.assetType == LaptopType && a.purchaseType == "reconditioned" && a.remarks == "Good, working"
    requires MarketPrice(cfg.prices, a) == 50000
    ensures CurrentValueCents(cfg, a) == 1500000
  {
    var l := Lower("Good, working");
    assert l[0..4] == "good";
    assert OccursAt(l, "good", 0);
    NotContainsMissingHead(l, "excellent");
  }

  /** A monitor at 12,000 whose remark names no condition is worth
      8,400.00. */
  lemma MonitorExample(cfg: Config, a: Asset)
    requires a.assetType == MonitorType
    requires !Contains(Lower(a.remarks), "excellent") && !Contains(Lower(a.remarks), "good")
             && !Contains(Lower(a.remarks), "moderate") && !Contains(Lower(a.remarks), "fair")
    requires MarketPrice(cfg.prices, a) == 12000
    ensures CurrentValueCents(cfg, a) == 840000
  {
  }

  /** The desktop with serial 11 keeps 10% of its market price under the
      inventory's configuration, whatever its remark. */
  lemma ScrapSerialExample(a: Asset)
    requires a.assetType == PCType && a.serial == 11
    ensures CurrentValueCents(SourceConfig, a) == MarketPrice(SourcePrices, a) * 10
  {
  }
}
