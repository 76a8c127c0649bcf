/** The market-price model of `get_market_price` (process_assets.py): an
    exact lookup in a configurable price table, then per-category keyword
    heuristics, then fixed fallback prices. */
module Pricing {
  import opened Strings
  import opened Wrappers

  /** Category name (the spreadsheet sheet name) -> model/name key -> price
      in whole currency units. */
  type PriceTable = map<string, map<string, int>>

  const LaptopType: string := "Laptop"
  const PCType: string := "PC"
  const MonitorType: string := "Monitor"
  const PrinterType: string := "Printer Scaneer"
  const ServerRoomType: string := "Server Room"

  /** Price of an asset whose category has no table, and of a category with a
      table but no keyword heuristics. */
  const DefaultPrice: int := 50000
  const LaptopFallback: int := 60000
  const ServerPrice: int := 650000
  const DesktopFallback: int := 70000

  /** One normalised asset record.  Absent text fields are "", an absent
      generation is 0.  `otherText` holds the remaining text columns the
      loader may fill (storage, GPU, user, location, level, status,
      function); only the reconditioned-keyword scan reads them. */
  datatype Asset = Asset(
    assetType: string,
    serial: int,
    name: string,
    model: string,
    processor: string,
    gen: int,
    purchaseType: string,
    remarks: string,
    otherText: seq<string>)

  /** Every configured price is positive. */
  predicate PositiveTable(table: PriceTable)
  {
    forall cat, key :: cat in table && key in table[cat] ==> table[cat][key] > 0
  }

  /** Normalised inputs of the pricing code: stripped name and model,
      stripped and lower-cased processor. */
  function CleanName(a: Asset): string { Strip(a.name) }
  function CleanModel(a: Asset): string { Strip(a.model) }
  function CleanProcessor(a: Asset): string { Lower(Strip(a.processor)) }

  /** The third lookup key, `"name model"` stripped. */
  function CombinedKey(name: string, model: string): string
  {
    Strip(name + " " + model)
  }

  /** The three exact lookups, in their order of precedence. */
  function ExactPrice(prices: map<string, int>, name: string, model: string): Option<int>
  {
    if model in prices then Some(prices[model])
    else if name in prices then Some(prices[name])
    else if CombinedKey(name, model) in prices then Some(prices[CombinedKey(name, model)])
    else None
  }

  /** New and reconditioned prices of one laptop heuristic branch. */
  datatype PricePair = PricePair(newPrice: int, recondPrice: int)

  /** The processor names one of the Core i7, i5 or i3 families. */
  predicate CoreFamily(processor: string)
  {
    Contains(processor, "i7") || Contains(processor, "i5") || Contains(processor, "i3")
  }

  /** Pair of the generic processor fallback. */
  function ByProcessor(processor: string): Option<PricePair>
  {
    if Contains(processor, "i7") then Some(PricePair(105000, 55000))
    else if Contains(processor, "i5") then Some(PricePair(70000, 45000))
    else if Contains(processor, "i3") then Some(PricePair(48000, 30000))
    else None
  }

  /** The first laptop heuristic branch that fires: brand (Dell, HP, Lenovo,
      ASUS) and product line, then processor family; `None` when only the
      generic laptop price is left.  Every branch prices a reconditioned
      unit strictly below a new one, and a branch can only be missed by a
      processor outside the i7/i5/i3 families. */
  function LaptopTier(name: string, model: string, processor: string): (r: Option<PricePair>)
    ensures r.Some? ==> 0 < r.value.recondPrice < r.value.newPrice
    ensures r.Some? ==> r.value.newPrice != LaptopFallback
    ensures r.None? ==> !CoreFamily(processor)
    ensures (!CoreFamily(processor) && !Contains(Lower(name), "elite") && !Contains(Lower(model), "elite")
             && !Contains(Lower(name), "thinkpad") && !Contains(Lower(model), "x230")) ==> r.None?
  {
    var brand: Option<PricePair> :=
      if Contains(Upper(name), "DELL") || Contains(name, "Dell") then
        if Contains(processor, "i7") then Some(PricePair(110000, 60000))
        else if Contains(processor, "i5") then Some(PricePair(75000, 50000))
        else if Contains(processor, "i3") then Some(PricePair(50000, 32000))
        else None
      else if Contains(Upper(name), "HP") then
        if Contains(Lower(name), "elite") || Contains(Lower(model), "elite") then Some(PricePair(90000, 48000))
        else if Contains(Lower(name), "probook") || Contains(Lower(model), "probook") then
          if Contains(processor, "i7") then Some(PricePair(95000, 60000))
          else if Contains(processor, "i5") then Some(PricePair(85000, 50000))
          else None
        else
          if Contains(processor, "i7") then Some(PricePair(100000, 60000))
          else if Contains(processor, "i5") then Some(PricePair(72500, 45000))
          else if Contains(processor, "i3") then Some(PricePair(48000, 30000))
          else None
      else if Contains(Upper(name), "LENOVO") || Contains(name, "Lenovo") then
        if Contains(Lower(name), "thinkpad") || Contains(Lower(model), "x230") then Some(PricePair(55000, 28000))
        else if Contains(processor, "i3") then Some(PricePair(48000, 35000))
        else if Contains(processor, "i5") then Some(PricePair(70000, 45000))
        else None
      else if Contains(Upper(name), "ASUS") then
        if Contains(processor, "i3") then Some(PricePair(45000, 28000))
        else if Contains(processor, "i5") then Some(PricePair(65000, 40000))
        else None
      else None;
    if brand.Some? then brand else ByProcessor(processor)
  }

  /** Laptop heuristic price; only the `PurchaseType` field decides which
      half of a pair applies. */
  function LaptopPrice(name: string, model: string, processor: string, reconditioned: bool): (r: int)
    ensures r > 0
  {
    match LaptopTier(name, model, processor)
    case Some(pair) => if reconditioned then pair.recondPrice else pair.newPrice
    case None => LaptopFallback
  }

  /** Server names and Xeon processors are priced as servers. */
  predicate ServerLike(name: string, processor: string)
  {
    Contains(Lower(name), "server") || Contains(Lower(name), "proliant") || Contains(processor, "xeon")
  }

  /** Desktop heuristic price: server, then i9 by generation, i5, i3 by
      generation, dual core, generic desktop. */
  function PCPrice(name: string, processor: string, gen: int): (r: int)
    ensures r > 0
    ensures r in {650000, 280000, 220000, 180000, 85000, 55000, 35000, 30000, 70000}
    ensures r == ServerPrice <==> ServerLike(name, processor)
  {
    if Contains(Lower(name), "server") || Contains(Lower(name), "proliant") then ServerPrice
    else if Contains(processor, "xeon") then ServerPrice
    else if Contains(processor, "i9") then
      if gen >= 13 then 280000 else if gen >= 11 then 220000 else 180000
    else if Contains(processor, "i5") then 85000
    else if Contains(processor, "i3") then
      if gen >= 10 then 55000 else 35000
    else if Contains(processor, "dual") || (Contains(processor, "core") && Contains(processor, "dual")) then 30000
    else DesktopFallback
  }

  /** Monitor heuristic price, keyed on model size digits. */
  function MonitorPrice(name: string, model: string): (r: int)
    ensures r > 0
    ensures r in {15500, 12000, 10000, 6000, 11000}
  {
    if Contains(Lower(model), "m22f") then 15500
    else if Contains(Lower(name), "asus") then 15500
    else if Contains(model, "24") || Contains(model, "22") || Contains(model, "21") then 12000
    else if Contains(model, "19") || Contains(model, "18") then 10000
    else if Contains(model, "17") then 6000
    else 11000
  }

  /** Printer and scanner heuristic price. */
  function PrinterPrice(name: string, model: string): (r: int)
    ensures r > 0
    ensures r in {80000, 21000, 42000, 22000, 32000, 11000, 14000, 18000, 10000, 16000, 12000, 15000}
  {
    var m := Lower(model);
    var n := Lower(name);
    if Contains(n, "a3") || Contains(m, "l8180") || Contains(m, "c722b1") then 80000
    else if Contains(m, "l3250") then 21000
    else if Contains(m, "m404") then 42000
    else if Contains(m, "m402") then 22000
    else if Contains(m, "m26") then 32000
    else if Contains(m, "107w") then 11000
    else if Contains(n, "pantum") || Contains(m, "p3010") then 14000
    else if Contains(n, "samsung") then 18000
    else if Contains(n, "canon") then
      if Contains(n, "scanner") || Contains(n, "scaneer") then 10000 else 16000
    else if Contains(n, "epson") then
      if Contains(n, "scanner") || Contains(n, "scaneer") then 12000 else 21000
    else 15000
  }

  /** Server-room (network, UPS, security) heuristic price. */
  function ServerRoomPrice(name: string, model: string): (r: int)
    ensures r > 0
    ensures r in {115000, 160000, 85000, 13000, 33000, 7500, 18000, 12000, 23000, 8000, 3500, 2000, 25000, 15000, 10000}
  {
    var m := Lower(model);
    var n := Lower(name);
    if Contains(m, "apc") || Contains(m, "srce6kux1") then 115000
    else if Contains(n, "battery") && Contains(n, "16") then 160000
    else if Contains(n, "mikrotik") then
      if Contains(m, "ccr2004") || Contains(m, "16g") then 85000 else 13000
    else if Contains(n, "cisco") then 33000
    else if Contains(n, "tp-link") || Contains(n, "tplink") then
      if Contains(n, "24") then 7500 else if Contains(n, "8") then 18000 else 12000
    else if Contains(n, "hikvision") || Contains(n, "dvr") then
      if Contains(n, "16") then 23000 else if Contains(n, "8") then 12000 else 18000
    else if Contains(n, "kvm") then 8000
    else if Contains(n, "patch") then 3500
    else if Contains(n, "cable") then 2000
    else if Contains(n, "pbax") || Contains(n, "pabx") then 25000
    else if Contains(n, "acs") || Contains(n, "soyal") then 15000
    else if Contains(n, "ups") then 160000
    else 10000
  }

  /** Heuristic price once every exact lookup has missed. */
  function HeuristicPrice(a: Asset): (r: int)
    ensures r > 0
  {
    var name := CleanName(a);
    var model := CleanModel(a);
    var processor := CleanProcessor(a);
    if a.assetType == LaptopType then LaptopPrice(name, model, processor, a.purchaseType == "reconditioned")
    else if a.assetType == PCType then PCPrice(name, processor, a.gen)
    else if a.assetType == MonitorType then MonitorPrice(name, model)
    else if a.assetType == PrinterType then PrinterPrice(name, model)
    else if a.assetType == ServerRoomType then ServerRoomPrice(name, model)
    else DefaultPrice
  }

  /** `get_market_price`: never fails.  An unknown category costs the default
      price; otherwise an exact model key beats an exact name key, which
      beats the combined "name model" key, and the heuristics run only when
      all three miss.  With a positive table the price is positive. */
  function MarketPrice(table: PriceTable, a: Asset): (r: int)
    ensures a.assetType !in table ==> r == DefaultPrice
    ensures a.assetType in table && CleanModel(a) in table[a.assetType] ==>
              r == table[a.assetType][CleanModel(a)]
    ensures a.assetType in table && CleanModel(a) !in table[a.assetType]
            && CleanName(a) in table[a.assetType] ==>
              r == table[a.assetType][CleanName(a)]
    ensures a.assetType in table && CleanModel(a) !in table[a.assetType]
            && CleanName(a) !in table[a.assetType]
            && CombinedKey(CleanName(a), CleanModel(a)) in table[a.assetType] ==>
              r == table[a.assetType][CombinedKey(CleanName(a), CleanModel(a))]
    ensures a.assetType in table && CleanModel(a) !in table[a.assetType]
            && CleanName(a) !in table[a.assetType]
            && CombinedKey(CleanName(a), CleanModel(a)) !in table[a.assetType] ==>
              r == HeuristicPrice(a)
    ensures PositiveTable(table) ==> r > 0
  {
    if a.assetType !in table then DefaultPrice
    else
      match ExactPrice(table[a.assetType], CleanName(a), CleanModel(a))
      case Some(p) => p
      case None => HeuristicPrice(a)
  }

  /** In every laptop heuristic branch a reconditioned unit is priced strictly
      below a new one; both halves coincide only at the generic 60000. */
  lemma ReconditionedLaptopCheaper(name: string, model: string, processor: string)
    ensures LaptopPrice(name, model, processor, true) < LaptopPrice(name, model, processor, false)
            || (LaptopPrice(name, model, processor, true) == LaptopFallback
                && LaptopPrice(name, model, processor, false) == LaptopFallback)
    ensures LaptopPrice(name, model, processor, false) == LaptopFallback <==> LaptopTier(name, model, processor).None?
  {
  }

  /** A laptop whose processor is outside the i7/i5/i3 families and that is
      neither an HP EliteBook nor a Lenovo ThinkPad/X230 gets 60000. */
  lemma LaptopWithoutFamilyFallsThrough(name: string, model: string, processor: string, reconditioned: bool)
    requires !CoreFamily(processor)
    requires !Contains(Lower(name), "elite") && !Contains(Lower(model), "elite")
    requires !Contains(Lower(name), "thinkpad") && !Contains(Lower(model), "x230")
    ensures LaptopPrice(name, model, processor, reconditioned) == LaptopFallback
  {
  }

  /** The fixed desktop tiers. */
  lemma DesktopTiers(name: string, processor: string, gen: int)
    ensures ServerLike(name, processor) ==> PCPrice(name, processor, gen) == ServerPrice
    ensures !ServerLike(name, processor) && Contains(processor, "i9") ==>
              PCPrice(name, processor, gen) == (if gen >= 13 then 280000 else if gen >= 11 then 220000 else 180000)
    ensures !ServerLike(name, processor) && !Contains(processor, "i9") && !Contains(processor, "i5")
            && Contains(processor, "i3") ==>
              PCPrice(name, processor, gen) == (if gen >= 10 then 55000 else 35000)
    ensures !ServerLike(name, processor) && !Contains(processor, "i9") && !Contains(processor, "i5")
            && !Contains(processor, "i3") && !Contains(processor, "dual") ==>
              PCPrice(name, processor, gen) == DesktopFallback
  {
  }

  /** A newer generation never lowers a desktop's heuristic price. */
  lemma DesktopPriceMonotoneInGeneration(name: string, processor: string, g1: int, g2: int)
    requires g1 <= g2
    ensures PCPrice(name, processor, g1) <= PCPrice(name, processor, g2)
  {
  }

  /** A category present in the table but without heuristics falls back to the
      default price when every exact key misses. */
  lemma UnheuristicCategoryDefault(table: PriceTable, a: Asset)
    requires a.assetType in table
    requires a.assetType !in {LaptopType, PCType, MonitorType, PrinterType, ServerRoomType}
    requires ExactPrice(table[a.assetType], CleanName(a), CleanModel(a)).None?
    ensures MarketPrice(table, a) == DefaultPrice
  {
  }

  /** The price table of the inventory (prices in BDT), one map per category. */
  const LaptopPrices: map<string, int> := map[
    "DELL Inspiron 13 5310" := 115000,
    "Dell P106F" := 110000,
    "HP Probook 440 G4" := 95000,
    "HP 15s-fq5317TU" := 72500,
    "HP Probook 440 G8" := 85000,
    "Dell Inspiron 3511" := 75000,
    "Dell Inspiron 5410" := 78000,
    "Dell Inspiron 3493" := 65000,
    "HP 15s-fq2643TU" := 70000,
    "HP RTL8822CE" := 72500,
    "LENOVO V14-G2-ITL" := 48000,
    "HP 440-G4 recond" := 60000,
    "HP Elitbook 840 G3" := 48000,
    "HP 830 G5" := 55000,
    "HP Elitbook" := 45000,
    "HP HSN-112C" := 50000,
    "Lenovo X230" := 28000,
    "HP Laptop generic" := 45000,
    "DELL Latitute 3350" := 35000,
    "DELL inspiron 3542" := 32000,
    "HP 440-G2" := 30000,
    "ASUS generic" := 28000]

  const PCPrices: map<string, int> := map[
    "HP ProLiant DL380 Gen10 Plus" := 650000,
    "Desktop i9 Gen 13" := 280000,
    "Desktop i9 Gen 11" := 220000,
    "Desktop i5 Gen 10" := 85000,
    "Desktop i3 Gen 10" := 55000,
    "Desktop i3 Gen 4" := 35000,
    "HP ProDesk" := 75000,
    "Dell Optiplex 3020" := 45000]

  const MonitorPrices: map<string, int> := map[
    "HP M22f" := 15500,
    "ASUS VP229HE" := 15500,
    "Dell 52240Lc" := 12000,
    "Dell D1918Ho" := 10000,
    "Dell E170SC" := 6000,
    "Dell E1916HVF" := 10000,
    "Dell G2QR5D2" := 11000,
    "HP LV1911" := 9000,
    "SAMSUNG S19C300B" := 9500]

  const PrinterPrices: map<string, int> := map[
    "EPSON A3 C722B1" := 80000,
    "EPSON L3250" := 21000,
    "HP M26nw" := 32000,
    "HP M404dw" := 42000,
    "HP M402dn" := 22000,
    "PANTUM P3010DW" := 14000,
    "Canon F166500" := 16000,
    "Canon F166400" := 15000,
    "HP Laser 107w" := 11000,
    "SAMSUNG M2820ND" := 18000,
    "EPSON J371A scanner" := 12000,
    "Canon EUROPA scanner" := 10000]

  const ServerRoomPrices: map<string, int> := map[
    "MikroTik RB2011UiAS-RM" := 13000,
    "MikroTik CCR2004-16G-2S+" := 85000,
    "TP-Link TL-SG1024D" := 7500,
    "Cisco CBS350-24T-4G" := 33000,
    "TP-Link T1500G-10PS" := 18000,
    "KVM Switch 8-port" := 8000,
    "Hikvision DS-720BHGH1-F2" := 12000,
    "Hikvision DS-7216HQH1-K2" := 23000,
    "Patch Panel 24-port" := 3500,
    "Cable Manager" := 2000,
    "PBAX KX-Tes824BX" := 25000,
    "ACS Soyal AR-727CM-V3" := 15000,
    "UPS APC/SRCE6KUX1" := 115000,
    "UPS Battery 16 PCS" := 160000,
    "UPS generic" := 160000,
    "Switch generic" := 10000]

  const SourcePrices: PriceTable := map[
    LaptopType := LaptopPrices,
    PCType := PCPrices,
    MonitorType := MonitorPrices,
    PrinterType := PrinterPrices,
    ServerRoomType := ServerRoomPrices]

  predicate PositiveMap(m: map<string, int>)
  {
    forall key :: key in m ==> m[key] > 0
  }

  lemma LaptopPricesPositive() ensures PositiveMap(LaptopPrices) {}
  lemma PCPricesPositive() ensures PositiveMap(PCPrices) {}
  lemma MonitorPricesPositive() ensures PositiveMap(MonitorPrices) {}
  lemma PrinterPricesPositive() ensures PositiveMap(PrinterPrices) {}
  lemma ServerRoomPricesPositive() ensures PositiveMap(ServerRoomPrices) {}

  /** Every price in the inventory's table is positive. */
  lemma SourceTablePositive()
    ensures PositiveTable(SourcePrices)
  {
    forall cat | cat in SourcePrices
      ensures PositiveMap(SourcePrices[cat])
    {
      if cat == LaptopType { LaptopPricesPositive(); }
      else if cat == PCType { PCPricesPositive(); }
      else if cat == MonitorType { MonitorPricesPositive(); }
      else if cat == PrinterType { PrinterPricesPositive(); }
      else { ServerRoomPricesPositive(); }
    }
  }

  /** Every market price computed from the inventory's table is positive. */
  lemma SourcePricesPositive(a: Asset)
    ensures MarketPrice(SourcePrices, a) > 0
  {
    SourceTablePositive();
  }
}
