/**
 * The keys of the 10-K extractor's record.
 *
 * The record is a dictionary with 42 fixed string keys; here each key is a
 * constructor of `Field` and `Key` gives its spelling. `Rank` is the key's
 * position in the dictionary's insertion order, the order in which the
 * extraction loop visits the keys.
 */
module Fields {

  /** The record's keys, declared in the order `__init__` inserts them, which
      is also the order `get_form_data` visits them. */
  datatype Field =
    | AccountsPayableCurrent
    | AccountsReceivableNetCurrent
    | AccruedIncomeTaxesCurrent
    | AccruedIncomeTaxesNoncurrent
    | AccumulatedOtherComprehensiveIncomeLossNetOfTax
    | Assets
    | AssetsCurrent
    | AvailableForSaleSecuritiesCurrent
    | CashAndCashEquivalentsAtCarryingValue
    | CashCashEquivalentsAndShortTermInvestments
    | CommonStocksIncludingAdditionalPaidInCapital
    | ContractWithCustomerLiabilityCurrent
    | ContractWithCustomerLiabilityNoncurrent
    | DeferredRevenueCurrent
    | DeferredRevenueNoncurrent
    | DeferredTaxAssetsLiabilitiesNetCurrent
    | DeferredTaxLiabilitiesNoncurrent
    | DepositsReceivedForSecuritiesLoanedAtCarryingValue
    | EmployeeRelatedLiabilitiesCurrent
    | FiniteLivedIntangibleAssetsNet
    | FilingType
    | FilingYear
    | Goodwill
    | InventoryNet
    | Liabilities
    | LiabilitiesAndStockholdersEquity
    | LiabilitiesCurrent
    | LongTermDebtCurrent
    | LongTermDebtNoncurrent
    | LongTermInvestments
    | OperatingLeaseLiabilityNoncurrent
    | OperatingLeaseRightOfUseAsset
    | OtherAssetsCurrent
    | OtherAssetsNoncurrent
    | OtherLiabilitiesCurrent
    | OtherLiabilitiesNoncurrent
    | PropertyPlantAndEquipmentNet
    | RetainedEarningsAccumulatedDeficit
    | ShortTermBorrowings
    | ShortTermInvestments
    | StockholdersEquity
    | Ticker

  /** The dictionary key of each field; a tag named `us-gaap:<key>` carries its value. */
  function Key(f: Field): string {
    match f
    case AccountsPayableCurrent => "accountspayablecurrent"
    case AccountsReceivableNetCurrent => "accountsreceivablenetcurrent"
    case AccruedIncomeTaxesCurrent => "accruedincometaxescurrent"
    case AccruedIncomeTaxesNoncurrent => "accruedincometaxesnoncurrent"
    case AccumulatedOtherComprehensiveIncomeLossNetOfTax => "accumulatedothercomprehensiveincomelossnetoftax"
    case Assets => "assets"
    case AssetsCurrent => "assetscurrent"
    case AvailableForSaleSecuritiesCurrent => "availableforsalesecuritiescurrent"
    case CashAndCashEquivalentsAtCarryingValue => "cashandcashequivalentsatcarryingvalue"
    case CashCashEquivalentsAndShortTermInvestments => "cashcashequivalentsandshortterminvestments"
    case CommonStocksIncludingAdditionalPaidInCapital => "commonstocksincludingadditionalpaidincapital"
    case ContractWithCustomerLiabilityCurrent => "contractwithcustomerliabilitycurrent"
    case ContractWithCustomerLiabilityNoncurrent => "contractwithcustomerliabilitynoncurrent"
    case DeferredRevenueCurrent => "deferredrevenuecurrent"
    case DeferredRevenueNoncurrent => "deferredrevenuenoncurrent"
    case DeferredTaxAssetsLiabilitiesNetCurrent => "deferredtaxassetsliabilitiesnetcurrent"
    case DeferredTaxLiabilitiesNoncurrent => "deferredtaxliabilitiesnoncurrent"
    case DepositsReceivedForSecuritiesLoanedAtCarryingValue => "depositsreceivedforsecuritiesloanedatcarryingvalue"
    case EmployeeRelatedLiabilitiesCurrent => "employeerelatedliabilitiescurrent"
    case FiniteLivedIntangibleAssetsNet => "finitelivedintangibleassetsnet"
    case FilingType => "filing-type"
    case FilingYear => "filing-year"
    case Goodwill => "goodwill"
    case InventoryNet => "inventorynet"
    case Liabilities => "liabilities"
    case LiabilitiesAndStockholdersEquity => "liabilitiesandstockholdersequity"
    case LiabilitiesCurrent => "liabilitiescurrent"
    case LongTermDebtCurrent => "longtermdebtcurrent"
    case LongTermDebtNoncurrent => "longtermdebtnoncurrent"
    case LongTermInvestments => "longterminvestments"
    case OperatingLeaseLiabilityNoncurrent => "operatingleaseliabilitynoncurrent"
    case OperatingLeaseRightOfUseAsset => "operatingleaserightofuseasset"
    case OtherAssetsCurrent => "otherassetscurrent"
    case OtherAssetsNoncurrent => "otherassetsnoncurrent"
    case OtherLiabilitiesCurrent => "otherliabilitiescurrent"
    case OtherLiabilitiesNoncurrent => "otherliabilitiesnoncurrent"
    case PropertyPlantAndEquipmentNet => "propertyplantandequipmentnet"
    case RetainedEarningsAccumulatedDeficit => "retainedearningsaccumulateddeficit"
    case ShortTermBorrowings => "shorttermborrowings"
    case ShortTermInvestments => "shortterminvestments"
    case StockholdersEquity => "stockholdersequity"
    case Ticker => "ticker"
  }

  /** Position of a field in the dictionary's insertion order. */
  function Rank(f: Field): nat {
    match f
    case AccountsPayableCurrent => 0
    case AccountsReceivableNetCurrent => 1
    case AccruedIncomeTaxesCurrent => 2
    case AccruedIncomeTaxesNoncurrent => 3
    case AccumulatedOtherComprehensiveIncomeLossNetOfTax => 4
    case Assets => 5
    case AssetsCurrent => 6
    case AvailableForSaleSecuritiesCurrent => 7
    case CashAndCashEquivalentsAtCarryingValue => 8
    case CashCashEquivalentsAndShortTermInvestments => 9
    case CommonStocksIncludingAdditionalPaidInCapital => 10
    case ContractWithCustomerLiabilityCurrent => 11
    case ContractWithCustomerLiabilityNoncurrent => 12
    case DeferredRevenueCurrent => 13
    case DeferredRevenueNoncurrent => 14
    case DeferredTaxAssetsLiabilitiesNetCurrent => 15
    case DeferredTaxLiabilitiesNoncurrent => 16
    case DepositsReceivedForSecuritiesLoanedAtCarryingValue => 17
    case EmployeeRelatedLiabilitiesCurrent => 18
    case FiniteLivedIntangibleAssetsNet => 19
    case FilingType => 20
    case FilingYear => 21
    case Goodwill => 22
    case InventoryNet => 23
    case Liabilities => 24
    case LiabilitiesAndStockholdersEquity => 25
    case LiabilitiesCurrent => 26
    case LongTermDebtCurrent => 27
    case LongTermDebtNoncurrent => 28
    case LongTermInvestments => 29
    case OperatingLeaseLiabilityNoncurrent => 30
    case OperatingLeaseRightOfUseAsset => 31
    case OtherAssetsCurrent => 32
    case OtherAssetsNoncurrent => 33
    case OtherLiabilitiesCurrent => 34
    case OtherLiabilitiesNoncurrent => 35
    case PropertyPlantAndEquipmentNet => 36
    case RetainedEarningsAccumulatedDeficit => 37
    case ShortTermBorrowings => 38
    case ShortTermInvestments => 39
    case StockholdersEquity => 40
    case Ticker => 41
  }

  /** The field at a position of the insertion order. */
  function FieldAt(n: nat): Field
    requires n < FieldCount
  {
    match n
    case 0 => AccountsPayableCurrent
    case 1 => AccountsReceivableNetCurrent
    case 2 => AccruedIncomeTaxesCurrent
    case 3 => AccruedIncomeTaxesNoncurrent
    case 4 => AccumulatedOtherComprehensiveIncomeLossNetOfTax
    case 5 => Assets
    case 6 => AssetsCurrent
    case 7 => AvailableForSaleSecuritiesCurrent
    case 8 => CashAndCashEquivalentsAtCarryingValue
    case 9 => CashCashEquivalentsAndShortTermInvestments
    case 10 => CommonStocksIncludingAdditionalPaidInCapital
    case 11 => ContractWithCustomerLiabilityCurrent
    case 12 => ContractWithCustomerLiabilityNoncurrent
    case 13 => DeferredRevenueCurrent
    case 14 => DeferredRevenueNoncurrent
    case 15 => DeferredTaxAssetsLiabilitiesNetCurrent
    case 16 => DeferredTaxLiabilitiesNoncurrent
    case 17 => DepositsReceivedForSecuritiesLoanedAtCarryingValue
    case 18 => EmployeeRelatedLiabilitiesCurrent
    case 19 => FiniteLivedIntangibleAssetsNet
    case 20 => FilingType
    case 21 => FilingYear
    case 22 => Goodwill
    case 23 => InventoryNet
    case 24 => Liabilities
    case 25 => LiabilitiesAndStockholdersEquity
    case 26 => LiabilitiesCurrent
    case 27 => LongTermDebtCurrent
    case 28 => LongTermDebtNoncurrent
    case 29 => LongTermInvestments
    case 30 => OperatingLeaseLiabilityNoncurrent
    case 31 => OperatingLeaseRightOfUseAsset
    case 32 => OtherAssetsCurrent
    case 33 => OtherAssetsNoncurrent
    case 34 => OtherLiabilitiesCurrent
    case 35 => OtherLiabilitiesNoncurrent
    case 36 => PropertyPlantAndEquipmentNet
    case 37 => RetainedEarningsAccumulatedDeficit
    case 38 => ShortTermBorrowings
    case 39 => ShortTermInvestments
    case 40 => StockholdersEquity
    case _ => Ticker
  }

  const AllFields: set<Field> := {
    AccountsPayableCurrent,
    AccountsReceivableNetCurrent,
    AccruedIncomeTaxesCurrent,
    AccruedIncomeTaxesNoncurrent,
    AccumulatedOtherComprehensiveIncomeLossNetOfTax,
    Assets,
    AssetsCurrent,
    AvailableForSaleSecuritiesCurrent,
    CashAndCashEquivalentsAtCarryingValue,
    CashCashEquivalentsAndShortTermInvestments,
    CommonStocksIncludingAdditionalPaidInCapital,
    ContractWithCustomerLiabilityCurrent,
    ContractWithCustomerLiabilityNoncurrent,
    DeferredRevenueCurrent,
    DeferredRevenueNoncurrent,
    DeferredTaxAssetsLiabilitiesNetCurrent,
    DeferredTaxLiabilitiesNoncurrent,
    DepositsReceivedForSecuritiesLoanedAtCarryingValue,
    EmployeeRelatedLiabilitiesCurrent,
    FiniteLivedIntangibleAssetsNet,
    FilingType,
    FilingYear,
    Goodwill,
    InventoryNet,
    Liabilities,
    LiabilitiesAndStockholdersEquity,
    LiabilitiesCurrent,
    LongTermDebtCurrent,
    LongTermDebtNoncurrent,
    LongTermInvestments,
    OperatingLeaseLiabilityNoncurrent,
    OperatingLeaseRightOfUseAsset,
    OtherAssetsCurrent,
    OtherAssetsNoncurrent,
    OtherLiabilitiesCurrent,
    OtherLiabilitiesNoncurrent,
    PropertyPlantAndEquipmentNet,
    RetainedEarningsAccumulatedDeficit,
    ShortTermBorrowings,
    ShortTermInvestments,
    StockholdersEquity,
    Ticker
  }

  /** Number of keys in the record. */
  const FieldCount: nat := 42

  lemma RankFieldAt(n: nat)
    requires n < FieldCount
    ensures Rank(FieldAt(n)) == n
  {
  }

  /** `Rank` and `FieldAt` are inverse: each position holds exactly one field. */
  lemma FieldAtRank(f: Field)
    ensures Rank(f) < FieldCount
    ensures FieldAt(Rank(f)) == f
  {
    match f
    case AccountsPayableCurrent =>
    case AccountsReceivableNetCurrent =>
    case AccruedIncomeTaxesCurrent =>
    case AccruedIncomeTaxesNoncurrent =>
    case AccumulatedOtherComprehensiveIncomeLossNetOfTax =>
    case Assets =>
    case AssetsCurrent =>
    case AvailableForSaleSecuritiesCurrent =>
    case CashAndCashEquivalentsAtCarryingValue =>
    case CashCashEquivalentsAndShortTermInvestments =>
    case CommonStocksIncludingAdditionalPaidInCapital =>
    case ContractWithCustomerLiabilityCurrent =>
    case ContractWithCustomerLiabilityNoncurrent =>
    case DeferredRevenueCurrent =>
    case DeferredRevenueNoncurrent =>
    case DeferredTaxAssetsLiabilitiesNetCurrent =>
    case DeferredTaxLiabilitiesNoncurrent =>
    case DepositsReceivedForSecuritiesLoanedAtCarryingValue =>
    case EmployeeRelatedLiabilitiesCurrent =>
    case FiniteLivedIntangibleAssetsNet =>
    case FilingType =>
    case FilingYear =>
    case Goodwill =>
    case InventoryNet =>
    case Liabilities =>
    case LiabilitiesAndStockholdersEquity =>
    case LiabilitiesCurrent =>
    case LongTermDebtCurrent =>
    case LongTermDebtNoncurrent =>
    case LongTermInvestments =>
    case OperatingLeaseLiabilityNoncurrent =>
    case OperatingLeaseRightOfUseAsset =>
    case OtherAssetsCurrent =>
    case OtherAssetsNoncurrent =>
    case OtherLiabilitiesCurrent =>
    case OtherLiabilitiesNoncurrent =>
    case PropertyPlantAndEquipmentNet =>
    case RetainedEarningsAccumulatedDeficit =>
    case ShortTermBorrowings =>
    case ShortTermInvestments =>
    case StockholdersEquity =>
    case Ticker =>
  }

  lemma InAllFields(f: Field)
    ensures f in AllFields
  {
  }

  /** The fields in the first `n` positions. */
  ghost function Below(n: nat): set<Field> {
    set f | f in AllFields && Rank(f) < n
  }

  lemma {:induction false} BelowCount(n: nat)
    requires n <= FieldCount
    ensures |Below(n)| == n
  {
    if n == 0 {
      assert Below(0) == {};
    } else {
      BelowCount(n - 1);
      BelowStep(n);
    }
  }

  /** Position `n - 1` adds exactly one field to the first `n - 1`. */
  lemma BelowStep(n: nat)
    requires 0 < n <= FieldCount
    ensures FieldAt(n - 1) !in Below(n - 1)
    ensures Below(n) == Below(n - 1) + {FieldAt(n - 1)}
  {
    var g := FieldAt(n - 1);
    RankFieldAt(n - 1);
    InAllFields(g);
    forall f | f in Below(n)
      ensures f in Below(n - 1) + {g}
    {
      if Rank(f) == n - 1 {
        FieldAtRank(f);
      }
    }
  }

  /** The record has exactly 42 distinct keys. */
  lemma FieldsCount()
    ensures |AllFields| == FieldCount
  {
    BelowCount(FieldCount);
    forall f | f in AllFields
      ensures Rank(f) < FieldCount
    {
      FieldAtRank(f);
    }
    assert Below(FieldCount) == AllFields;
  }

  /** The keys in insertion order: the order the extraction loop visits them. */
  function Order(): (keys: seq<Field>)
    ensures |keys| == FieldCount
    ensures forall n | 0 <= n < FieldCount :: keys[n] == FieldAt(n)
  {
    seq(FieldCount, (n: int) requires 0 <= n < FieldCount => FieldAt(n))
  }

  /** No key occurs twice in `keys`. */
  predicate Distinct(keys: seq<Field>) {
    forall i, j | 0 <= i < j < |keys| :: keys[i] != keys[j]
  }

  /** The insertion order lists every key exactly once. */
  lemma OrderLists()
    ensures |Order()| == FieldCount
    ensures Distinct(Order())
    ensures forall f: Field :: f in Order()
  {
    forall i, j | 0 <= i < j < |Order()|
      ensures Order()[i] != Order()[j]
    {
      RankFieldAt(i);
      RankFieldAt(j);
    }
    forall f: Field
      ensures f in Order()
    {
      FieldAtRank(f);
      assert Order()[Rank(f)] == f;
    }
  }

  /** The three keys that hold filing metadata; the other 39 name balance-sheet concepts. */
  predicate IsMetadata(f: Field) {
    f == FilingType || f == FilingYear || f == Ticker
  }
}
