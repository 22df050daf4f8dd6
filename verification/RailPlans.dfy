/** Readiness of the EVM payment rails, and the exact seller/fee split a ready rail is charged by. */
module RailPlans {
  import opened Wrappers
  import opened Text
  import opened Lists
  import opened Decimal
  import opened FeePolicy

  datatype Console = Console(paymentsEnabled: bool, profile: Profile, policy: Policy)

  /** The operator's settings, already read from the process environment. */
  datatype Settings = Settings(
    facilitatorUrls: map<Rail, string>,
    baseCdpCredentials: bool,
    escrowContracts: map<Rail, string>,
    reserveReleaseEnabled: set<Rail>,
    minPaymentUsd: map<Rail, string>,
    minNetworkFeeUsd: string)

  datatype Gap =
    | Inactive | NoPayoutWallet | NoFixedPrice | NoReferencePrice | NoFacilitator
    | NoNetworkFloor | OwnerFeeOff | PriceNotAbove(feeUsd: string) | PriceBelow(minimumUsd: string)
    | NoEscrow | EscrowDisabled

  datatype SettlementModel = NoSettlement | ReserveReleaseWithFee | ReserveRelease | ExactFeeSplit | Exact

  datatype RailPlan = RailPlan(
    rail: Rail, assetDecimals: nat, amountUsd: Option<string>, payTo: Option<string>, facilitatorUrl: Option<string>,
    model: SettlementModel, ready: bool, missing: seq<Gap>)

  datatype Split = Split(protocolFeePayTo: string, feeBps: Bps, gross: string, seller: string, fee: string)

  datatype Plan = Plan(previews: seq<Preview>, rails: seq<RailPlan>)

  predicate IsEvm(rail: Rail) { rail != ZekoNative }

  function OperatorFacilitator(console: Console, rail: Rail): Option<string> {
    NonBlank(Lookup(console.profile.facilitatorUrls, rail))
  }

  function FacilitatorUrl(console: Console, settings: Settings, rail: Rail): Option<string> {
    var own := OperatorFacilitator(console, rail);
    if own.Some? then own else NonBlank(Lookup(settings.facilitatorUrls, rail))
  }

  function Escrow(console: Console, settings: Settings, rail: Rail): Option<string> {
    var own := NonBlank(Lookup(console.profile.escrowContracts, rail));
    if own.Some? then own else NonBlank(Lookup(settings.escrowContracts, rail))
  }

  /** The agent's own text wins unless it is blank; then the operator's counts, unless that is blank too. */
  ghost predicate OwnFirst(r: Option<string>, own: Option<string>, other: Option<string>) {
    && (own.Some? && Trim(own.value) != "" ==> r == Some(Trim(own.value)))
    && (own.None? || Trim(own.value) == "" ==>
          && (other.Some? && Trim(other.value) != "" ==> r == Some(Trim(other.value)))
          && (other.None? || Trim(other.value) == "" ==> r == None))
  }

  lemma OwnSettingsFirst(console: Console, settings: Settings, rail: Rail)
    ensures var own, other := Lookup(console.profile.facilitatorUrls, rail), Lookup(settings.facilitatorUrls, rail);
            OwnFirst(FacilitatorUrl(console, settings, rail), own, other)
    ensures var own, other := Lookup(console.profile.escrowContracts, rail), Lookup(settings.escrowContracts, rail);
            OwnFirst(Escrow(console, settings, rail), own, other)
  {
    hide Trim;
  }

  /** Base may also settle through CDP credentials, but not when an upfront payment has to be split. */
  predicate FacilitatorConfigured(console: Console, settings: Settings, rail: Rail) {
    || FacilitatorUrl(console, settings, rail).Some?
    || (rail == BaseUsdc && settings.baseCdpCredentials
        && (!AppliesToRail(console.policy, rail) || console.profile.settleOnProof))
  }

  /** SantaClawz, not the agent's operator, facilitates an upfront payment. */
  predicate Hosted(console: Console, settings: Settings, rail: Rail) {
    && OperatorFacilitator(console, rail).None?
    && FacilitatorConfigured(console, settings, rail)
    && !console.profile.settleOnProof
  }

  predicate Given(texts: map<Rail, string>, rail: Rail) {
    rail in texts && Trim(texts[rail]) != ""
  }

  /**
   When somebody facilitates, and when it is SantaClawz: no address of the agent's own, payment upfront, and an address
   of the operator's, or credentials on Base where no fee has to be split off.
   */
  lemma FacilitationMeans(console: Console, settings: Settings, rail: Rail)
    ensures var own, other := Given(console.profile.facilitatorUrls, rail), Given(settings.facilitatorUrls, rail);
            var covered := console.policy.enabled && console.policy.marketplace
                           && rail in console.policy.recipients && console.policy.recipients[rail] != "";
            var onProof := console.profile.settleOnProof;
            var credentials := rail == BaseUsdc && settings.baseCdpCredentials;
            && (FacilitatorConfigured(console, settings, rail) <==>
                own || other || (credentials && (onProof || !covered)))
            && (Hosted(console, settings, rail) <==> !own && !onProof && (other || (credentials && !covered)))
  {
    hide Trim;
  }

  /** A hosted fixed price must be covered: silent when the price does not parse. */
  predicate FloorMet(console: Console, settings: Settings, rail: Rail, networkFee: Option<string>, hosted: bool) {
    hosted && console.profile.pricingMode.FixedExact? ==>
      var network := ParseUsd(networkFee);
      var price := ParseUsd(console.profile.fixedAmountUsd);
      var minimum := ParseUsd(NonBlank(Lookup(settings.minPaymentUsd, rail)));
      && network.Some?
      && (price.Some? ==>
            && AppliesToRail(console.policy, rail)
            && console.policy.feeBps > 0
            && price.value > EffectiveFee(price.value, console.policy.feeBps, network)
            && (minimum.Some? ==> price.value >= minimum.value))
  }

  /** Everything an EVM rail needs before it may ask for money. */
  predicate Ready(console: Console, settings: Settings, rail: Rail, networkFee: Option<string>) {
    var profile := console.profile;
    && console.paymentsEnabled
    && profile.active
    && !profile.pricingMode.FreeTest? && !profile.pricingMode.QuoteRequired?
    && (profile.pricingMode.FixedExact? ==> NonBlank(profile.fixedAmountUsd).Some?)
    && PayoutWallet(profile, rail).Some?
    && FacilitatorConfigured(console, settings, rail)
    && FloorMet(console, settings, rail, networkFee, Hosted(console, settings, rail))
    && (profile.settleOnProof ==> Escrow(console, settings, rail).Some? && rail in settings.reserveReleaseEnabled)
  }

  // What a plan lists as missing

  function PricingGaps(profile: Profile): seq<Gap> {
    if profile.pricingMode.FixedExact? && NonBlank(profile.fixedAmountUsd).None? then [NoFixedPrice]
    else if profile.pricingMode.QuoteRequired? && NonBlank(profile.referencePriceUsd).None? then [NoReferencePrice]
    else []
  }

  function FloorGaps(
      console: Console, settings: Settings, rail: Rail, networkFee: Option<string>, hosted: bool): seq<Gap>
  {
    var network, price := ParseUsd(networkFee), ParseUsd(console.profile.fixedAmountUsd);
    if !hosted || !console.profile.pricingMode.FixedExact? then []
    else if network.None? then [NoNetworkFloor]
    else if price.None? then []
    else if !AppliesToRail(console.policy, rail) || console.policy.feeBps == 0 then [OwnerFeeOff]
    else
      var fee := EffectiveFee(price.value, console.policy.feeBps, network);
      var minimum := ParseUsd(NonBlank(Lookup(settings.minPaymentUsd, rail)));
      (if price.value <= fee then [PriceNotAbove(FormatUsd(fee, 2))] else [])
      + (if minimum.Some? && price.value < minimum.value then [PriceBelow(FormatUsd(minimum.value, 2))] else [])
  }

  /** What is missing before facilitation is looked at. */
  function ListingGaps(profile: Profile, rail: Rail): seq<Gap> {
    PushWhen(PushWhen([], !profile.active, Inactive), PayoutWallet(profile, rail).None?, NoPayoutWallet)
    + PricingGaps(profile)
  }

  function FacilitationGaps(console: Console, settings: Settings, rail: Rail, networkFee: Option<string>): seq<Gap> {
    PushWhen(ListingGaps(console.profile, rail), !FacilitatorConfigured(console, settings, rail), NoFacilitator)
    + FloorGaps(console, settings, rail, networkFee, Hosted(console, settings, rail))
  }

  function Gaps(console: Console, settings: Settings, rail: Rail, networkFee: Option<string>): seq<Gap> {
    var onProof := console.profile.settleOnProof;
    if console.profile.pricingMode.FreeTest? then PushWhen([], !console.profile.active, Inactive)
    else
      var listed := FacilitationGaps(console, settings, rail, networkFee);
      var escrowed := PushWhen(listed, onProof && Escrow(console, settings, rail).None?, NoEscrow);
      PushWhen(escrowed, onProof && rail !in settings.reserveReleaseEnabled, EscrowDisabled)
  }

  function Model(console: Console, rail: Rail): SettlementModel {
    var applies := AppliesToRail(console.policy, rail);
    if console.profile.settleOnProof then (if applies then ReserveReleaseWithFee else ReserveRelease)
    else if applies then ExactFeeSplit else Exact
  }

  /** The price handed out: only a fixed one that is set. */
  function AmountUsd(profile: Profile): Option<string> {
    if profile.pricingMode.FixedExact? && NonBlank(profile.fixedAmountUsd).Some? then profile.fixedAmountUsd else None
  }

  /** The plan of an EVM rail, the same for both rails but for the credentials only Base may use. */
  function PlanFor(console: Console, settings: Settings, rail: Rail, networkFee: Option<string>): RailPlan {
    var profile, missing := console.profile, Gaps(console, settings, rail, networkFee);
    if profile.pricingMode.FreeTest? then RailPlan(rail, 6, None, None, None, NoSettlement, false, missing)
    else
      RailPlan(
        rail, 6, AmountUsd(profile), PayoutWallet(profile, rail), FacilitatorUrl(console, settings, rail),
        Model(console, rail), console.paymentsEnabled && missing == [] && !profile.pricingMode.QuoteRequired?, missing)
  }

  lemma FloorGapsIff(console: Console, settings: Settings, rail: Rail, networkFee: Option<string>, hosted: bool)
    ensures FloorGaps(console, settings, rail, networkFee, hosted) == [] <==>
            FloorMet(console, settings, rail, networkFee, hosted)
  {
    hide ParseUsd, FormatUsd, NonBlank, BpsFee, AppliesToRail, EffectiveFee;
  }

  /** The items that only a hosted fixed price can lack, each named exactly when it is lacking. */
  lemma FloorLists(console: Console, settings: Settings, rail: Rail, networkFee: Option<string>, hosted: bool, gap: Gap)
    ensures var network, price := ParseUsd(networkFee), ParseUsd(console.profile.fixedAmountUsd);
            var covered := AppliesToRail(console.policy, rail) && console.policy.feeBps > 0;
            var minimum := ParseUsd(NonBlank(Lookup(settings.minPaymentUsd, rail)));
            gap in FloorGaps(console, settings, rail, networkFee, hosted) <==>
              && hosted && console.profile.pricingMode.FixedExact?
              && match gap {
                   case NoNetworkFloor => network.None?
                   case OwnerFeeOff => network.Some? && price.Some? && !covered
                   case PriceNotAbove(feeUsd) =>
                     && network.Some? && price.Some? && covered
                     && price.value <= EffectiveFee(price.value, console.policy.feeBps, network)
                     && feeUsd == FormatUsd(EffectiveFee(price.value, console.policy.feeBps, network), 2)
                   case PriceBelow(minimumUsd) =>
                     && network.Some? && price.Some? && covered && minimum.Some? && price.value < minimum.value
                     && minimumUsd == FormatUsd(minimum.value, 2)
                   case _ => false
                 }
  {
    hide ParseUsd, FormatUsd, NonBlank, AppliesToRail, EffectiveFee;
  }

  lemma GapsList(console: Console, settings: Settings, rail: Rail, networkFee: Option<string>, gap: Gap)
    requires !console.profile.pricingMode.FreeTest?
    ensures var profile, onProof := console.profile, console.profile.settleOnProof;
            gap in Gaps(console, settings, rail, networkFee) <==>
              || (gap == Inactive && !profile.active)
              || (gap == NoPayoutWallet && PayoutWallet(profile, rail).None?)
              || gap in PricingGaps(profile)
              || (gap == NoFacilitator && !FacilitatorConfigured(console, settings, rail))
              || gap in FloorGaps(console, settings, rail, networkFee, Hosted(console, settings, rail))
              || (gap == NoEscrow && onProof && Escrow(console, settings, rail).None?)
              || (gap == EscrowDisabled && onProof && rail !in settings.reserveReleaseEnabled)
  {
    hide FloorGaps, FacilitatorConfigured, Hosted, PushWhen, PricingGaps, PayoutWallet, Escrow;
    var profile, onProof := console.profile, console.profile.settleOnProof;
    var escrow := Escrow(console, settings, rail);
    var activity := PushWhen([], !profile.active, Inactive);
    var listed := FacilitationGaps(console, settings, rail, networkFee);
    Pushed([], !profile.active, Inactive, gap);
    Pushed(activity, PayoutWallet(profile, rail).None?, NoPayoutWallet, gap);
    Pushed(ListingGaps(profile, rail), !FacilitatorConfigured(console, settings, rail), NoFacilitator, gap);
    Pushed(listed, onProof && escrow.None?, NoEscrow, gap);
    Pushed(PushWhen(listed, onProof && escrow.None?, NoEscrow), onProof && rail !in settings.reserveReleaseEnabled,
           EscrowDisabled, gap);
  }

  /** What a plan lists as missing, item by item: a free test rail can only be inactive. */
  lemma PlanLists(console: Console, settings: Settings, rail: Rail, networkFee: Option<string>, gap: Gap)
    ensures var profile := console.profile;
            var charged, onProof := !profile.pricingMode.FreeTest?, profile.settleOnProof;
            gap in PlanFor(console, settings, rail, networkFee).missing <==>
              match gap {
                case Inactive => !profile.active
                case NoPayoutWallet => charged && !Given(profile.payoutWallets, rail)
                case NoFixedPrice =>
                  && profile.pricingMode.FixedExact?
                  && !(profile.fixedAmountUsd.Some? && Trim(profile.fixedAmountUsd.value) != "")
                case NoReferencePrice =>
                  && profile.pricingMode.QuoteRequired?
                  && !(profile.referencePriceUsd.Some? && Trim(profile.referencePriceUsd.value) != "")
                case NoFacilitator => charged && !FacilitatorConfigured(console, settings, rail)
                case NoEscrow =>
                  && charged && onProof
                  && !Given(profile.escrowContracts, rail) && !Given(settings.escrowContracts, rail)
                case EscrowDisabled => charged && onProof && rail !in settings.reserveReleaseEnabled
                case _ => gap in FloorGaps(console, settings, rail, networkFee, Hosted(console, settings, rail))
              }
  {
    hide Trim, FloorGaps, FacilitatorConfigured, Hosted, FacilitatorUrl, Model, PushWhen, ListingGaps, AmountUsd;
    FloorLists(console, settings, rail, networkFee, Hosted(console, settings, rail), gap);
    if console.profile.pricingMode.FreeTest? {
      Pushed([], !console.profile.active, Inactive, gap);
    } else {
      GapsList(console, settings, rail, networkFee, gap);
    }
  }

  /** How a charged rail settles: behind an escrow on proof, otherwise exactly, the fee split off where it applies. */
  lemma PlanSettles(console: Console, settings: Settings, rail: Rail, networkFee: Option<string>)
    ensures var model := PlanFor(console, settings, rail, networkFee).model;
            var onProof := console.profile.settleOnProof;
            && (model == NoSettlement <==> console.profile.pricingMode.FreeTest?)
            && (model in {ReserveReleaseWithFee, ReserveRelease} <==> model != NoSettlement && onProof)
            && (model in {ReserveReleaseWithFee, ExactFeeSplit} <==>
                model != NoSettlement && AppliesToRail(console.policy, rail))
  {
    hide Gaps, NonBlank, AppliesToRail, FacilitatorUrl;
  }

  /** A rail asks for money exactly when everything it needs is there. */
  lemma PlanReadyIff(console: Console, settings: Settings, rail: Rail, networkFee: Option<string>)
    ensures PlanFor(console, settings, rail, networkFee).ready <==> Ready(console, settings, rail, networkFee)
  {
    hide FloorMet, FloorGaps, FacilitatorConfigured, Hosted, Escrow, FacilitatorUrl, Model, AppliesToRail, NonBlank;
    FloorGapsIff(console, settings, rail, networkFee, Hosted(console, settings, rail));
  }

  /** The list of missing items the plan builders hand around and append to. */
  class Report {
    var missing: seq<Gap>

    constructor ()
      ensures missing == []
    {
      missing := [];
    }

    method Push(gap: Gap)
      modifies this
      ensures missing == old(missing) + [gap]
    {
      missing := missing + [gap];
    }

    method PushIf(lacking: bool, gap: Gap)
      modifies this
      ensures missing == PushWhen(old(missing), lacking, gap)
    {
      if lacking {
        Push(gap);
      }
    }
  }

  method PushHostedFacilitatorFloor(
      console: Console, settings: Settings, rail: Rail, networkFee: Option<string>, hosted: bool, report: Report)
    modifies report
    ensures report.missing == old(report.missing) + FloorGaps(console, settings, rail, networkFee, hosted)
  {
    hide ParseUsd, FormatUsd, NonBlank, BpsFee, AppliesToRail;
    if !hosted || !console.profile.pricingMode.FixedExact? {
      return;
    }
    var minFee := ParseUsd(networkFee);
    var configuredMin := ParseUsd(NonBlank(Lookup(settings.minPaymentUsd, rail)));
    var amount := ParseUsd(console.profile.fixedAmountUsd);
    if minFee.None? {
      report.Push(NoNetworkFloor);
      return;
    }
    if amount.None? {
      return;
    }
    if !AppliesToRail(console.policy, rail) || console.policy.feeBps <= 0 {
      report.Push(OwnerFeeOff);
      return;
    }
    var generated := BpsFee(amount.value, console.policy.feeBps);
    var effective := if minFee.value > generated then minFee.value else generated;
    if amount.value <= effective {
      report.Push(PriceNotAbove(FormatUsd(effective, 2)));
    }
    if configuredMin.Some? && amount.value < configuredMin.value {
      report.Push(PriceBelow(FormatUsd(configuredMin.value, 2)));
    }
  }

  method PushPricingReadiness(profile: Profile, report: Report) returns (amountUsd: Option<string>)
    modifies report
    ensures report.missing == old(report.missing) + PricingGaps(profile)
    ensures amountUsd == AmountUsd(profile)
  {
    hide NonBlank;
    amountUsd := None;
    if profile.pricingMode.FixedExact? {
      if NonBlank(profile.fixedAmountUsd).None? {
        report.Push(NoFixedPrice);
      } else {
        amountUsd := profile.fixedAmountUsd;
      }
    } else if profile.pricingMode.QuoteRequired? && NonBlank(profile.referencePriceUsd).None? {
      report.Push(NoReferencePrice);
    }
  }

  method BuildBaseRailPlan(console: Console, settings: Settings, networkFee: Option<string>) returns (plan: RailPlan)
    ensures plan == PlanFor(console, settings, BaseUsdc, networkFee)
  {
    hide FloorGaps, PricingGaps, NonBlank, AppliesToRail, Escrow, PayoutWallet, OperatorFacilitator, FacilitatorUrl,
         PushWhen, Model, AmountUsd;
    var profile := console.profile;
    var report := new Report();
    var payTo := PayoutWallet(profile, BaseUsdc);
    var applies := AppliesToRail(console.policy, BaseUsdc);
    var onProof := profile.settleOnProof;
    var own := OperatorFacilitator(console, BaseUsdc);
    var url := FacilitatorUrl(console, settings, BaseUsdc);
    var configured := url.Some? || (settings.baseCdpCredentials && (!applies || onProof));
    var hosted := own.None? && configured && !onProof;
    assert configured == FacilitatorConfigured(console, settings, BaseUsdc);
    assert hosted == Hosted(console, settings, BaseUsdc);
    hide FacilitatorConfigured, Hosted;
    report.PushIf(!profile.active, Inactive);
    if profile.pricingMode.FreeTest? {
      return RailPlan(BaseUsdc, 6, None, None, None, NoSettlement, false, report.missing);
    }
    report.PushIf(payTo.None?, NoPayoutWallet);
    var amountUsd := PushPricingReadiness(profile, report);
    assert report.missing == ListingGaps(profile, BaseUsdc);
    hide ListingGaps;
    report.PushIf(!configured, NoFacilitator);
    PushHostedFacilitatorFloor(console, settings, BaseUsdc, networkFee, hosted, report);
    assert report.missing == FacilitationGaps(console, settings, BaseUsdc, networkFee);
    hide FacilitationGaps;
    report.PushIf(onProof && Escrow(console, settings, BaseUsdc).None?, NoEscrow);
    report.PushIf(onProof && BaseUsdc !in settings.reserveReleaseEnabled, EscrowDisabled);
    assert report.missing == Gaps(console, settings, BaseUsdc, networkFee);
    hide Gaps;
    plan := RailPlan(
      BaseUsdc, 6, amountUsd, payTo, url, Model(console, BaseUsdc),
      console.paymentsEnabled && |report.missing| == 0 && !profile.pricingMode.QuoteRequired?, report.missing);
  }

  method BuildEthereumRailPlan(console: Console, settings: Settings, networkFee: Option<string>)
    returns (plan: RailPlan)
    ensures plan == PlanFor(console, settings, EthereumUsdc, networkFee)
  {
    hide FloorGaps, PricingGaps, NonBlank, AppliesToRail, Escrow, PayoutWallet, OperatorFacilitator, FacilitatorUrl,
         PushWhen, Model, AmountUsd;
    var profile := console.profile;
    var report := new Report();
    var payTo := PayoutWallet(profile, EthereumUsdc);
    var onProof := profile.settleOnProof;
    var own := OperatorFacilitator(console, EthereumUsdc);
    var url := FacilitatorUrl(console, settings, EthereumUsdc);
    var configured := url.Some?;
    var hosted := own.None? && configured && !onProof;
    assert configured == FacilitatorConfigured(console, settings, EthereumUsdc);
    assert hosted == Hosted(console, settings, EthereumUsdc);
    hide FacilitatorConfigured, Hosted;
    report.PushIf(!profile.active, Inactive);
    if profile.pricingMode.FreeTest? {
      return RailPlan(EthereumUsdc, 6, None, None, None, NoSettlement, false, report.missing);
    }
    report.PushIf(payTo.None?, NoPayoutWallet);
    var amountUsd := PushPricingReadiness(profile, report);
    assert report.missing == ListingGaps(profile, EthereumUsdc);
    hide ListingGaps;
    report.PushIf(!configured, NoFacilitator);
    PushHostedFacilitatorFloor(console, settings, EthereumUsdc, networkFee, hosted, report);
    assert report.missing == FacilitationGaps(console, settings, EthereumUsdc, networkFee);
    hide FacilitationGaps;
    report.PushIf(onProof && Escrow(console, settings, EthereumUsdc).None?, NoEscrow);
    report.PushIf(onProof && EthereumUsdc !in settings.reserveReleaseEnabled, EscrowDisabled);
    assert report.missing == Gaps(console, settings, EthereumUsdc, networkFee);
    hide Gaps;
    plan := RailPlan(
      EthereumUsdc, 6, amountUsd, payTo, url, Model(console, EthereumUsdc),
      console.paymentsEnabled && |report.missing| == 0 && !profile.pricingMode.QuoteRequired?, report.missing);
  }

  // ---- the split ----

  function ExactSplit(preview: Option<Preview>): Option<Split> {
    if preview.None? || preview.value.protocolFeeRecipient == "" || preview.value.amounts.None? then None
    else
      var p, a := preview.value, preview.value.amounts.value;
      var gross, seller := ParseUsd(Some(a.grossUsd)), ParseUsd(Some(a.sellerNetUsd));
      var fee := ParseUsd(Some(a.protocolFeeUsd));
      if gross.None? || seller.None? || fee.None? || seller.value <= 0 || fee.value <= 0
         || seller.value + fee.value != gross.value
      then None
      else
        Some(Split(p.protocolFeeRecipient, p.feeBps, NatText(gross.value), NatText(seller.value), NatText(fee.value)))
  }

  /** The split's three strings are positive whole amounts that add up. */
  ghost predicate SplitAddsUp(s: Split) {
    && AllDigits(s.gross) && AllDigits(s.seller) && AllDigits(s.fee)
    && s.gross != "" && s.seller != "" && s.fee != ""
    && NatValue(s.seller) > 0 && NatValue(s.fee) > 0
    && NatValue(s.seller) + NatValue(s.fee) == NatValue(s.gross)
  }

  lemma ExactSplitAddsUp(preview: Option<Preview>)
    ensures var s := ExactSplit(preview); s.Some? ==> SplitAddsUp(s.value)
  {
    hide NatText, NatValue, ParseUsd;
  }

  /** A previewed rail has an exact split exactly when the fee is neither nothing nor everything. */
  lemma SplitIff(policy: Policy, profile: Profile, fees: map<Rail, string>, rail: Rail)
    requires RailPreview(policy, profile, fees, rail).Some?
    requires ParseUsd(GrossText(profile)).Some?
    ensures var gross := ParseUsd(GrossText(profile)).value;
            var fee := EffectiveFee(gross, policy.feeBps, ParseUsd(Lookup(fees, rail)));
            var split := ExactSplit(RailPreview(policy, profile, fees, rail));
            && (split.Some? <==> 0 < fee < gross)
            && (split.Some? ==> split.value.gross == NatText(gross) && split.value.fee == NatText(fee)
                                && split.value.seller == NatText(gross - fee))
  {
    hide ParseUsd, NonBlank, NatText, PreviewAmounts, BpsFee, EffectiveFee;
    var gross := ParseUsd(GrossText(profile)).value;
    AbsentUnparsed();
    PreviewConserves(GrossText(profile).value, gross, policy.feeBps, ParseUsd(Lookup(fees, rail)));
  }

  /** The price a fixed-price rail charges, when its text can be read. */
  function Price(profile: Profile): Option<nat> {
    ParseUsd(GrossText(profile))
  }

  function FeeTaken(console: Console, fees: map<Rail, string>, rail: Rail): Option<nat> {
    var price := Price(console.profile);
    if price.None? then None else Some(EffectiveFee(price.value, console.policy.feeBps, ParseUsd(Lookup(fees, rail))))
  }

  /**
   When ready means payable. On a ready rail that SantaClawz hosts, readiness and the preview agree on the fee through
   the strings between them: there is a split exactly when the price can be read and the fee is not zero. Its parts are
   positive and add up, and its gross is the amount the rail charges in token units.
   */
  lemma ReadyIsPayable(console: Console, settings: Settings, fees: map<Rail, string>, rail: Rail)
    requires IsEvm(rail) && rail in console.profile.supportedRails
    requires Ready(console, settings, rail, Lookup(fees, rail)) && Hosted(console, settings, rail)
    ensures var fee := FeeTaken(console, fees, rail);
            var split := ExactSplit(FindPreview(BuildPreviews(console.policy, console.profile, fees), rail));
            && (split.Some? <==> fee.Some? && fee.value != 0)
            && (split.Some? ==> SplitAddsUp(split.value) && split.value.fee == NatText(fee.value))
            && (split.Some? ==> RequireAssetAtomicAmount(console.profile.fixedAmountUsd, 6) == Ok(split.value.gross))
            && (split.Some? ==>
                  && rail in console.policy.recipients
                  && split.value.protocolFeePayTo == console.policy.recipients[rail]
                  && split.value.feeBps == console.policy.feeBps && AppliesToRail(console.policy, rail))
  {
    hide ParseUsd, NonBlank, NatText, NatValue, PreviewAmounts, BpsFee, EffectiveFee, RailPreviews;
    AbsentUnparsed();
    PriceOfFixed(console.profile);
    FindRailPreview(console.policy, console.profile, fees, console.profile.supportedRails, rail);
    if Price(console.profile).Some? {
      ReadyIsSplit(console, settings, fees, rail);
    } else {
      UnreadableHasNoSplit(console.policy, console.profile, fees, rail);
    }
  }

  lemma ReadyIsSplit(console: Console, settings: Settings, fees: map<Rail, string>, rail: Rail)
    requires IsEvm(rail) && Price(console.profile).Some?
    requires Ready(console, settings, rail, Lookup(fees, rail)) && Hosted(console, settings, rail)
    ensures var fee := FeeTaken(console, fees, rail).value;
            var preview := RailPreview(console.policy, console.profile, fees, rail);
            var split := ExactSplit(if console.policy.marketplace then preview else None);
            && (split.Some? <==> fee != 0)
            && (split.Some? ==> SplitAddsUp(split.value) && split.value.fee == NatText(fee))
            && (split.Some? ==> RequireAssetAtomicAmount(console.profile.fixedAmountUsd, 6) == Ok(split.value.gross))
            && (split.Some? ==>
                  && rail in console.policy.recipients
                  && split.value.protocolFeePayTo == console.policy.recipients[rail]
                  && split.value.feeBps == console.policy.feeBps && AppliesToRail(console.policy, rail))
  {
    hide ParseUsd, NonBlank, NatText, NatValue, PreviewAmounts, BpsFee, EffectiveFee, RailPreviews;
    AbsentUnparsed();
    PriceOfFixed(console.profile);
    SplitIff(console.policy, console.profile, fees, rail);
    SplitPayee(RailPreview(console.policy, console.profile, fees, rail));
    RailPreviewIff(console.policy, console.profile, fees, rail);
    ExactSplitAddsUp(RailPreview(console.policy, console.profile, fees, rail));
  }

  lemma SplitPayee(preview: Option<Preview>)
    ensures var split := ExactSplit(preview);
            split.Some? ==>
              && preview.Some? && split.value.protocolFeePayTo == preview.value.protocolFeeRecipient
              && split.value.feeBps == preview.value.feeBps
  {
    hide ParseUsd, NatText;
  }

  lemma UnreadableHasNoSplit(policy: Policy, profile: Profile, fees: map<Rail, string>, rail: Rail)
    requires Price(profile).None?
    ensures ExactSplit(RailPreview(policy, profile, fees, rail)).None?
  {
    hide ParseUsd, NonBlank, PreviewAmounts;
  }

  lemma PriceOfFixed(profile: Profile)
    ensures profile.pricingMode.FixedExact? ==> Price(profile) == ParseUsd(profile.fixedAmountUsd)
    ensures !profile.pricingMode.FixedExact? ==> Price(profile) == None
  {
    hide ParseUsd, NonBlank;
    AbsentUnparsed();
    TrimmedParsesAlike(profile.fixedAmountUsd);
  }

  lemma FeeOfFixed(console: Console, fees: map<Rail, string>, rail: Rail)
    ensures FeeTaken(console, fees, rail).Some? ==> console.profile.pricingMode.FixedExact?
  {
    hide ParseUsd, NonBlank;
    PriceOfFixed(console.profile);
  }

  /** A ready, hosted rail whose price cannot be read: the condition above is not empty. */
  lemma ReadyUnreadable(rail: Rail) returns (console: Console, settings: Settings, fees: map<Rail, string>)
    requires IsEvm(rail)
    ensures rail in console.profile.supportedRails && console.profile.pricingMode.FixedExact?
    ensures Ready(console, settings, rail, Lookup(fees, rail)) && Hosted(console, settings, rail)
    ensures console.profile.fixedAmountUsd == Some("$5") && Price(console.profile).None?
    ensures ExactSplit(FindPreview(BuildPreviews(console.policy, console.profile, fees), rail)).None?
  {
    hide ParseUsd, NonBlank, RailPreviews;
    DollarSign();
    PlainNonBlank();
    AbsentUnparsed();
    var profile := Profile(true, FixedExact, false, Some("$5"), None, map[rail := "0x1"], map[], map[], [rail]);
    console := Console(true, profile, Policy(true, 0, true, map[rail := "0x2"]));
    settings := Settings(map[rail := "0x3"], false, map[], {}, map[], "0");
    fees := map[rail := "0"];
    PriceOfFixed(profile);
    assert FloorMet(console, settings, rail, Lookup(fees, rail), true);
    ReadyIsPayable(console, settings, fees, rail);
  }

  lemma DollarSign()
    ensures ParseUsd(Some("$5")) == None && NonBlank(Some("$5")).Some? && ParseUsd(Some("0")).Some?
  {
    ParseWhole("0");
  }

  /** A rail that is ready, hosted, at a readable fixed price, with a fee to take. */
  ghost predicate ReadyAtPrice(console: Console, settings: Settings, fees: map<Rail, string>, rail: Rail) {
    && IsEvm(rail) && rail in console.profile.supportedRails
    && Ready(console, settings, rail, Lookup(fees, rail)) && Hosted(console, settings, rail)
    && FeeTaken(console, fees, rail).Some? && FeeTaken(console, fees, rail).value != 0
  }

  /** Ready at this price, this rate and this network fee. */
  ghost predicate ReadyWith(
      console: Console, settings: Settings, fees: map<Rail, string>, rail: Rail, price: nat, bps: Bps, network: nat)
  {
    && ReadyAtPrice(console, settings, fees, rail)
    && Price(console.profile) == Some(price) && console.policy.feeBps == bps
    && ParseUsd(Lookup(fees, rail)) == Some(network)
  }

  lemma ReadyLeavesProceeds(
      console: Console, settings: Settings, fees: map<Rail, string>, rail: Rail, price: nat, bps: Bps, network: nat)
    requires ReadyWith(console, settings, fees, rail, price, bps, network)
    ensures bps > 0 && 0 < EffectiveFee(price, bps, Some(network)) < price
  {
    hide ParseUsd, BpsFee, NonBlank, FacilitatorConfigured, AppliesToRail, EffectiveFee;
    PriceOfFixed(console.profile);
  }

  lemma FloorCovered(
      console: Console, settings: Settings, rail: Rail, networkFee: Option<string>, price: nat, network: nat)
    requires ParseUsd(networkFee) == Some(network) && ParseUsd(console.profile.fixedAmountUsd) == Some(price)
    requires AppliesToRail(console.policy, rail) && console.policy.feeBps > 0
    requires EffectiveFee(price, console.policy.feeBps, Some(network)) < price
    requires ParseUsd(NonBlank(Lookup(settings.minPaymentUsd, rail))).None?
    ensures FloorMet(console, settings, rail, networkFee, true)
  {
    hide ParseUsd, NonBlank, EffectiveFee, AppliesToRail;
  }

  lemma PriceCanBeReady(rail: Rail, price: nat, bps: Bps, network: nat)
    returns (console: Console, settings: Settings, fees: map<Rail, string>)
    requires IsEvm(rail) && bps > 0 && 0 < EffectiveFee(price, bps, Some(network)) < price
    ensures ReadyWith(console, settings, fees, rail, price, bps, network)
  {
    hide ParseUsd, FormatUsd, BpsFee, NonBlank, EffectiveFee, FloorMet;
    ParseFormat(price, 0);
    ParseFormat(network, 0);
    AbsentUnparsed();
    TrimmedParsesAlike(Some(FormatUsd(price, 0)));
    PlainNonBlank();
    var fixed := Some(FormatUsd(price, 0));
    var profile := Profile(true, FixedExact, false, fixed, None, map[rail := "0x1"], map[], map[], [rail]);
    console := Console(true, profile, Policy(true, bps, true, map[rail := "0x2"]));
    settings := Settings(map[rail := "0x3"], false, map[], {}, map[], "0");
    fees := map[rail := FormatUsd(network, 0)];
    assert Hosted(console, settings, rail) && AppliesToRail(console.policy, rail);
    assert FacilitatorConfigured(console, settings, rail);
    hide Hosted, AppliesToRail, FacilitatorConfigured;
    FloorCovered(console, settings, rail, Lookup(fees, rail), price, network);
  }

  /**
   Some hosted rail is ready at a price exactly when the rate is set and the fee is something but less than the price.
   */
  lemma ReadyPrices(rail: Rail, price: nat, bps: Bps, network: nat)
    requires IsEvm(rail)
    ensures (exists console: Console, settings: Settings, fees: map<Rail, string> ::
               ReadyWith(console, settings, fees, rail, price, bps, network)) <==>
            bps > 0 && 0 < EffectiveFee(price, bps, Some(network)) < price
  {
    hide ReadyWith, EffectiveFee;
    forall console: Console, settings: Settings, fees: map<Rail, string> |
      ReadyWith(console, settings, fees, rail, price, bps, network)
      ensures bps > 0 && 0 < EffectiveFee(price, bps, Some(network)) < price
    {
      ReadyLeavesProceeds(console, settings, fees, rail, price, bps, network);
    }
    if bps > 0 && 0 < EffectiveFee(price, bps, Some(network)) < price {
      var console, settings, fees := PriceCanBeReady(rail, price, bps, network);
    }
  }

  lemma PlainNonBlank()
    ensures NonBlank(Some("0x1")).Some? && NonBlank(Some("0x3")).Some? && NonBlank(None).None?
  {
  }

  lemma TrimmedParsesAlike(text: Option<string>)
    ensures ParseUsd(NonBlank(text)) == ParseUsd(text)
  {
    hide TrimBy;
  }

  /** One fee map feeds both the previews and the rail plans, so a ready hosted rail is payable in the plan itself. */
  method BuildPlan(console: Console, settings: Settings, estimates: map<Rail, string>)
      returns (plan: Plan, fees: map<Rail, string>)
    ensures forall rail :: rail in estimates ==> rail in fees && fees[rail] == estimates[rail]
    ensures forall rail :: IsEvm(rail) && rail in console.profile.supportedRails && rail !in estimates ==>
              Lookup(fees, rail) == Floor(settings.minNetworkFeeUsd)
    ensures plan.previews == BuildPreviews(console.policy, console.profile, fees)
    ensures forall rail :: IsEvm(rail) && rail in console.profile.supportedRails ==>
              exists p :: p in plan.rails && p.rail == rail
    ensures forall p :: p in plan.rails ==>
              && IsEvm(p.rail) && p.rail in console.profile.supportedRails
              && p == PlanFor(console, settings, p.rail, Lookup(fees, p.rail))
    ensures forall p :: p in plan.rails && p.ready && Hosted(console, settings, p.rail) ==>
              var split := ExactSplit(FindPreview(plan.previews, p.rail));
              var fee := FeeTaken(console, fees, p.rail);
              && (split.Some? <==> fee.Some? && fee.value != 0)
              && (split.Some? ==>
                    && SplitAddsUp(split.value)
                    && RequireAssetAtomicAmount(p.amountUsd, p.assetDecimals) == Ok(split.value.gross)
                    && p.rail in console.policy.recipients
                    && split.value.protocolFeePayTo == console.policy.recipients[p.rail]
                    && split.value.feeBps == console.policy.feeBps && p.model == ExactFeeSplit)
              && p.rail in console.profile.payoutWallets
              && p.payTo == Some(Trim(console.profile.payoutWallets[p.rail]))
  {
    hide ParseUsd, NonBlank, NatText, NatValue, PreviewAmounts, BpsFee, EffectiveFee, RailPreviews, FindPreview,
         ExactSplit, RequireAssetAtomicAmount, Floor, Ready, Hosted, SplitAddsUp, BuildPreviews, PlanFor, FeeTaken,
         Price;
    fees := estimates;
    var supported := console.profile.supportedRails;
    var fallback := Floor(settings.minNetworkFeeUsd);
    for i := 0 to |supported|
      invariant forall rail :: rail in estimates ==> rail in fees && fees[rail] == estimates[rail]
      invariant forall rail :: rail in fees && rail !in estimates ==> fallback == Some(fees[rail])
      invariant forall j :: 0 <= j < i && IsEvm(supported[j]) && fallback.Some? ==> supported[j] in fees
    {
      if IsEvm(supported[i]) && fallback.Some? && supported[i] !in fees {
        fees := fees[supported[i] := fallback.value];
      }
    }
    var rails: seq<RailPlan> := [];
    for i := 0 to |supported|
      invariant forall j :: 0 <= j < i && IsEvm(supported[j]) ==> exists p :: p in rails && p.rail == supported[j]
      invariant forall p :: p in rails ==>
        && IsEvm(p.rail) && p.rail in supported
        && p == PlanFor(console, settings, p.rail, Lookup(fees, p.rail))
    {
      if supported[i] == BaseUsdc {
        var p := BuildBaseRailPlan(console, settings, Lookup(fees, BaseUsdc));
        rails := rails + [p];
        PlanRail(console, settings, supported[i], Lookup(fees, supported[i]));
        assert p in rails && p.rail == supported[i] && forall q :: q in rails[..|rails| - 1] ==> q in rails;
      } else if supported[i] == EthereumUsdc {
        var p := BuildEthereumRailPlan(console, settings, Lookup(fees, EthereumUsdc));
        rails := rails + [p];
        PlanRail(console, settings, supported[i], Lookup(fees, supported[i]));
        assert p in rails && p.rail == supported[i] && forall q :: q in rails[..|rails| - 1] ==> q in rails;
      }
    }
    plan := Plan(BuildPreviews(console.policy, console.profile, fees), rails);
    forall p | p in rails && p.ready && Hosted(console, settings, p.rail)
      ensures var split := ExactSplit(FindPreview(plan.previews, p.rail));
              var fee := FeeTaken(console, fees, p.rail);
              && (split.Some? <==> fee.Some? && fee.value != 0)
              && (split.Some? ==>
                    && SplitAddsUp(split.value)
                    && RequireAssetAtomicAmount(p.amountUsd, p.assetDecimals) == Ok(split.value.gross)
                    && p.rail in console.policy.recipients
                    && split.value.protocolFeePayTo == console.policy.recipients[p.rail]
                    && split.value.feeBps == console.policy.feeBps && p.model == ExactFeeSplit)
              && p.rail in console.profile.payoutWallets
              && p.payTo == Some(Trim(console.profile.payoutWallets[p.rail]))
    {
      PlanReadyIff(console, settings, p.rail, Lookup(fees, p.rail));
      ReadyPlan(console, settings, p.rail, Lookup(fees, p.rail));
      ReadyPlanPays(console, settings, p.rail, Lookup(fees, p.rail));
      FeeOfFixed(console, fees, p.rail);
      ReadyIsPayable(console, settings, fees, p.rail);
    }
  }

  lemma PlanRail(console: Console, settings: Settings, rail: Rail, networkFee: Option<string>)
    ensures PlanFor(console, settings, rail, networkFee).rail == rail
  {
    hide Gaps, NonBlank, FacilitatorUrl, Model;
  }

  lemma ReadyPlan(console: Console, settings: Settings, rail: Rail, networkFee: Option<string>)
    ensures var p := PlanFor(console, settings, rail, networkFee);
            p.ready ==>
              && p.assetDecimals == 6
              && (console.profile.pricingMode.FixedExact? ==> p.amountUsd == console.profile.fixedAmountUsd)
  {
    hide NonBlank, FacilitatorUrl, Model, FloorGaps, Escrow, PayoutWallet, FacilitatorConfigured, Hosted;
  }

  /** A ready rail is paid at its payout wallet, and as a fee split where SantaClawz hosts it and the fee applies. */
  lemma ReadyPlanPays(console: Console, settings: Settings, rail: Rail, networkFee: Option<string>)
    requires PlanFor(console, settings, rail, networkFee).ready
    ensures var p := PlanFor(console, settings, rail, networkFee);
            && rail in console.profile.payoutWallets && p.payTo == Some(Trim(console.profile.payoutWallets[rail]))
            && (Hosted(console, settings, rail) && AppliesToRail(console.policy, rail) ==> p.model == ExactFeeSplit)
  {
    hide Gaps, FacilitatorUrl, FacilitatorConfigured, Escrow, FloorMet, AppliesToRail, AmountUsd, Trim;
    PlanReadyIff(console, settings, rail, networkFee);
  }
}
