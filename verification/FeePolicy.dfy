/** The protocol owner fee and its per-rail preview, amounts carried as dollar strings. */
module FeePolicy {
  import opened Wrappers
  import opened Text
  import opened Decimal

  datatype Rail = BaseUsdc | EthereumUsdc | ZekoNative

  type Bps = n: int | 0 <= n <= 10_000

  datatype Policy = Policy(enabled: bool, feeBps: Bps, marketplace: bool, recipients: map<Rail, string>)

  datatype PricingMode = FixedExact | QuoteRequired | FreeTest | OtherPricing

  datatype Profile = Profile(
    active: bool,
    pricingMode: PricingMode,
    settleOnProof: bool,
    fixedAmountUsd: Option<string>,
    referencePriceUsd: Option<string>,
    payoutWallets: map<Rail, string>,
    facilitatorUrls: map<Rail, string>,
    escrowContracts: map<Rail, string>,
    supportedRails: seq<Rail>)

  datatype FeeBasis = NetworkMinimum | ProtocolBps

  datatype Amounts = Amounts(
    grossUsd: string, sellerNetUsd: string, protocolFeeUsd: string, nominalFeeUsd: string,
    networkFeeUsd: Option<string>, basis: FeeBasis)

  datatype Preview = Preview(
    rail: Rail, sellerPayTo: string, protocolFeeRecipient: string, feeBps: Bps, amounts: Option<Amounts>)

  /** A string that is absent, or blank once trimmed, counts as undefined. */
  function NonBlank(text: Option<string>): (r: Option<string>)
    ensures r.Some? <==> text.Some? && Trim(text.value) != ""
    ensures r.Some? ==> r.value == Trim(text.value)
  {
    if text.Some? && Trim(text.value) != "" then Some(Trim(text.value)) else None
  }

  function Lookup<K(==), V>(m: map<K, V>, k: K): Option<V> {
    if k in m then Some(m[k]) else None
  }

  /** A recipient counts when it is a non-empty string. */
  function Recipient(policy: Policy, rail: Rail): Option<string> {
    if rail in policy.recipients && policy.recipients[rail] != "" then Some(policy.recipients[rail]) else None
  }

  predicate AppliesToRail(policy: Policy, rail: Rail) {
    policy.enabled && policy.marketplace && Recipient(policy, rail).Some?
  }

  function PayoutWallet(profile: Profile, rail: Rail): Option<string> {
    NonBlank(Lookup(profile.payoutWallets, rail))
  }

  function GrossText(profile: Profile): Option<string> {
    if profile.pricingMode.FixedExact? then NonBlank(profile.fixedAmountUsd) else None
  }

  function BpsFee(gross: nat, bps: nat): nat {
    gross * bps / 10_000
  }

  /** The basis-point fee is the exact share, rounded down to the atom. */
  lemma BpsFeeFloors(gross: nat, bps: nat)
    ensures BpsFee(gross, bps) * 10_000 <= gross * bps < (BpsFee(gross, bps) + 1) * 10_000
  {
  }

  /** The larger of the basis-point fee and the network minimum, when there is one. */
  function EffectiveFee(gross: nat, bps: nat, network: Option<nat>): (fee: nat)
    ensures fee >= BpsFee(gross, bps) && (network.Some? ==> fee >= network.value)
    ensures fee == BpsFee(gross, bps) || network == Some(fee)
  {
    if network.Some? && network.value > BpsFee(gross, bps) then network.value else BpsFee(gross, bps)
  }

  function PreviewAmounts(grossText: string, gross: nat, bps: Bps, network: Option<nat>): Amounts {
    var nominal := BpsFee(gross, bps);
    var fee := EffectiveFee(gross, bps, network);
    var net := if gross > fee then gross - fee else 0;
    Amounts(
      grossText,
      FormatUsd(net, 0),
      FormatUsd(fee, 0),
      FormatUsd(nominal, 0),
      if network.Some? then Some(FormatUsd(network.value, 0)) else None,
      if fee > nominal then NetworkMinimum else ProtocolBps)
  }

  function RailPreview(policy: Policy, profile: Profile, networkFees: map<Rail, string>, rail: Rail): Option<Preview> {
    var recipient, seller := Recipient(policy, rail), PayoutWallet(profile, rail);
    if recipient.None? || seller.None? then None
    else
      var gross := ParseUsd(GrossText(profile));
      var network := ParseUsd(Lookup(networkFees, rail));
      var amounts :=
        if gross.None? then None
        else Some(PreviewAmounts(GrossText(profile).value, gross.value, policy.feeBps, network));
      Some(Preview(rail, seller.value, recipient.value, policy.feeBps, amounts))
  }

  function RailPreviews(
      policy: Policy, profile: Profile, networkFees: map<Rail, string>, rails: seq<Rail>): seq<Preview>
  {
    if rails == [] then []
    else
      var head := RailPreview(policy, profile, networkFees, rails[0]);
      (if head.Some? then [head.value] else []) + RailPreviews(policy, profile, networkFees, rails[1..])
  }

  function BuildPreviews(policy: Policy, profile: Profile, networkFees: map<Rail, string>): seq<Preview> {
    if !policy.marketplace then [] else RailPreviews(policy, profile, networkFees, profile.supportedRails)
  }

  function FindPreview(previews: seq<Preview>, rail: Rail): Option<Preview> {
    if previews == [] then None
    else if previews[0].rail == rail then Some(previews[0])
    else FindPreview(previews[1..], rail)
  }

  /** A rail has a preview exactly when it has a fee recipient and a payout wallet, and it names just those two. */
  lemma RailPreviewIff(policy: Policy, profile: Profile, networkFees: map<Rail, string>, rail: Rail)
    ensures var p := RailPreview(policy, profile, networkFees, rail);
            && (p.Some? <==>
                  && rail in policy.recipients && policy.recipients[rail] != ""
                  && rail in profile.payoutWallets && Trim(profile.payoutWallets[rail]) != "")
            && (p.Some? ==>
                  && p.value.rail == rail && p.value.feeBps == policy.feeBps
                  && p.value.protocolFeeRecipient == policy.recipients[rail]
                  && p.value.sellerPayTo == Trim(profile.payoutWallets[rail])
                  && (p.value.amounts.Some? <==> ParseUsd(GrossText(profile)).Some?))
  {
    hide ParseUsd, GrossText, PreviewAmounts, Trim;
  }

  /** Every preview of a plan pays its rail's recipient and wallet, at the policy's rate. */
  lemma {:induction false} PreviewPayees(
      policy: Policy, profile: Profile, networkFees: map<Rail, string>, rails: seq<Rail>, p: Preview)
    requires p in RailPreviews(policy, profile, networkFees, rails)
    ensures p.rail in rails && p.feeBps == policy.feeBps
    ensures p.rail in policy.recipients && p.protocolFeeRecipient == policy.recipients[p.rail]
    ensures p.rail in profile.payoutWallets && p.sellerPayTo == Trim(profile.payoutWallets[p.rail])
    ensures p.protocolFeeRecipient != "" && p.sellerPayTo != ""
  {
    hide RailPreview, Trim;
    RailPreviewIff(policy, profile, networkFees, rails[0]);
    if Some(p) != RailPreview(policy, profile, networkFees, rails[0]) {
      PreviewPayees(policy, profile, networkFees, rails[1..], p);
    }
  }

  /** Switching the fee off leaves every preview as it is. */
  lemma {:induction false} PreviewsIgnoreSwitch(
      policy: Policy, profile: Profile, networkFees: map<Rail, string>, rails: seq<Rail>, enabled: bool)
    ensures RailPreviews(policy.(enabled := enabled), profile, networkFees, rails) ==
            RailPreviews(policy, profile, networkFees, rails)
  {
    if rails != [] {
      PreviewsIgnoreSwitch(policy, profile, networkFees, rails[1..], enabled);
    }
  }

  /** Searching the previews by rail gives the supported rail's own preview, whatever else the list holds. */
  lemma {:induction false} FindRailPreview(
      policy: Policy, profile: Profile, networkFees: map<Rail, string>, rails: seq<Rail>, rail: Rail)
    ensures FindPreview(RailPreviews(policy, profile, networkFees, rails), rail) ==
            if rail in rails then RailPreview(policy, profile, networkFees, rail) else None
  {
    hide RailPreview;
    if rails != [] {
      var head := RailPreview(policy, profile, networkFees, rails[0]);
      var rest := RailPreviews(policy, profile, networkFees, rails[1..]);
      FindRailPreview(policy, profile, networkFees, rails[1..], rail);
      PreviewRail(policy, profile, networkFees, rails[0]);
      assert rail in rails <==> rails[0] == rail || rail in rails[1..];
      if head.Some? {
        assert ([head.value] + rest)[1..] == rest;
      } else {
        assert [] + rest == rest;
      }
    }
  }

  /** The plan's preview of a rail: its own, when the rail is supported and the policy covers the marketplace. */
  lemma FindBuilt(policy: Policy, profile: Profile, networkFees: map<Rail, string>, rail: Rail)
    ensures FindPreview(BuildPreviews(policy, profile, networkFees), rail) ==
            if policy.marketplace && rail in profile.supportedRails then RailPreview(policy, profile, networkFees, rail)
            else None
  {
    hide RailPreview, RailPreviews;
    FindRailPreview(policy, profile, networkFees, profile.supportedRails, rail);
  }

  lemma PreviewRail(policy: Policy, profile: Profile, networkFees: map<Rail, string>, rail: Rail)
    ensures var p := RailPreview(policy, profile, networkFees, rail); p.Some? ==> p.value.rail == rail
  {
    hide PreviewAmounts, NonBlank;
  }

  /**
   Through its strings, a preview splits the price exactly when the fee leaves something, and never overstates the
   seller's share.
   */
  lemma PreviewConserves(grossText: string, gross: nat, bps: Bps, network: Option<nat>)
    requires ParseUsd(Some(grossText)) == Some(gross)
    ensures var a := PreviewAmounts(grossText, gross, bps, network);
            var fee := EffectiveFee(gross, bps, network);
            && ParseUsd(Some(a.grossUsd)) == Some(gross)
            && ParseUsd(Some(a.protocolFeeUsd)) == Some(fee)
            && ParseUsd(Some(a.nominalFeeUsd)) == Some(BpsFee(gross, bps))
            && ParseUsd(Some(a.sellerNetUsd)) == Some(if fee <= gross then gross - fee else 0)
            && (a.basis.ProtocolBps? <==> fee == BpsFee(gross, bps))
            && ParseUsd(a.networkFeeUsd) == network
            && a.sellerNetUsd != "" && a.protocolFeeUsd != ""
  {
    hide FormatUsd, ParseUsd;
    var fee := EffectiveFee(gross, bps, network);
    ParseFormat(fee, 0);
    ParseFormat(BpsFee(gross, bps), 0);
    ParseFormat(if network.Some? then network.value else 0, 0);
    ParseFormat(if gross > fee then gross - fee else 0, 0);
    AbsentUnparsed();
  }

  lemma AbsentUnparsed()
    ensures ParseUsd(None) == None && ParseUsd(Some("")) == None
  {
  }

  /** The configured floor in canonical form; nothing when the setting does not parse. */
  function Floor(setting: string): Option<string> {
    var floor := ParseUsd(Some(setting));
    if floor.Some? then Some(FormatUsd(floor.value, 0)) else None
  }

  lemma FloorParses(setting: string)
    ensures ParseUsd(Floor(setting)) == ParseUsd(Some(setting))
  {
    hide ParseUsd, FormatUsd;
    AbsentUnparsed();
    if ParseUsd(Some(setting)).Some? {
      ParseFormat(ParseUsd(Some(setting)).value, 0);
    }
  }
}
