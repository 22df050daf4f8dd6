/** A fork's deployer fee stacked on the protocol fee, as the SDK previews it. */
module FeeStack {
  import opened Wrappers
  import opened Decimal
  import opened FeePolicy

  const DEPLOYER_FEE_MAX_BPS := 300
  const TOTAL_FEE_MAX_BPS := 400

  datatype Deployer = Deployer(enabled: bool, feeBps: real, recipients: map<Rail, string>)

  datatype Compatibility = Compatibility(
    floorSatisfied: bool, floorBps: nat, deployerCapSatisfied: bool, totalCapSatisfied: bool, compatible: bool)

  datatype Stack = Stack(
    preview: Preview, sellerNetUsd: Option<string>, deployerFeeUsd: Option<string>, totalFeeUsd: Option<string>,
    protocolBps: nat, deployerBps: nat, deployerApplies: bool, compatibility: Compatibility)

  /** A basis-point setting that is not a non-negative whole number counts as zero. */
  function NormalizeBps(value: Option<real>): nat {
    if value.Some? && value.value >= 0.0 && value.value.Floor as real == value.value then value.value.Floor else 0
  }

  /** Whole numbers from zero up are taken as they are, anything else as zero. */
  lemma NormalizeBpsMeans(n: nat, value: real)
    ensures NormalizeBps(Some(n as real)) == n && NormalizeBps(None) == 0
    ensures value < 0.0 || value.Floor as real != value ==> NormalizeBps(Some(value)) == 0
  {
  }

  function Validate(protocolBps: Option<real>, deployerBps: Option<real>, minimumBps: Option<real>): (r: Compatibility)
    ensures r.floorSatisfied <==> NormalizeBps(minimumBps) <= NormalizeBps(protocolBps)
    ensures r.deployerCapSatisfied <==> NormalizeBps(deployerBps) <= 300
    ensures r.totalCapSatisfied <==> NormalizeBps(protocolBps) + NormalizeBps(deployerBps) <= 400
    ensures r.compatible <==> r.floorSatisfied && r.deployerCapSatisfied && r.totalCapSatisfied
    ensures r.floorBps == NormalizeBps(minimumBps)
  {
    var p, d, floor := NormalizeBps(protocolBps), NormalizeBps(deployerBps), NormalizeBps(minimumBps);
    Compatibility(
      p >= floor, floor, d <= DEPLOYER_FEE_MAX_BPS, p + d <= TOTAL_FEE_MAX_BPS,
      p >= floor && d <= DEPLOYER_FEE_MAX_BPS && p + d <= TOTAL_FEE_MAX_BPS)
  }

  function DeployerBps(deployer: Option<Deployer>): nat {
    if deployer.Some? && deployer.value.enabled then NormalizeBps(Some(deployer.value.feeBps)) else 0
  }

  predicate DeployerApplies(deployer: Option<Deployer>, rail: Rail) {
    && deployer.Some? && deployer.value.enabled && DeployerBps(deployer) > 0
    && rail in deployer.value.recipients && deployer.value.recipients[rail] != ""
  }

  function ZeroIfNone(v: Option<nat>): nat {
    if v.Some? then v.value else 0
  }

  /** One rail's stacked preview; the policy is absent from the plan when it is disabled. */
  function StackPreview(policyBps: Option<real>, deployer: Option<Deployer>, preview: Preview): Stack {
    var protocolBps := NormalizeBps(policyBps);
    var applies := DeployerApplies(deployer, preview.rail);
    var deployerBps := if applies then Some(DeployerBps(deployer) as real) else None;
    var compatibility := Validate(Some(protocolBps as real), deployerBps, None);
    var gross := if preview.amounts.Some? then ParseUsd(Some(preview.amounts.value.grossUsd)) else None;
    var protocol := if preview.amounts.Some? then ParseUsd(Some(preview.amounts.value.protocolFeeUsd)) else None;
    var shown := if preview.amounts.Some? then ParseUsd(Some(preview.amounts.value.sellerNetUsd)) else None;
    var deployerFee := if gross.Some? && applies then Some(BpsFee(gross.value, DeployerBps(deployer))) else None;
    var fees := ZeroIfNone(protocol) + ZeroIfNone(deployerFee);
    Stack(
      preview,
      if gross.Some? then Some(FormatUsd(gross.value - ZeroIfNone(protocol) - ZeroIfNone(deployerFee), 0))
      else if shown.Some? then Some(FormatUsd(shown.value, 0))
      else None,
      if deployerFee.Some? then Some(FormatUsd(deployerFee.value, 0)) else None,
      if fees > 0 then Some(FormatUsd(fees, 0)) else None,
      protocolBps,
      if applies then DeployerBps(deployer) else 0,
      applies,
      compatibility)
  }

  /**
   A deployer fee applies exactly when it is switched on, a positive whole rate, and has somebody to go to on the rail.
   */
  lemma DeployerAppliesIff(deployer: Option<Deployer>, rail: Rail, n: nat)
    ensures DeployerApplies(deployer, rail) ==>
              && deployer.Some? && deployer.value.enabled
              && rail in deployer.value.recipients && deployer.value.recipients[rail] != ""
    ensures deployer.Some? && deployer.value.feeBps == n as real ==>
              && DeployerBps(deployer) == (if deployer.value.enabled then n else 0)
              && (DeployerApplies(deployer, rail) <==>
                  && deployer.value.enabled && n > 0
                  && rail in deployer.value.recipients && deployer.value.recipients[rail] != "")
    ensures deployer.Some?
            && (deployer.value.feeBps < 0.0 || deployer.value.feeBps.Floor as real != deployer.value.feeBps) ==>
              DeployerBps(deployer) == 0 && !DeployerApplies(deployer, rail)
    ensures deployer.None? ==> DeployerBps(deployer) == 0
  {
    hide NormalizeBps;
    NormalizeBpsMeans(n, if deployer.Some? then deployer.value.feeBps else 0.0);
  }

  /** What a stacked preview reports besides its amounts, and what it shows when the price cannot be read. */
  lemma StackReports(policyBps: Option<real>, deployer: Option<Deployer>, preview: Preview)
    ensures var s := StackPreview(policyBps, deployer, preview);
            var bps := if DeployerApplies(deployer, preview.rail) then DeployerBps(deployer) else 0;
            && s.preview == preview && s.protocolBps == NormalizeBps(policyBps) && s.deployerBps == bps
            && (s.deployerApplies <==> DeployerApplies(deployer, preview.rail))
            && s.compatibility.floorBps == 0 && s.compatibility.floorSatisfied
            && (s.compatibility.deployerCapSatisfied <==> bps <= 300)
            && (s.compatibility.totalCapSatisfied <==> NormalizeBps(policyBps) + bps <= 400)
            && (preview.amounts.None? ==> s.sellerNetUsd == s.deployerFeeUsd == s.totalFeeUsd == None)
            && (preview.amounts.Some? && ParseUsd(Some(preview.amounts.value.grossUsd)).None? ==>
                  s.deployerFeeUsd == None
                  && ParseUsd(s.sellerNetUsd) == ParseUsd(Some(preview.amounts.value.sellerNetUsd)))
            && (s.totalFeeUsd.Some? ==> ParseUsd(s.totalFeeUsd) != Some(0))
  {
    hide ParseUsd, FormatUsd, BpsFee, NormalizeBps, DeployerApplies, DeployerBps;
    var s := StackPreview(policyBps, deployer, preview);
    var bps := if DeployerApplies(deployer, preview.rail) then DeployerBps(deployer) else 0;
    NormalizeBpsMeans(NormalizeBps(policyBps), 0.0);
    NormalizeBpsMeans(bps, 0.0);
    AbsentUnparsed();
    if preview.amounts.Some? {
      var a := preview.amounts.value;
      var gross, protocol := ParseUsd(Some(a.grossUsd)), ParseUsd(Some(a.protocolFeeUsd));
      var shown := ParseUsd(Some(a.sellerNetUsd));
      var taken := gross.Some? && DeployerApplies(deployer, preview.rail);
      var fee := if taken then BpsFee(gross.value, DeployerBps(deployer)) else 0;
      ParseFormat(ZeroIfNone(protocol) + fee, 0);
      ParseFormat(ZeroIfNone(shown), 0);
    }
  }

  /** Stacked fees of whole basis points never exceed their joint share of the price. */
  lemma SharesFit(gross: nat, a: nat, b: nat)
    requires a + b <= TOTAL_FEE_MAX_BPS
    ensures 100 * (BpsFee(gross, a) + BpsFee(gross, b)) <= 4 * gross
  {
    var x, y := gross * a, gross * b;
    assert x + y == gross * (a + b);
    MulMono(a + b, 400, gross);
    assert gross * (a + b) == (a + b) * gross;
  }

  /**
   The stacked strings add back up to the price exactly when the two fees fit into it; otherwise the net does not parse.
   */
  lemma StackConserves(policyBps: Option<real>, deployer: Option<Deployer>, preview: Preview)
    requires preview.amounts.Some?
    requires ParseUsd(Some(preview.amounts.value.grossUsd)).Some?
    requires ParseUsd(Some(preview.amounts.value.protocolFeeUsd)).Some?
    ensures var s := StackPreview(policyBps, deployer, preview);
            var gross := ParseUsd(Some(preview.amounts.value.grossUsd)).value;
            var protocol := ParseUsd(Some(preview.amounts.value.protocolFeeUsd)).value;
            var deployerFee := ZeroIfNone(ParseUsd(s.deployerFeeUsd));
            && (s.deployerApplies ==> deployerFee == BpsFee(gross, s.deployerBps))
            && (!s.deployerApplies ==> deployerFee == 0)
            && (ParseUsd(s.sellerNetUsd).Some? <==> protocol + deployerFee <= gross)
            && (ParseUsd(s.sellerNetUsd).Some? ==> ParseUsd(s.sellerNetUsd).value + protocol + deployerFee == gross)
            && ZeroIfNone(ParseUsd(s.totalFeeUsd)) == protocol + deployerFee
  {
    hide ParseUsd, FormatUsd, BpsFee, Validate, NormalizeBps;
    AbsentUnparsed();
    var gross := ParseUsd(Some(preview.amounts.value.grossUsd)).value;
    var protocol := ParseUsd(Some(preview.amounts.value.protocolFeeUsd)).value;
    var deployerFee: nat := if DeployerApplies(deployer, preview.rail) then BpsFee(gross, DeployerBps(deployer)) else 0;
    ParseFormat(deployerFee, 0);
    var net: int := gross - protocol - deployerFee;
    ParseFormat(net, 0);
    ParseFormat(protocol + deployerFee, 0);
  }

  /** Under one policy and a compatible report, a basis-point preview leaves the seller at least 96% of the price. */
  lemma SellerKeeps96Percent(
      policy: Policy, profile: Profile, fees: map<Rail, string>, rail: Rail, deployer: Option<Deployer>)
    requires RailPreview(policy, profile, fees, rail).Some?
    requires RailPreview(policy, profile, fees, rail).value.amounts.Some?
    requires RailPreview(policy, profile, fees, rail).value.amounts.value.basis.ProtocolBps?
    requires var preview := RailPreview(policy, profile, fees, rail).value;
             StackPreview(Some(policy.feeBps as real), deployer, preview).compatibility.compatible
    ensures var preview := RailPreview(policy, profile, fees, rail).value;
            var s := StackPreview(Some(policy.feeBps as real), deployer, preview);
            var gross := ParseUsd(GrossText(profile)).value;
            && ParseUsd(s.sellerNetUsd).Some?
            && 100 * ParseUsd(s.sellerNetUsd).value >= 96 * gross
            && ParseUsd(s.sellerNetUsd).value + BpsFee(gross, policy.feeBps) + ZeroIfNone(ParseUsd(s.deployerFeeUsd)) ==
               gross
  {
    hide ParseUsd, FormatUsd, BpsFee, NonBlank, PreviewAmounts, EffectiveFee;
    var preview := RailPreview(policy, profile, fees, rail).value;
    var gross := ParseUsd(GrossText(profile)).value;
    var network := ParseUsd(Lookup(fees, rail));
    AbsentUnparsed();
    PreviewConserves(GrossText(profile).value, gross, policy.feeBps, network);
    StackConserves(Some(policy.feeBps as real), deployer, preview);
    SharesFit(gross, policy.feeBps, if DeployerApplies(deployer, rail) then DeployerBps(deployer) else 0);
    assert BpsFee(gross, 0) == 0 by { NothingOf(gross); }
    PreviewRail(policy, profile, fees, rail);
  }

  lemma NothingOf(gross: nat)
    ensures BpsFee(gross, 0) == 0
  {
  }
}
