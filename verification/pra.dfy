/**
 The personal risk assessment record (main/models.py, class PRA): the risk
 category and mitigation outcome values with their descriptions, and the
 fields the PRA wizard writes (main/views_pra.py).
 */
module Pra {
  import opened Results
  import opened Users

  // Risk category values, in the order of RC_MAPPING.
  const RcHighRisk: string := "high_risk"
  const RcLivesWithHighRisk: string := "lives_with_high_risk"
  const RcModerateRisk: string := "moderate_risk"
  const RcElevatedRisk: string := "elevated_risk"
  const RcNoCategory: string := "no_category"
  const RcPreferNotToSay: string := "prefer_not_to_say"

  /** The value main/views_pra.py routes to the mitigation step as
      `PRA.RC_LIVES_WITH_MODERATE_RISK`, which main/models.py never defines;
      the value here is the one its name and its siblings' naming imply. */
  const RcLivesWithModerateRisk: string := "lives_with_moderate_risk"

  // Mitigation outcome values, in the order of MO_MAPPING.
  const MoApproveNoMitigation: string := "approve_no_mitigation"
  const MoApproveMitigationRequired: string := "approve_mitigation_required"
  const MoDoNotApprove: string := "do_not_approve"

  /** `RC_MAPPING` as the ordered list of `(value, description)` pairs that
      `list(PRA.RC_MAPPING.items())` gives the risk category form. */
  const RcChoices: seq<(string, string)> := [
    (RcHighRisk, "High risk (clinically extremely vulnerable) due to existing health conditions"),
    (RcLivesWithHighRisk, "Lives with someone at high risk (clinically extremely vulnerable) due to existing health conditions"),
    (RcModerateRisk, "Moderate risk (clinically vulnerable)"),
    (RcElevatedRisk, "Falls into one of the categories where evidence suggests that risk may be elevated"),
    (RcNoCategory, "Does not fall into any of the above categories"),
    (RcPreferNotToSay, "The staff member would prefer not to say")
  ]

  /** `MO_MAPPING` as the ordered choices of the mitigation form. */
  const MoChoices: seq<(string, string)> := [
    (MoApproveNoMitigation, "I approve - no mitigation measures required"),
    (MoApproveMitigationRequired, "I approve - mitigation measures required"),
    (MoDoNotApprove, "I do not approve - mitigation measures explored but considered insufficient")
  ]

  function ChoiceValues(choices: seq<(string, string)>): (values: seq<string>)
    ensures |values| == |choices|
    ensures forall i :: 0 <= i < |values| ==> values[i] == choices[i].0
    decreases |choices|
  {
    if |choices| == 0 then [] else [choices[0].0] + ChoiceValues(choices[1..])
  }

  /** `dict(choices)`: the dictionary the choices are the items of. */
  function ChoiceMap(choices: seq<(string, string)>): (m: map<string, string>)
    ensures m.Keys == set i | 0 <= i < |choices| :: choices[i].0
    decreases |choices|
  {
    if |choices| == 0 then map[]
    else
      var n := |choices| - 1;
      var m := ChoiceMap(choices[..n])[choices[n].0 := choices[n].1];
      assert m.Keys == set i | 0 <= i < |choices| :: choices[i].0 by {
        forall k | k in m.Keys ensures k in set i | 0 <= i < |choices| :: choices[i].0 {
          if k != choices[n].0 {
            var i :| 0 <= i < n && choices[..n][i].0 == k;
            assert choices[i].0 == k;
          }
        }
        forall i | 0 <= i < |choices| ensures choices[i].0 in m.Keys {
          if i < n {
            assert choices[..n][i].0 == choices[i].0;
          }
        }
      }
      m
  }

  predicate Distinct(values: seq<string>) {
    forall i, j :: 0 <= i < j < |values| ==> values[i] != values[j]
  }

  const RcValues: seq<string> :=
    [RcHighRisk, RcLivesWithHighRisk, RcModerateRisk, RcElevatedRisk, RcNoCategory, RcPreferNotToSay]

  const MoValues: seq<string> := [MoApproveNoMitigation, MoApproveMitigationRequired, MoDoNotApprove]

  lemma ChoiceValuesAt(choices: seq<(string, string)>, values: seq<string>)
    requires |choices| == |values|
    requires forall i :: 0 <= i < |values| ==> choices[i].0 == values[i]
    ensures ChoiceValues(choices) == values
    ensures ChoiceMap(choices).Keys == set i | 0 <= i < |values| :: values[i]
  {
  }

  lemma RcValuesDistinct()
    ensures Distinct(RcValues) && |RcValues| == 6
    ensures RcLivesWithModerateRisk !in RcValues
  {
  }

  /** RC_MAPPING has six distinct keys, and the risk category form offers
      exactly these, each once and in this order. */
  lemma RcMappingShape()
    ensures ChoiceValues(RcChoices) == RcValues
    ensures Distinct(RcValues) && |RcValues| == 6
    ensures ChoiceMap(RcChoices).Keys == set i | 0 <= i < |RcValues| :: RcValues[i]
    ensures RcLivesWithModerateRisk !in ChoiceMap(RcChoices)
  {
    assert RcChoices[0].0 == RcValues[0] && RcChoices[1].0 == RcValues[1];
    assert RcChoices[2].0 == RcValues[2] && RcChoices[3].0 == RcValues[3];
    assert RcChoices[4].0 == RcValues[4] && RcChoices[5].0 == RcValues[5];
    ChoiceValuesAt(RcChoices, RcValues);
    RcValuesDistinct();
  }

  /** MO_MAPPING has three distinct keys, offered in this order by the mitigation form. */
  lemma MoMappingShape()
    ensures ChoiceValues(MoChoices) == MoValues
    ensures Distinct(MoValues) && |MoValues| == 3
    ensures ChoiceMap(MoChoices).Keys == set i | 0 <= i < |MoValues| :: MoValues[i]
  {
    assert MoChoices[0].0 == MoValues[0] && MoChoices[1].0 == MoValues[1];
    assert MoChoices[2].0 == MoValues[2];
    ChoiceValuesAt(MoChoices, MoValues);
  }

  /** A PRA as main/views_pra.py creates and updates it. The two approvals
      are unset (`None`) until the staff member and the SCS decide. */
  datatype PraRecord = PraRecord(
    staffMember: UserId,
    lineManager: UserId,
    scs: UserId,
    group: string,
    businessUnit: string,
    authorizedReason: string,
    riskCategory: string,
    mitigationOutcome: string,
    mitigationMeasures: string,
    approvedStaffMember: Option<bool>,
    approvedScs: Option<bool>)
}
