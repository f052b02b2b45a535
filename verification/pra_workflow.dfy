/**
 The PRA wizard and approval workflow (main/views_pra.py) as a state machine.

 A line manager walks through the wizard; each step stores an answer in the
 session. The risk category and the mitigation outcome decide which step
 comes next or whether the PRA is submitted at once. Submitting checks that
 the staff member and the SCS are known users, saves the PRA, clears the
 wizard's session keys and notifies the staff member. The staff member and
 then the SCS record their approval on the saved PRA, and each decision
 notifies the next person.

 The HTTP layer is left out: a handler takes the state and the already
 validated form value and returns the new state with a reply (a redirect, or
 the form shown again with errors), or the exception the view raises.
 E-mails are `(recipient, kind)` events appended to an outbox.
 */
module PraWorkflow {
  import opened Results
  import opened Users
  import opened Pra
  import DitGroups

  // ---------------------------------------------------------------------------
  // Session

  datatype SessionValue = Text(text: string) | Number(number: int)

  type Session = map<string, SessionValue>

  const StaffMemberEmailKey: string := "pra_staff_member_email"
  const ScsEmailKey: string := "pra_scs_email"
  const DitGroupKey: string := "pra_dit_group"
  const AuthorizedReasonKey: string := "pra_authorized_reason"
  const BusinessUnitKey: string := "pra_business_unit"
  const RiskCategoryKey: string := "pra_risk_category"
  const MitigationOutcomeKey: string := "pra_mitigation_outcome"
  const MitigationMeasuresKey: string := "pra_mitigation_measures"

  /** The keys `clear_pra_session_variables` deletes, in its order. */
  const PraSessionKeys: seq<string> := [
    StaffMemberEmailKey, ScsEmailKey, DitGroupKey, AuthorizedReasonKey,
    BusinessUnitKey, RiskCategoryKey, MitigationOutcomeKey, MitigationMeasuresKey
  ]

  function KeySet(keys: seq<string>): set<string> {
    set i | 0 <= i < |keys| :: keys[i]
  }

  /** `for key in keys: if key in session: del session[key]`. */
  function DeleteKeys(session: Session, keys: seq<string>): (r: Session)
    ensures r.Keys == session.Keys - KeySet(keys)
    ensures forall k :: k in r ==> r[k] == session[k]
    decreases |keys|
  {
    if |keys| == 0 then session
    else
      var rest := DeleteKeys(if keys[0] in session then session - {keys[0]} else session, keys[1..]);
      assert KeySet(keys) == {keys[0]} + KeySet(keys[1..]) by {
        forall k | k in KeySet(keys) ensures k in {keys[0]} + KeySet(keys[1..]) {
          var i :| 0 <= i < |keys| && keys[i] == k;
          if i > 0 { assert keys[1..][i - 1] == k; }
        }
      }
      rest
  }

  /** `clear_pra_session_variables`: exactly the eight wizard keys go, every
      other session entry stays as it was. */
  function ClearPraSession(session: Session): (r: Session)
    ensures r.Keys == session.Keys - KeySet(PraSessionKeys)
    ensures forall k :: k in r ==> r[k] == session[k]
  {
    DeleteKeys(session, PraSessionKeys)
  }

  /** The eight keys, as a set. */
  lemma PraSessionKeySet()
    ensures KeySet(PraSessionKeys) == {
      StaffMemberEmailKey, ScsEmailKey, DitGroupKey, AuthorizedReasonKey,
      BusinessUnitKey, RiskCategoryKey, MitigationOutcomeKey, MitigationMeasuresKey}
  {
    assert PraSessionKeys[0] == StaffMemberEmailKey && PraSessionKeys[1] == ScsEmailKey;
    assert PraSessionKeys[2] == DitGroupKey && PraSessionKeys[3] == AuthorizedReasonKey;
    assert PraSessionKeys[4] == BusinessUnitKey && PraSessionKeys[5] == RiskCategoryKey;
    assert PraSessionKeys[6] == MitigationOutcomeKey && PraSessionKeys[7] == MitigationMeasuresKey;
  }

  lemma ClearPraSessionIdempotent(session: Session)
    ensures ClearPraSession(ClearPraSession(session)) == ClearPraSession(session)
  {
  }

  // ---------------------------------------------------------------------------
  // Outcomes

  datatype Exception =
    | KeyError(key: string)       // a session key the step reads is missing
    | WrongType(key: string)      // a session value of the other kind
    | Http404                     // get_object_or_404 found nothing
    | PermissionDenied
    | Failure(message: string)    // a plain `raise Exception(...)`
    | AttributeError(name: string)

  datatype Page =
    | InitialPage | BusinessUnitPage | ReasonPage | RiskCategoryPage | PreferNotToSayPage
    | MitigationPage | MitigationApprovePage | MitigationDoNotApprovePage
    | ThanksPage | PraViewPage(pk: nat)

  /** What a request answers: a redirect, the errors of a rejected form, or
      a page rendered with its (blank) form. */
  datatype Reply = Redirect(page: Page) | ShowErrors(errors: seq<string>) | ShowForm(page: Page)

  datatype Role = StaffMemberRole | ScsRole

  /** The e-mails the workflow sends; the PRA key stands for the link in it. */
  datatype Kind =
    | StaffMemberApprovalRequest(pk: nat)       // asks the staff member to approve
    | RejectedNotice                            // tells the staff member the PRA was not approved
    | DecisionNotice(role: Role, approved: bool, pk: nat)  // tells the line manager
    | ScsApprovalRequest(pk: nat)               // asks the SCS to approve

  datatype Notification = Notification(recipient: UserId, kind: Kind)

  /** What the workflow reads but main/views_pra.py does not define:
      `User.get_by_email`, `PRA.needs_staff_member_approval`,
      `PRA.needs_scs_approval`, and the DIT group table. */
  datatype Env = Env(
    userByEmail: string -> Option<UserId>,
    needsStaffMemberApproval: PraRecord -> bool,
    needsScsApproval: PraRecord -> bool,
    groups: map<int, DitGroups.DitGroup>)

  datatype State = State(session: Session, pras: map<nat, PraRecord>, nextPk: nat, outbox: seq<Notification>)

  /** Every saved PRA has a key below the next one to be handed out. */
  predicate Valid(st: State) {
    forall pk :: pk in st.pras ==> pk < st.nextPk
  }

  // ---------------------------------------------------------------------------
  // Routing

  datatype Next = ToPreferNotToSay | ToMitigation | ToMitigationApprove | ToMitigationDoNotApprove | SubmitNow

  /** The risk categories `create_pra_risk_category` knows how to route. */
  const RoutedRiskCategories: set<string> := {
    RcPreferNotToSay, RcLivesWithModerateRisk, RcModerateRisk, RcElevatedRisk,
    RcHighRisk, RcLivesWithHighRisk, RcNoCategory
  }

  function UnknownRiskCategory(rc: string): string {
    "Unknown risk category '" + rc + "'"
  }

  function UnknownMitigationOutcome(mo: string): string {
    "Unknown mitigation outcome '" + mo + "'"
  }

  /** Where `create_pra_risk_category` goes for a risk category, with the
      missing constant given its intended value. */
  function RouteRiskCategory(rc: string): (r: Result<Next, Exception>)
    ensures r.Ok? <==> rc in RoutedRiskCategories
    ensures r.Err? ==> r.error == Failure(UnknownRiskCategory(rc))
  {
    if rc == RcPreferNotToSay then Ok(ToPreferNotToSay)
    else if rc in {RcLivesWithModerateRisk, RcModerateRisk, RcElevatedRisk} then Ok(ToMitigation)
    else if rc in {RcHighRisk, RcLivesWithHighRisk, RcNoCategory} then Ok(SubmitNow)
    else Err(Failure(UnknownRiskCategory(rc)))
  }

  /** The routing as written: the first `elif` evaluates
      `PRA.RC_LIVES_WITH_MODERATE_RISK`, which does not exist, so every
      category but "prefer not to say" raises AttributeError. */
  function RouteRiskCategoryAsWritten(rc: string): (r: Result<Next, Exception>)
    ensures r.Ok? <==> rc == RcPreferNotToSay
    ensures r.Ok? ==> r == RouteRiskCategory(rc)
    ensures r.Err? ==> r.error == AttributeError("RC_LIVES_WITH_MODERATE_RISK")
  {
    if rc == RcPreferNotToSay then Ok(ToPreferNotToSay)
    else Err(AttributeError("RC_LIVES_WITH_MODERATE_RISK"))
  }

  /** Where `create_pra_mitigation` goes for a mitigation outcome. */
  function RouteMitigation(mo: string): (r: Result<Next, Exception>)
    ensures r.Ok? <==> mo in {MoApproveNoMitigation, MoApproveMitigationRequired, MoDoNotApprove}
    ensures r.Err? ==> r.error == Failure(UnknownMitigationOutcome(mo))
  {
    if mo == MoApproveNoMitigation then Ok(SubmitNow)
    else if mo == MoApproveMitigationRequired then Ok(ToMitigationApprove)
    else if mo == MoDoNotApprove then Ok(ToMitigationDoNotApprove)
    else Err(Failure(UnknownMitigationOutcome(mo)))
  }

  /** Every category the form offers is routed: "prefer not to say" to its own
      page, moderate and elevated risk to the mitigation step, and high risk,
      living with high risk and no category straight to submission. */
  lemma RiskCategoryChoicesRoute()
    ensures RouteRiskCategory(RcPreferNotToSay) == Ok(ToPreferNotToSay)
    ensures RouteRiskCategory(RcLivesWithModerateRisk) == Ok(ToMitigation)
    ensures RouteRiskCategory(RcModerateRisk) == Ok(ToMitigation)
    ensures RouteRiskCategory(RcElevatedRisk) == Ok(ToMitigation)
    ensures RouteRiskCategory(RcHighRisk) == Ok(SubmitNow)
    ensures RouteRiskCategory(RcLivesWithHighRisk) == Ok(SubmitNow)
    ensures RouteRiskCategory(RcNoCategory) == Ok(SubmitNow)
    ensures forall i :: 0 <= i < |RcChoices| ==> RouteRiskCategory(RcChoices[i].0).Ok?
  {
  }

  /** Every mitigation outcome the form offers is routed. */
  lemma MitigationChoicesRoute()
    ensures RouteMitigation(MoApproveNoMitigation) == Ok(SubmitNow)
    ensures RouteMitigation(MoApproveMitigationRequired) == Ok(ToMitigationApprove)
    ensures RouteMitigation(MoDoNotApprove) == Ok(ToMitigationDoNotApprove)
    ensures forall i :: 0 <= i < |MoChoices| ==> RouteMitigation(MoChoices[i].0).Ok?
  {
  }

  /** The routing as written fails on five of the six categories the form
      offers, where the intended routing succeeds. */
  lemma RiskCategoryRoutingAsWrittenFails(rc: string)
    requires rc in RoutedRiskCategories && rc != RcPreferNotToSay
    ensures RouteRiskCategoryAsWritten(rc) == Err(AttributeError("RC_LIVES_WITH_MODERATE_RISK"))
    ensures RouteRiskCategory(rc).Ok?
  {
  }

  // ---------------------------------------------------------------------------
  // Submitting

  predicate HasText(session: Session, key: string) {
    key in session && session[key].Text?
  }

  /** `session.get(key, "")` for a text value. */
  function TextOrEmpty(session: Session, key: string): string {
    if HasText(session, key) then session[key].text else ""
  }

  function ReadText(session: Session, key: string): (r: Result<string, Exception>)
    ensures r.Ok? <==> HasText(session, key)
    ensures r.Ok? ==> r.value == session[key].text
    ensures key !in session ==> r == Err(KeyError(key))
  {
    if key !in session then Err(KeyError(key))
    else if session[key].Text? then Ok(session[key].text)
    else Err(WrongType(key))
  }

  function ReadOptionalText(session: Session, key: string): (r: Result<string, Exception>)
    ensures r.Ok? <==> key !in session || session[key].Text?
    ensures r.Ok? ==> r.value == TextOrEmpty(session, key)
  {
    if key !in session then Ok("")
    else if session[key].Text? then Ok(session[key].text)
    else Err(WrongType(key))
  }

  /** The session holds everything `create_pra_submit` reads, of the right
      kind, and names an existing DIT group. */
  predicate SessionReady(session: Session, groups: map<int, DitGroups.DitGroup>) {
    && HasText(session, StaffMemberEmailKey)
    && HasText(session, ScsEmailKey)
    && DitGroupKey in session && session[DitGroupKey].Number?
    && session[DitGroupKey].number in groups
    && HasText(session, BusinessUnitKey)
    && HasText(session, AuthorizedReasonKey)
    && HasText(session, RiskCategoryKey)
    && (MitigationOutcomeKey !in session || session[MitigationOutcomeKey].Text?)
    && (MitigationMeasuresKey !in session || session[MitigationMeasuresKey].Text?)
  }

  function StaffMemberNotFound(email: string): string {
    "Staff member '" + email + "' not found; please make sure they have logged in to the system at least once"
  }

  function ScsNotFound(email: string): string {
    "SCS '" + email + "' not found; please make sure they have logged in to the system at least once"
  }

  /** The answers `create_pra_submit` reads from the session, the DIT group
      already looked up by its key. */
  datatype Answers = Answers(
    staffEmail: string, scsEmail: string, group: string, businessUnit: string,
    reason: string, riskCategory: string, outcome: string, measures: string)

  /** The session reads at the head of `create_pra_submit`, in its order:
      a missing key raises KeyError, an unknown DIT group is a 404, and the
      two mitigation answers default to "". */
  function ReadAnswers(session: Session, groups: map<int, DitGroups.DitGroup>): (r: Result<Answers, Exception>)
    ensures r.Ok? <==> SessionReady(session, groups)
    ensures r.Err? ==> r.error.KeyError? || r.error.WrongType? || r.error == Http404
    ensures r.Err? && r.error.KeyError? ==> r.error.key !in session
    ensures r.Err? && r.error == Http404 ==> DitGroupKey in session && session[DitGroupKey].Number?
                                             && session[DitGroupKey].number !in groups
    ensures r.Ok? ==>
              && r.value.staffEmail == session[StaffMemberEmailKey].text
              && r.value.scsEmail == session[ScsEmailKey].text
              && r.value.group == groups[session[DitGroupKey].number].name
              && r.value.businessUnit == session[BusinessUnitKey].text
              && r.value.reason == session[AuthorizedReasonKey].text
              && r.value.riskCategory == session[RiskCategoryKey].text
              && r.value.outcome == TextOrEmpty(session, MitigationOutcomeKey)
              && r.value.measures == TextOrEmpty(session, MitigationMeasuresKey)
  {
    var staffEmail :- ReadText(session, StaffMemberEmailKey);
    var scsEmail :- ReadText(session, ScsEmailKey);
    if DitGroupKey !in session then Err(KeyError(DitGroupKey))
    else if !session[DitGroupKey].Number? then Err(WrongType(DitGroupKey))
    else if session[DitGroupKey].number !in groups then Err(Http404)
    else
      var businessUnit :- ReadText(session, BusinessUnitKey);
      var reason :- ReadText(session, AuthorizedReasonKey);
      var riskCategory :- ReadText(session, RiskCategoryKey);
      var outcome :- ReadOptionalText(session, MitigationOutcomeKey);
      var measures :- ReadOptionalText(session, MitigationMeasuresKey);
      Ok(Answers(staffEmail, scsEmail, groups[session[DitGroupKey].number].name,
                 businessUnit, reason, riskCategory, outcome, measures))
  }

  /** The PRA built from the answers: the requester is the line manager and
      nobody has approved yet. */
  predicate BuiltFrom(pra: PraRecord, a: Answers, env: Env, requester: UserId) {
    && Some(pra.staffMember) == env.userByEmail(a.staffEmail)
    && Some(pra.scs) == env.userByEmail(a.scsEmail)
    && pra.lineManager == requester
    && pra.group == a.group
    && pra.businessUnit == a.businessUnit
    && pra.authorizedReason == a.reason
    && pra.riskCategory == a.riskCategory
    && pra.mitigationOutcome == a.outcome
    && pra.mitigationMeasures == a.measures
    && pra.approvedStaffMember == None && pra.approvedScs == None
  }

  /** The rest of `create_pra_submit`, once the answers are read: report
      unknown users, otherwise save the PRA under a fresh key, clear the
      wizard's session keys and send the staff member either the approval
      request or, when the PRA needs no approval, the notice that it was not
      approved. */
  function Record(st: State, a: Answers, requester: UserId, env: Env): (r: (State, Reply))
    requires Valid(st)
    ensures Valid(r.0)
    ensures
      var staff, scs := env.userByEmail(a.staffEmail), env.userByEmail(a.scsEmail);
      var (st', reply) := r;
      && (reply.ShowErrors? || reply == Redirect(ThanksPage))
      && (reply.ShowErrors? <==> staff.None? || scs.None?)
      && (reply.ShowErrors? ==>
            && st' == st
            && |reply.errors| == (if staff.None? then 1 else 0) + (if scs.None? then 1 else 0)
            && (staff.None? ==> reply.errors[0] == StaffMemberNotFound(a.staffEmail))
            && (scs.None? ==> reply.errors[|reply.errors| - 1] == ScsNotFound(a.scsEmail)))
      && (reply.Redirect? ==>
            var pk := st.nextPk;
            && reply.page == ThanksPage
            && pk !in st.pras && st'.pras.Keys == st.pras.Keys + {pk}
            && (forall k :: k in st.pras ==> st'.pras[k] == st.pras[k])
            && BuiltFrom(st'.pras[pk], a, env, requester)
            && st'.session == ClearPraSession(st.session)
            && st'.outbox == st.outbox + [Notification(staff.value,
                 if env.needsStaffMemberApproval(st'.pras[pk])
                 then StaffMemberApprovalRequest(pk) else RejectedNotice)])
  {
    var staff, scs := env.userByEmail(a.staffEmail), env.userByEmail(a.scsEmail);
    var errors :=
      (if staff.None? then [StaffMemberNotFound(a.staffEmail)] else [])
      + (if scs.None? then [ScsNotFound(a.scsEmail)] else []);
    if errors != [] then (st, ShowErrors(errors))
    else
      var pk := st.nextPk;
      var pra := PraRecord(staff.value, requester, scs.value, a.group, a.businessUnit, a.reason,
                           a.riskCategory, a.outcome, a.measures, None, None);
      var notice :=
        if env.needsStaffMemberApproval(pra)
        then Notification(staff.value, StaffMemberApprovalRequest(pk))
        else Notification(staff.value, RejectedNotice);
      (State(ClearPraSession(st.session), st.pras[pk := pra], pk + 1, st.outbox + [notice]),
       Redirect(ThanksPage))
  }

  /** `create_pra_submit`: it fails exactly when the session lacks an answer
      or names an unknown DIT group, and otherwise records the PRA. */
  function Submit(st: State, requester: UserId, env: Env): (r: Result<(State, Reply), Exception>)
    requires Valid(st)
    ensures r.Ok? <==> SessionReady(st.session, env.groups)
    ensures r.Err? ==> r.error.KeyError? || r.error.WrongType? || r.error == Http404
    ensures r.Err? && r.error.KeyError? ==> r.error.key !in st.session
    ensures r.Ok? ==> Valid(r.value.0)
    ensures r.Ok? ==> r.value == Record(st, ReadAnswers(st.session, env.groups).value, requester, env)
  {
    var a :- ReadAnswers(st.session, env.groups);
    Ok(Record(st, a, requester, env))
  }

  /** A successful submit saves exactly one new PRA: the requester is its line
      manager, the staff member and the SCS are the users the session's
      addresses name, every answer is copied from the session (the mitigation
      ones defaulting to ""), nobody has approved yet, the eight wizard keys
      are gone and the staff member gets the one e-mail. */
  lemma SubmitCopiesSession(st: State, requester: UserId, env: Env)
    requires Valid(st)
    requires SessionReady(st.session, env.groups)
    requires env.userByEmail(st.session[StaffMemberEmailKey].text).Some?
    requires env.userByEmail(st.session[ScsEmailKey].text).Some?
    ensures Submit(st, requester, env).Ok?
    ensures Submit(st, requester, env).value.1 == Redirect(ThanksPage)
    ensures var s, st' := st.session, Submit(st, requester, env).value.0;
            var pk := st.nextPk;
            && st'.pras.Keys == st.pras.Keys + {pk} && pk !in st.pras
            && var pra := st'.pras[pk];
            && env.userByEmail(s[StaffMemberEmailKey].text) == Some(pra.staffMember)
            && env.userByEmail(s[ScsEmailKey].text) == Some(pra.scs)
            && pra.lineManager == requester
            && pra.group == env.groups[s[DitGroupKey].number].name
            && pra.businessUnit == s[BusinessUnitKey].text
            && pra.authorizedReason == s[AuthorizedReasonKey].text
            && pra.riskCategory == s[RiskCategoryKey].text
            && pra.mitigationOutcome == (if MitigationOutcomeKey in s then s[MitigationOutcomeKey].text else "")
            && pra.mitigationMeasures == (if MitigationMeasuresKey in s then s[MitigationMeasuresKey].text else "")
            && pra.approvedStaffMember == None && pra.approvedScs == None
            && (forall k :: k in st'.session <==> k in s && k !in KeySet(PraSessionKeys))
            && |st'.outbox| == |st.outbox| + 1 && st'.outbox[..|st.outbox|] == st.outbox
            && st'.outbox[|st.outbox|].recipient == pra.staffMember
  {
    var st' := Submit(st, requester, env).value.0;
    assert st'.outbox[..|st.outbox|] == st.outbox;
  }

  /** When the staff member or the SCS is not a known user, submitting saves
      nothing, sends nothing and keeps the session; it reports one error per
      unknown user, the staff member's first. */
  lemma SubmitUnknownUsersChangeNothing(st: State, requester: UserId, env: Env)
    requires Valid(st)
    requires SessionReady(st.session, env.groups)
    requires env.userByEmail(st.session[StaffMemberEmailKey].text).None?
             || env.userByEmail(st.session[ScsEmailKey].text).None?
    ensures var r := Submit(st, requester, env);
            var staffEmail, scsEmail := st.session[StaffMemberEmailKey].text, st.session[ScsEmailKey].text;
            && r.Ok? && r.value.0 == st
            && r.value.1 == ShowErrors(
                 (if env.userByEmail(staffEmail).None? then [StaffMemberNotFound(staffEmail)] else [])
                 + (if env.userByEmail(scsEmail).None? then [ScsNotFound(scsEmail)] else []))
  {
    var staffEmail, scsEmail := st.session[StaffMemberEmailKey].text, st.session[ScsEmailKey].text;
    var errors := Submit(st, requester, env).value.1.errors;
    if env.userByEmail(staffEmail).None? && env.userByEmail(scsEmail).None? {
      assert errors == [StaffMemberNotFound(staffEmail), ScsNotFound(scsEmail)];
    }
  }

  // ---------------------------------------------------------------------------
  // Wizard steps

  /** `create_pra_initial` on GET without `back`: start afresh. */
  function StartWizard(st: State): (st': State)
    ensures st'.session == ClearPraSession(st.session)
    ensures st'.pras == st.pras && st'.nextPk == st.nextPk && st'.outbox == st.outbox
  {
    st.(session := ClearPraSession(st.session))
  }

  /** `create_pra_initial` on a valid POST. */
  function EnterInitial(st: State, staffEmail: string, scsEmail: string, group: int): (r: (State, Reply))
    ensures r.0.session == st.session[StaffMemberEmailKey := Text(staffEmail)]
                                     [ScsEmailKey := Text(scsEmail)][DitGroupKey := Number(group)]
    ensures r.0.pras == st.pras && r.0.nextPk == st.nextPk && r.0.outbox == st.outbox
    ensures r.1 == Redirect(BusinessUnitPage)
  {
    (st.(session := st.session[StaffMemberEmailKey := Text(staffEmail)]
                              [ScsEmailKey := Text(scsEmail)][DitGroupKey := Number(group)]),
     Redirect(BusinessUnitPage))
  }

  /** `create_pra_business_unit` on a valid POST; it reads the DIT group first. */
  function EnterBusinessUnit(st: State, businessUnit: string): (r: Result<(State, Reply), Exception>)
    ensures r.Err? <==> DitGroupKey !in st.session
    ensures r.Err? ==> r.error == KeyError(DitGroupKey)
    ensures r.Ok? ==> r.value.0 == st.(session := st.session[BusinessUnitKey := Text(businessUnit)])
                      && r.value.1 == Redirect(ReasonPage)
  {
    if DitGroupKey !in st.session then Err(KeyError(DitGroupKey))
    else Ok((st.(session := st.session[BusinessUnitKey := Text(businessUnit)]), Redirect(ReasonPage)))
  }

  /** `create_pra_reason` on a valid POST. */
  function EnterReason(st: State, reason: string): (r: (State, Reply))
    ensures r.0 == st.(session := st.session[AuthorizedReasonKey := Text(reason)])
    ensures r.1 == Redirect(RiskCategoryPage)
  {
    (st.(session := st.session[AuthorizedReasonKey := Text(reason)]), Redirect(RiskCategoryPage))
  }

  /** `create_pra_risk_category` on a valid POST: remember the category, then
      move on as the routing says, or submit. */
  function EnterRiskCategory(st: State, requester: UserId, rc: string, env: Env): (r: Result<(State, Reply), Exception>)
    requires Valid(st)
    ensures r.Ok? ==> Valid(r.value.0)
    ensures rc !in RoutedRiskCategories ==> r == Err(Failure(UnknownRiskCategory(rc)))
    ensures rc == RcPreferNotToSay ==>
              r == Ok((st.(session := st.session[RiskCategoryKey := Text(rc)]), Redirect(PreferNotToSayPage)))
    ensures rc in {RcLivesWithModerateRisk, RcModerateRisk, RcElevatedRisk} ==>
              r == Ok((st.(session := st.session[RiskCategoryKey := Text(rc)]), Redirect(MitigationPage)))
    ensures rc in {RcHighRisk, RcLivesWithHighRisk, RcNoCategory} ==>
              r == Submit(st.(session := st.session[RiskCategoryKey := Text(rc)]), requester, env)
  {
    var st1 := st.(session := st.session[RiskCategoryKey := Text(rc)]);
    var next :- RouteRiskCategory(rc);
    if next == ToPreferNotToSay then Ok((st1, Redirect(PreferNotToSayPage)))
    else if next == ToMitigation then Ok((st1, Redirect(MitigationPage)))
    else Submit(st1, requester, env)
  }

  /** `create_pra_prefer_not_to_say` on POST: submit as is. */
  function ConfirmPreferNotToSay(st: State, requester: UserId, env: Env): (r: Result<(State, Reply), Exception>)
    requires Valid(st)
    ensures r.Ok? ==> Valid(r.value.0)
    ensures r == Submit(st, requester, env)
  {
    Submit(st, requester, env)
  }

  /** `create_pra_mitigation` on a valid POST. */
  function EnterMitigation(st: State, requester: UserId, mo: string, env: Env): (r: Result<(State, Reply), Exception>)
    requires Valid(st)
    ensures r.Ok? ==> Valid(r.value.0)
    ensures RouteMitigation(mo).Err? ==> r == Err(Failure(UnknownMitigationOutcome(mo)))
    ensures mo == MoApproveNoMitigation ==>
              r == Submit(st.(session := st.session[MitigationOutcomeKey := Text(mo)]), requester, env)
    ensures mo == MoApproveMitigationRequired ==>
              r == Ok((st.(session := st.session[MitigationOutcomeKey := Text(mo)]), Redirect(MitigationApprovePage)))
    ensures mo == MoDoNotApprove ==>
              r == Ok((st.(session := st.session[MitigationOutcomeKey := Text(mo)]), Redirect(MitigationDoNotApprovePage)))
  {
    var st1 := st.(session := st.session[MitigationOutcomeKey := Text(mo)]);
    var next :- RouteMitigation(mo);
    if next == ToMitigationApprove then Ok((st1, Redirect(MitigationApprovePage)))
    else if next == ToMitigationDoNotApprove then Ok((st1, Redirect(MitigationDoNotApprovePage)))
    else Submit(st1, requester, env)
  }

  /** `create_pra_mitigation_approve` and `create_pra_mitigation_do_not_approve`
      on a valid POST: remember the measures and submit. */
  function EnterMitigationMeasures(st: State, requester: UserId, measures: string, env: Env): (r: Result<(State, Reply), Exception>)
    requires Valid(st)
    ensures r.Ok? ==> Valid(r.value.0)
    ensures r == Submit(st.(session := st.session[MitigationMeasuresKey := Text(measures)]), requester, env)
  {
    Submit(st.(session := st.session[MitigationMeasuresKey := Text(measures)]), requester, env)
  }

  // ---------------------------------------------------------------------------
  // Viewing and approving a saved PRA

  predicate IsParty(pra: PraRecord, user: UserId) {
    user == pra.staffMember || user == pra.lineManager || user == pra.scs
  }

  /** `pra_view`: only the staff member, the line manager and the SCS may look. */
  function ViewPra(st: State, user: UserId, pk: nat): (r: Result<PraRecord, Exception>)
    ensures pk !in st.pras ==> r == Err(Http404)
    ensures pk in st.pras ==> (r.Ok? <==> IsParty(st.pras[pk], user))
    ensures pk in st.pras && !IsParty(st.pras[pk], user) ==> r == Err(PermissionDenied)
    ensures r.Ok? ==> r.value == st.pras[pk]
  {
    if pk !in st.pras then Err(Http404)
    else if !IsParty(st.pras[pk], user) then Err(PermissionDenied)
    else Ok(st.pras[pk])
  }

  const NoStaffMemberApprovalNeeded: string := "PRA does not need staff member approval"
  const NoScsApprovalNeeded: string := "PRA does not need SCS approval"

  /** `_mark_pra_staff_member_approval`. */
  function MarkStaffMemberApproval(st: State, user: UserId, pk: nat, approval: bool, env: Env)
    : (r: Result<(State, Reply), Exception>)
    requires Valid(st)
    ensures pk !in st.pras ==> r == Err(Http404)
    ensures pk in st.pras && user != st.pras[pk].staffMember ==> r == Err(PermissionDenied)
    ensures pk in st.pras && user == st.pras[pk].staffMember && !env.needsStaffMemberApproval(st.pras[pk]) ==>
              r == Err(Failure(NoStaffMemberApprovalNeeded))
    ensures r.Ok? <==>
              pk in st.pras && user == st.pras[pk].staffMember && env.needsStaffMemberApproval(st.pras[pk])
    ensures r.Ok? ==>
              var pra := st.pras[pk];
              var (st', reply) := r.value;
              && Valid(st')
              && st'.pras == st.pras[pk := pra.(approvedStaffMember := Some(approval))]
              && st'.session == st.session && st'.nextPk == st.nextPk
              && reply == Redirect(PraViewPage(pk))
              && |st'.outbox| == |st.outbox| + (if approval then 2 else 1)
              && st'.outbox[..|st.outbox|] == st.outbox
              && st'.outbox[|st.outbox|] == Notification(pra.lineManager, DecisionNotice(StaffMemberRole, approval, pk))
              && (approval ==> st'.outbox[|st.outbox| + 1] == Notification(pra.scs, ScsApprovalRequest(pk)))
  {
    if pk !in st.pras then Err(Http404)
    else
      var pra := st.pras[pk];
      if user != pra.staffMember then Err(PermissionDenied)
      else if !env.needsStaffMemberApproval(pra) then Err(Failure(NoStaffMemberApprovalNeeded))
      else
        var toLineManager := Notification(pra.lineManager, DecisionNotice(StaffMemberRole, approval, pk));
        var toScs := if approval then [Notification(pra.scs, ScsApprovalRequest(pk))] else [];
        Ok((st.(pras := st.pras[pk := pra.(approvedStaffMember := Some(approval))],
                outbox := st.outbox + [toLineManager] + toScs),
            Redirect(PraViewPage(pk))))
  }

  /** `_mark_pra_scs_approval`. */
  function MarkScsApproval(st: State, user: UserId, pk: nat, approval: bool, env: Env)
    : (r: Result<(State, Reply), Exception>)
    requires Valid(st)
    ensures pk !in st.pras ==> r == Err(Http404)
    ensures pk in st.pras && user != st.pras[pk].scs ==> r == Err(PermissionDenied)
    ensures pk in st.pras && user == st.pras[pk].scs && !env.needsScsApproval(st.pras[pk]) ==>
              r == Err(Failure(NoScsApprovalNeeded))
    ensures r.Ok? <==> pk in st.pras && user == st.pras[pk].scs && env.needsScsApproval(st.pras[pk])
    ensures r.Ok? ==>
              var pra := st.pras[pk];
              var (st', reply) := r.value;
              && Valid(st')
              && st'.pras == st.pras[pk := pra.(approvedScs := Some(approval))]
              && st'.session == st.session && st'.nextPk == st.nextPk
              && reply == Redirect(PraViewPage(pk))
              && st'.outbox == st.outbox + [Notification(pra.lineManager, DecisionNotice(ScsRole, approval, pk))]
  {
    if pk !in st.pras then Err(Http404)
    else
      var pra := st.pras[pk];
      if user != pra.scs then Err(PermissionDenied)
      else if !env.needsScsApproval(pra) then Err(Failure(NoScsApprovalNeeded))
      else
        Ok((st.(pras := st.pras[pk := pra.(approvedScs := Some(approval))],
                outbox := st.outbox + [Notification(pra.lineManager, DecisionNotice(ScsRole, approval, pk))]),
            Redirect(PraViewPage(pk))))
  }

  // ---------------------------------------------------------------------------
  // The workflow as a whole

  datatype Action =
    | Start
    | Initial(staffEmail: string, scsEmail: string, group: int)
    | BusinessUnit(businessUnit: string)
    | Reason(reason: string)
    | RiskCategory(rc: string)
    | PreferNotToSay
    | Mitigation(mo: string)
    | MitigationMeasures(measures: string)
    | StaffMemberDecision(pk: nat, approval: bool)
    | ScsDecision(pk: nat, approval: bool)

  /** One request by `user` against the workflow. */
  function Step(st: State, user: UserId, action: Action, env: Env): (r: Result<(State, Reply), Exception>)
    requires Valid(st)
    ensures r.Ok? ==> Valid(r.value.0)
    ensures r.Ok? ==> st.pras.Keys <= r.value.0.pras.Keys && st.outbox <= r.value.0.outbox
    ensures action.Start? ==>
              r.Ok? && r.value.1 == ShowForm(InitialPage)
              && r.value.0.session.Keys == st.session.Keys - KeySet(PraSessionKeys)
              && (forall k :: k in r.value.0.session ==> r.value.0.session[k] == st.session[k])
              && r.value.0.pras == st.pras && r.value.0.nextPk == st.nextPk
              && r.value.0.outbox == st.outbox
  {
    match action
    case Start => Ok((StartWizard(st), ShowForm(InitialPage)))
    case Initial(staffEmail, scsEmail, group) => Ok(EnterInitial(st, staffEmail, scsEmail, group))
    case BusinessUnit(bu) => EnterBusinessUnit(st, bu)
    case Reason(reason) => Ok(EnterReason(st, reason))
    case RiskCategory(rc) => EnterRiskCategory(st, user, rc, env)
    case PreferNotToSay => ConfirmPreferNotToSay(st, user, env)
    case Mitigation(mo) => EnterMitigation(st, user, mo, env)
    case MitigationMeasures(measures) => EnterMitigationMeasures(st, user, measures, env)
    case StaffMemberDecision(pk, approval) => MarkStaffMemberApproval(st, user, pk, approval, env)
    case ScsDecision(pk, approval) => MarkScsApproval(st, user, pk, approval, env)
  }

  /** The notifications a successful step added. */
  function Sent(st: State, st': State): seq<Notification>
    requires st.outbox <= st'.outbox
  {
    st'.outbox[|st.outbox|..]
  }

  lemma SubmitSendsNoScsRequest(st: State, requester: UserId, env: Env)
    requires Valid(st)
    requires Submit(st, requester, env).Ok?
    ensures var st' := Submit(st, requester, env).value.0;
            st.outbox <= st'.outbox
            && forall n :: n in Sent(st, st') ==> !n.kind.ScsApprovalRequest?
  {
  }

  /** No step loses a notification, and the SCS is asked to approve a PRA
      only by the staff member's approval of that PRA, which is recorded as
      true by the same step: SCS approval is never requested before the
      staff member has approved. */
  lemma ScsAskedOnlyAfterStaffMemberApproval(st: State, user: UserId, action: Action, env: Env)
    requires Valid(st)
    requires Step(st, user, action, env).Ok?
    ensures var st' := Step(st, user, action, env).value.0;
            st.outbox <= st'.outbox
            && forall n :: n in Sent(st, st') && n.kind.ScsApprovalRequest? ==>
                 && action == StaffMemberDecision(n.kind.pk, true)
                 && n.kind.pk in st'.pras
                 && st'.pras[n.kind.pk].approvedStaffMember == Some(true)
                 && n.recipient == st'.pras[n.kind.pk].scs
  {
    var st' := Step(st, user, action, env).value.0;
    match action
    case RiskCategory(rc) =>
      if rc in {RcHighRisk, RcLivesWithHighRisk, RcNoCategory} {
        SubmitSendsNoScsRequest(st.(session := st.session[RiskCategoryKey := Text(rc)]), user, env);
      }
    case PreferNotToSay =>
      SubmitSendsNoScsRequest(st, user, env);
    case Mitigation(mo) =>
      if mo == MoApproveNoMitigation {
        SubmitSendsNoScsRequest(st.(session := st.session[MitigationOutcomeKey := Text(mo)]), user, env);
      }
    case MitigationMeasures(measures) =>
      SubmitSendsNoScsRequest(st.(session := st.session[MitigationMeasuresKey := Text(measures)]), user, env);
    case StaffMemberDecision(pk, approval) =>
      var sent := Sent(st, st');
      forall n | n in sent && n.kind.ScsApprovalRequest?
        ensures action == StaffMemberDecision(n.kind.pk, true)
      {
        var i :| 0 <= i < |sent| && sent[i] == n;
        assert st'.outbox[|st.outbox| + i] == n;
      }
    case ScsDecision(pk, approval) =>
      assert Sent(st, st') == [Notification(st.pras[pk].lineManager, DecisionNotice(ScsRole, approval, pk))];
    case _ =>
      assert st'.outbox == st.outbox;
  }

  /** A whole pass through the wizard for a category that needs no
      mitigation step saves exactly one PRA holding the answers, leaves no
      wizard key in the session and sends exactly one e-mail, to the staff member. */
  lemma WizardRunSavesOnePra(
    st: State, requester: UserId, env: Env,
    staffEmail: string, scsEmail: string, group: int, businessUnit: string, reason: string, rc: string)
    requires Valid(st)
    requires group in env.groups
    requires env.userByEmail(staffEmail).Some? && env.userByEmail(scsEmail).Some?
    requires rc in {RcHighRisk, RcLivesWithHighRisk, RcNoCategory}
    ensures var st1 := StartWizard(st);
            var st2 := EnterInitial(st1, staffEmail, scsEmail, group).0;
            var st3 := EnterBusinessUnit(st2, businessUnit).value.0;
            var st4 := EnterReason(st3, reason).0;
            var r := EnterRiskCategory(st4, requester, rc, env);
            && r.Ok? && r.value.1 == Redirect(ThanksPage)
            && var st' := r.value.0;
            var pra := st'.pras[st.nextPk];
            && st'.pras.Keys == st.pras.Keys + {st.nextPk}
            && pra == PraRecord(env.userByEmail(staffEmail).value, requester, env.userByEmail(scsEmail).value,
                                env.groups[group].name, businessUnit, reason, rc, "", "", None, None)
            && (forall k :: k in st'.session ==> k !in KeySet(PraSessionKeys))
            && |st'.outbox| == |st.outbox| + 1
            && st'.outbox[|st.outbox|].recipient == env.userByEmail(staffEmail).value
  {
    var st1 := StartWizard(st);
    var st2 := EnterInitial(st1, staffEmail, scsEmail, group).0;
    var st3 := EnterBusinessUnit(st2, businessUnit).value.0;
    var st4 := EnterReason(st3, reason).0;
    var st5 := st4.(session := st4.session[RiskCategoryKey := Text(rc)]);
    WizardSession(st.session, staffEmail, scsEmail, group, businessUnit, reason, rc);
    assert st5.session == WizardAnswers(st.session, staffEmail, scsEmail, group, businessUnit, reason, rc);
    assert st5.pras == st.pras && st5.nextPk == st.nextPk && st5.outbox == st.outbox;
    assert EnterRiskCategory(st4, requester, rc, env) == Submit(st5, requester, env);
    SubmitCopiesSession(st5, requester, env);
  }

  /** The session after a fresh start and the first four wizard answers. */
  function WizardAnswers(session: Session, staffEmail: string, scsEmail: string, group: int,
                         businessUnit: string, reason: string, rc: string): Session
  {
    ClearPraSession(session)[StaffMemberEmailKey := Text(staffEmail)][ScsEmailKey := Text(scsEmail)]
      [DitGroupKey := Number(group)][BusinessUnitKey := Text(businessUnit)]
      [AuthorizedReasonKey := Text(reason)][RiskCategoryKey := Text(rc)]
  }

  lemma WizardSession(session: Session, staffEmail: string, scsEmail: string, group: int,
                      businessUnit: string, reason: string, rc: string)
    ensures var s := WizardAnswers(session, staffEmail, scsEmail, group, businessUnit, reason, rc);
            && s[StaffMemberEmailKey] == Text(staffEmail) && s[ScsEmailKey] == Text(scsEmail)
            && s[DitGroupKey] == Number(group) && s[BusinessUnitKey] == Text(businessUnit)
            && s[AuthorizedReasonKey] == Text(reason) && s[RiskCategoryKey] == Text(rc)
            && MitigationOutcomeKey !in s && MitigationMeasuresKey !in s
  {
    PraSessionKeySet();
  }
}
