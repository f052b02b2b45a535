# return-to-office, modelled in Dafny

This is a model of the core logic of the return-to-office web application, which is a Django app. The app lets staff book desks and lets line managers file personal risk assessments (PRAs). The model is functional: immutable datatypes, pure functions and one loop. Six pieces are covered, one module each, plus two support modules (`Results` and `Text`):

- `DitGroups` covers business units. A DIT group stores its business units as newline-separated text. The validator rejects text that holds no unit. The getter returns the stripped, non-blank lines, or `["Unknown"]` when there are none. `Text` models the Python `str.strip()`, `str.split("\n")` and `"\n".join` calls this is built from.
- `Bookings` covers three things:
  - the four-case "on behalf of" description of a booking;
  - the rule that a booking date may not lie in the past, which both booking forms apply;
  - the floor choices for a chosen building, ordered by name.
- `Users` covers the user helpers: the contact address fallback, the short name, the name getters, and `has_usable_password`, which always answers no.
- `AuthBackend` covers single sign-on get-or-create on a user table keyed by e-mail address.
- `Pingdom` covers the health check:
  - every service's result goes into a dictionary keyed by service name;
  - the reply is OK/200, or FALSE/500 with one XML comment per failed check.
- `Pra` and `PraWorkflow` cover the PRA wizard and its approvals, modelled as a state machine over four things:
  - the session map;
  - the store of saved PRAs;
  - the key the next PRA gets;
  - an outbox of `(recipient, kind)` e-mail events.

  The risk category and the mitigation outcome route the wizard. Submitting checks both users, saves the PRA, clears the wizard's eight session keys and e-mails the staff member. The staff member's decision, and then the SCS's, each set one flag and notify the next people.

Some things the workflow uses are not defined in `main/views_pra.py`:

- `User.get_by_email`;
- `PRA.needs_staff_member_approval`;
- `PRA.needs_scs_approval`;
- the DIT group table.

They are passed in as the fields of `PraWorkflow.Env`, so every property holds whatever they do. `datetime.date.today()` and the measured response time are parameters.

## Model

| member | source | states |
|---|---|---|
| `Text.Strip` | main/models.py:31 | `str.strip()`: the result is a contiguous slice of the input. Only whitespace (the `str.isspace` set) lies on either side of it, and the result neither starts nor ends with whitespace. |
| `Text.StripUnique` | main/models.py:31 | `str.strip()` is determined by its job: for a non-empty stripped string between two runs of whitespace, stripping the whole gives that string. |
| `Text.StripEmpty` | main/models.py:31 | A string strips to "" exactly when it consists of whitespace only. |
| `Text.Split` | main/models.py:31 | `str.split(sep)` gives at least one piece, no piece contains the separator, and joining the pieces with the separator gives the input back. |
| `Text.SplitJoin` | main/migrations/0011_dummy_ditgroup.py:9-23 | Splitting `"\n".join(parts)` gives back `parts` when no part contains a newline. |
| `Text.Join` | main/migrations/0011_dummy_ditgroup.py:9-23 | `sep.join(parts)`: no parts give "", and the first part begins the result. |
| `Text.JoinShape` | main/migrations/0011_dummy_ditgroup.py:9-23 | When no part contains the separator, the joined text contains it exactly when there are at least two parts, and it ends with the last part. |
| `DitGroups.StrippedNonBlank` | main/models.py:31 | The comprehension `[x.strip() for x in lines if x.strip()]` yields only non-empty, stripped strings, at most one per line. |
| `DitGroups.ParseUnits` | main/models.py:30-34 | Every parsed unit is non-empty, has no surrounding whitespace and contains no newline. |
| `DitGroups.ValidateBusinessUnits` | main/models.py:6-10 | A rejection always carries "At least one business unit must be defined". |
| `DitGroups.ValidatorAcceptsIffNonBlankLine` | main/models.py:6-10 | The validator accepts exactly the texts that have a line which is not blank after stripping. A missing or empty text is rejected. |
| `DitGroups.GetBusinessUnits` | main/models.py:27-40 | The getter never returns an empty list. Every unit is well formed, and the result is either the parsed units or `["Unknown"]`. |
| `DitGroups.UnitsAreNonBlankLines` | main/models.py:30-34 | Stripping the whole text before splitting changes nothing. The units are the stripped non-blank lines of the text as given, in order. |
| `DitGroups.StripChangesNoUnit` | main/models.py:31 | Stripping the whole text before splitting it into lines does not change the list of stripped non-blank lines. |
| `DitGroups.GetBusinessUnitsAreTextLines` | main/models.py:30-40 | The getter returns the stripped non-blank lines in order, and `["Unknown"]` exactly when there is no such line. |
| `DitGroups.ValidatorAgreesWithGetter` | main/models.py:6-40 | A text the validator accepts yields its own non-empty unit list. A text it rejects yields exactly the fallback. |
| `DitGroups.BusinessUnitsRoundTrip` | main/migrations/0011_dummy_ditgroup.py:7-24 | Storing a non-empty list of well-formed units as `"\n".join(units)` and reading it back gives the same list. |
| `Bookings.OnBehalfOf` | main/models.py:91-109 | `get_on_behalf_of` never returns "". A given name always begins the description. Without a name, the description is the e-mail address if one is given, and "Yourself" otherwise. |
| `Bookings.OnBehalfOfCases` | main/models.py:100-109 | The four cases of `get_on_behalf_of`, with `None` and `""` both absent: "Yourself", the name, the e-mail address, and "name (email)". |
| `Bookings.OnBehalfOfReadable` | main/models.py:91-109 | The description is never empty. When both fields are given, the name and the address can be read back out of it. |
| `Bookings.BookingFormCleanDate` | main/forms.py:16-22 | The date is rejected with "Bookings cannot be in the past." exactly when it is before today. Otherwise it is returned unchanged. |
| `Bookings.BookingForm2CleanDate` | main/forms.py:41-47 | The same rule for the second booking form. |
| `Bookings.BeforeIsKeyOrder` | main/forms.py:19 | For dates whose month and day are in range, the year-month-day comparison is the order of a single numeric key (31-day months, 372-day years), so it is a total order. |
| `Bookings.BookableDatesFromToday` | main/forms.py:19-22 | Today is accepted. A date is accepted exactly when its key is not below today's. |
| `Bookings.BothFormsApplySameDateRule` | main/forms.py:41-47 | Both forms give the same answer for every date and every today. |
| `Bookings.InsertByName` | main/forms.py:39 | Inserting into a name-sorted list keeps it sorted and adds exactly the one floor. |
| `Bookings.SortByName` | main/forms.py:39 | `order_by("name")`: the result is sorted by name and is a permutation of the input. |
| `Bookings.FloorsOf` | main/forms.py:39 | `filter(building=...)`: every floor of the building appears as many times as in the input, and no other floor appears. |
| `Bookings.FloorChoices` | main/forms.py:35-39 | With a building, the choices are sorted by name and are a permutation of that building's floors. Without one, every floor is offered. |
| `Users.ContactEmail` | custom_usermodel/models.py:16-17 | A non-empty contact address is returned. An empty one falls back to the login e-mail address. |
| `Users.ContactEmailIsStored` | custom_usermodel/models.py:17 | The result is always one of the two stored addresses. It is empty only if both are. |
| `Users.ShortName` | custom_usermodel/abstractModel.py:73-74 | The short name is the first name, one space, then the last name. Its length is the sum plus one, so the space is there even for empty names. |
| `Users.ShortNameSplitsBack` | custom_usermodel/abstractModel.py:74 | Two users with the same short name and the same first-name length have the same first and last names. |
| `Users.FirstName` | custom_usermodel/abstractModel.py:29-30 | The stored first name is returned unchanged. |
| `Users.LastName` | custom_usermodel/abstractModel.py:39-40 | The stored last name is returned unchanged. |
| `Users.ShortNameOfParts` | custom_usermodel/abstractModel.py:29-40 | The short name is made of the two getters' results. It is a lone space exactly when both names are empty. |
| `Users.HasUsablePassword` | custom_usermodel/abstractModel.py:70-71 | No user has a usable password, whatever the request and whatever password is stored. |
| `AuthBackend.GetOrCreateUser` | custom_usermodel/backends.py:21-39 | See the note below this table. |
| `AuthBackend.ExistingUserKeepsNames` | custom_usermodel/backends.py:22-29 | An existing user keeps its first name, last name and password. The profile's names are only defaults for creation. |
| `AuthBackend.GetOrCreateUserKeepsTable` | custom_usermodel/backends.py:22-32 | The table grows by at most one user. It grows exactly when the e-mail address was not yet in it. |
| `AuthBackend.GetOrCreateUserIdempotent` | custom_usermodel/backends.py:22-39 | Repeating the call with the same profile returns the same user and leaves the table as it is. |
| `Pingdom.DocumentFields` | pingdom/views.py:7-11 | `PINGDOM_TEMPLATE.format(...)` (the function `Pingdom.Document`): the result starts with the template's fixed head, and the status and the response time sit between its fixed parts, where they can be read back by position. |
| `Pingdom.Comment` | pingdom/views.py:13 | `COMMENT_TEMPLATE.format(...)`: the message inside `<!--` and `-->`, followed by a newline. |
| `Pingdom.Put` | pingdom/views.py:21 | See the note below this table. |
| `Pingdom.Collect` | pingdom/views.py:18-21 | See the note below this table. |
| `Pingdom.CheckServices` | pingdom/views.py:18-21 | The loop over the services builds exactly the dictionary `Pingdom.Collect` describes. |
| `Pingdom.FailureMessages` | pingdom/views.py:26-32 | The list of failure messages is empty exactly when every check succeeded. |
| `Pingdom.Respond` | pingdom/views.py:26-36 | The reply is XML with status 200 exactly when every check succeeded, and its body is the "OK" document. Otherwise the status is 500 and the body is the "FALSE" document followed by the comments for a non-empty list of failures. |
| `Pingdom.Pingdom` | pingdom/views.py:16-36 | The reply is exactly the one `Pingdom.Respond` builds from the dictionary `Pingdom.Collect` describes. So its body is the "OK" document or the "FALSE" document plus one comment per failure. It is 200 exactly when, for every name, the last service of that name succeeded. With distinct names, it is 200 exactly when every service succeeded. It is always 200 or 500. |
| `Pingdom.FailureMessageAt` | pingdom/views.py:32-33 | The failed check at position `i` gives the comment whose position is the number of failures before `i`, and it carries that check's message. |
| `Pingdom.FailureRankMonotone` | pingdom/views.py:32-33 | Comments appear in check order. A later check's comment position is never before an earlier one's. |
| `Pra.ChoiceValues` | main/models.py:123-141 | The values of a choice list are its keys, position by position. |
| `Pra.ChoiceMap` | main/models.py:123-141 | The dictionary of a choice list has exactly the list's values as keys. |
| `Pra.RcMappingShape` | main/models.py:116-130 | `RC_MAPPING` has six distinct keys, in this order. The wizard's risk category form offers exactly these. `lives_with_moderate_risk` is not one of them. |
| `Pra.MoMappingShape` | main/models.py:133-141 | `MO_MAPPING` has three distinct keys, offered in this order by the mitigation form. |
| `PraWorkflow.DeleteKeys` | main/views_pra.py:436-447 | Deleting a list of keys removes exactly those keys from the session. Every other entry keeps its value. |
| `PraWorkflow.ClearPraSession` | main/views_pra.py:433-447 | Exactly the eight wizard keys are removed. Every other session entry is kept with its value. |
| `PraWorkflow.PraSessionKeySet` | main/views_pra.py:436-445 | The eight keys cleared are the eight keys the wizard writes. |
| `PraWorkflow.ClearPraSessionIdempotent` | main/views_pra.py:433-447 | Clearing twice is clearing once. |
| `PraWorkflow.RouteRiskCategory` | main/views_pra.py:114-131 | A risk category is routed exactly when it is one of the seven named in the view. Any other value fails with "Unknown risk category '...'". |
| `PraWorkflow.RiskCategoryChoicesRoute` | main/forms_pra.py:127 | Each category the form offers is routed as intended: <ul><li>"prefer not to say" goes to its own page;</li><li>moderate or elevated risk goes to mitigation;</li><li>high risk, living with high risk and no category submit at once.</li></ul> |
| `PraWorkflow.RouteMitigation` | main/views_pra.py:177-190 | A mitigation outcome is routed exactly when it is one of the three. Anything else fails with "Unknown mitigation outcome '...'". |
| `PraWorkflow.MitigationChoicesRoute` | main/forms_pra.py:142 | Approve without mitigation submits. Approve with mitigation goes to the measures page, and do-not-approve goes to its page. Every offered outcome is routed. |
| `PraWorkflow.RiskCategoryRoutingAsWrittenFails` | main/views_pra.py:116-120 | As written, every category other than "prefer not to say" raises AttributeError, where the intended routing succeeds. |
| `PraWorkflow.RouteRiskCategoryAsWritten` | main/views_pra.py:114-131 | The routing as written succeeds only for "prefer not to say", where it agrees with the intended routing. Every other value raises AttributeError for `RC_LIVES_WITH_MODERATE_RISK`. |
| `PraWorkflow.ReadText` | main/views_pra.py:255-260 | `session[key]` succeeds exactly when the key holds text. A missing key raises KeyError. |
| `PraWorkflow.ReadOptionalText` | main/views_pra.py:261-262 | `session.get(key, "")` succeeds unless the key holds a non-text value. It yields the text or "". |
| `PraWorkflow.ReadAnswers` | main/views_pra.py:255-262 | See the note below this table. |
| `PraWorkflow.Record` | main/views_pra.py:264-320 | See the note below this table. |
| `PraWorkflow.Submit` | main/views_pra.py:252-320 | Submitting fails exactly when the session is not ready. The only failures are KeyError for a missing key, a wrong value type, and 404. Saved keys stay below the next key. |
| `PraWorkflow.SubmitCopiesSession` | main/views_pra.py:255-320 | With a ready session and both users known, submitting succeeds and redirects to the thanks page. It saves exactly one new PRA under a fresh key and sends one notification. See the note below this table. |
| `PraWorkflow.SubmitUnknownUsersChangeNothing` | main/views_pra.py:264-280 | With an unknown staff member or SCS, nothing is saved, sent or cleared. The errors are exactly one per unknown user, staff member first. |
| `PraWorkflow.StartWizard` | main/views_pra.py:38-40 | Opening the wizard afresh clears its session keys and touches nothing else. |
| `PraWorkflow.EnterInitial` | main/views_pra.py:29-37 | Stores the two addresses and the group key in the session, then goes to the business unit step. |
| `PraWorkflow.EnterBusinessUnit` | main/views_pra.py:56-67 | Raises KeyError exactly when no DIT group is in the session. Otherwise it stores the unit and goes to the reason step. |
| `PraWorkflow.EnterReason` | main/views_pra.py:84-90 | Stores the reason and goes to the risk category step. |
| `PraWorkflow.EnterRiskCategory` | main/views_pra.py:104-131 | Stores the category, then goes to the prefer-not-to-say page or the mitigation page, or submits. An unknown category fails. |
| `PraWorkflow.ConfirmPreferNotToSay` | main/views_pra.py:145-158 | The prefer-not-to-say page submits what the session holds. |
| `PraWorkflow.EnterMitigation` | main/views_pra.py:167-190 | Stores the outcome. Then it submits (no mitigation), goes to one of the two measures pages, or fails on an unknown outcome. |
| `PraWorkflow.EnterMitigationMeasures` | main/views_pra.py:204-243 | Both measures pages store the measures and submit. |
| `PraWorkflow.ViewPra` | main/views_pra.py:329-339 | A missing PRA is a 404. Viewing is allowed exactly for its staff member, line manager or SCS; anyone else gets PermissionDenied. |
| `PraWorkflow.MarkStaffMemberApproval` | main/views_pra.py:352-390 | See the note below this table. |
| `PraWorkflow.MarkScsApproval` | main/views_pra.py:403-430 | The checks are 404, then PermissionDenied for anyone but the SCS, then the "does not need SCS approval" failure. The request succeeds exactly when it passes all three. Only `approved_scs` is set, and only the line manager is notified. |
| `PraWorkflow.Step` | main/views_pra.py:26-430 | Every request keeps every saved PRA's key below the next key to be handed out. No saved PRA disappears, and no sent e-mail is taken back. Opening the wizard (a GET of `create_pra_initial` without `back`) clears the wizard keys and renders the initial form. Every other session entry keeps its value, and the PRAs, the next key and the outbox are untouched. |
| `PraWorkflow.SubmitSendsNoScsRequest` | main/views_pra.py:297-318 | Submitting never asks the SCS for approval. |
| `PraWorkflow.ScsAskedOnlyAfterStaffMemberApproval` | main/views_pra.py:379-388 | No step loses a notification. See the note below this table. |
| `PraWorkflow.WizardRunSavesOnePra` | main/views_pra.py:26-131 | A full wizard pass with a category that needs no mitigation saves one PRA holding the answers, with "" for both mitigation fields. It leaves no wizard key in the session and sends one e-mail, to the staff member. |

Notes on the longer rows:

- **`AuthBackend.GetOrCreateUser`**:
  - the returned user has the profile's e-mail address and contact address, and is the table's entry for that address;
  - a new user is built from the profile with an unusable password;
  - an existing user only has its contact address replaced;
  - no other entry changes.
- **`Pingdom.Put`**: this is `d[key] = value`. An existing key keeps its place and takes the new value. A new key is appended. No other entry changes.
- **`Pingdom.Collect`**:
  - the dictionary has one entry per service name;
  - each entry holds the result of the last service of that name;
  - with distinct names it is exactly one entry per service, in service order.
- **`PraWorkflow.ReadAnswers`**:
  - the session reads succeed exactly when the session is ready;
  - a KeyError names a key that is missing;
  - a 404 means the group key names no group;
  - the answers equal the session values, and the mitigation answers default to "".
- **`PraWorkflow.Record`**: the reply is either the list of errors or the redirect to the thanks page. With an unknown user, it is the errors (staff member first), and the state is unchanged. With both users known, it is the redirect, and:
  - one PRA is built from the answers, with no approvals yet, and saved under a fresh key;
  - the wizard keys are cleared;
  - exactly one e-mail goes to the staff member: the approval request if the PRA needs approval, otherwise the rejection notice.
- **`PraWorkflow.SubmitCopiesSession`**: the new PRA has these fields:
  - the requester as line manager;
  - the session's users, group, unit, reason and category;
  - mitigation fields from the session, or "" when absent;
  - no approvals.

  The wizard keys are gone, and the one notification goes to the staff member.
- **`PraWorkflow.MarkStaffMemberApproval`**:
  - the checks run in this order: 404, then PermissionDenied for anyone but the staff member, then the "does not need staff member approval" failure;
  - the request succeeds exactly when it passes all three checks;
  - only `approved_staff_member` is set;
  - the line manager is always notified, and the SCS is asked to approve exactly when the decision is approval.
- **`PraWorkflow.ScsAskedOnlyAfterStaffMemberApproval`**: an SCS approval request is only ever sent when three things hold:
  - the staff member approved that PRA in the same step;
  - the PRA records that approval;
  - the request goes to its SCS.

## Left out

- Desk and floor capacity reservation and the PRA expiry window: the application has no logic for either (the booking views are stubs).
- E-mail content: template identifiers, personalisation (including `full_name`), links built with `build_absolute_uri` and the Notify client. The model records only who is e-mailed about which PRA.
- The HTTP and form layer: the GETs of the later wizard steps, which render their form (the business-unit GET first reads `pra_dit_group`, which raises KeyError when it is absent, as the POST modelled by `PraWorkflow.EnterBusinessUnit` does); the `back` pre-filling of forms, which also reads session keys; Django form validation, `require_POST`, rendering and redirect URLs. Handlers take the already cleaned form values.
- `main/forms_pra.py` beyond its choice lists, `main/backends.py` (the local-development duplicate of the SSO backend), the admin CSV export, the activity stream, settings, middleware and the database check of the health check.
- The expectations in custom_usermodel/tests/test_backends.py: they ask for matching that the backend does not implement. The model follows the backend's code.
- The PRA fields that `main/models.py` declares but the views never write. The record has the fields the views use, including `scs`, `group`, `business_unit` and the two approvals, which the model class in `main/models.py` lacks.
- `PraWorkflow.Submit`: session values are either text or a number. A value of the other kind is a `WrongType` error, which stands for whatever Django would do with it. The session state after an exception is not modelled: a failing handler returns only the exception.
- `PraWorkflow.EnterRiskCategory`: an unknown category fails before the session is updated, whereas the view stores it first. The exception aborts the request, so the difference is not observable in the model.
- `AuthBackend.GetOrCreateUser`: it requires that every table entry is stored under its own e-mail address, as the unique `email` column guarantees. E-mail normalisation is not modelled.
- `Bookings.FloorChoices`: names are ordered by code point. A database collation may order them differently.
- `Pingdom.Pingdom`: the response time is an opaque, already formatted string. The float timing and its three-decimal formatting are left out. Check results are plain booleans, so `all(...)` truthiness and `is False` coincide.
- `Users.HasUsablePassword`: the request argument is a type parameter; its contents are never looked at.

## Findings

| source | as written | input that shows it | evidently intended | confidence | as-written member | corrected member |
|---|---|---|---|---|---|---|
| main/views_pra.py:116-120 | `PRA.RC_LIVES_WITH_MODERATE_RISK` is read, but `main/models.py` defines no such constant. Evaluating the `elif` raises AttributeError for every risk category except "prefer not to say". The `main/models.py` and `main/forms_pra.py` of this revision are older than the view, though: the forms lack `PRAFormBusinessUnit`, which main/views_pra.py:20 imports, and the `dit_group` field read at main/views_pra.py:35. The constant may exist in the revision the view was written against. | The risk category `moderate_risk` (or any other offered category except `prefer_not_to_say`) | The constant exists with value `lives_with_moderate_risk`. Moderate and elevated risk go to the mitigation step, and high risk, living with high risk and no category submit at once. | not executed | `PraWorkflow.RouteRiskCategoryAsWritten` (shown by `PraWorkflow.RiskCategoryRoutingAsWrittenFails`) | `PraWorkflow.RouteRiskCategory` (used by `PraWorkflow.EnterRiskCategory`) |
