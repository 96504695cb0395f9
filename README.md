# Indico event-management rules: Dafny model

This project models four pieces of Indico, the CERN conference-management
application, and proves what they promise.

- **The contribution list of an event** (`indico/modules/events/contributions/util.py`):
  - the filter engine, which keeps the contributions that match a `{key: set of values}` filter configuration on session, track, type and scheduling status;
  - the total-duration pair shown beside the list;
  - the "is the edited contribution hidden by the filters" flag;
  - the filter choices offered for each key, including the "No session / No track / No type" null choice;
  - the spreadsheet export;
  - the naming of custom fields on the contribution form.
- **Event persons** (`indico/modules/events/models/persons.py`):
  - a person's principal and whether it holds a role in an ACL;
  - merging one person record into another: scalar columns first, then the four link collections (event, contribution, subcontribution and session-block links);
  - linking a new user account to the email-only persons that carry one of its addresses;
  - the `person_link_data` property, which reconciles an object's person links with the `submit` role in its ACL.
- **Registration management actions** (`indico/modules/events/registration/controllers/management/reglists.py`):
  - which registrations a bulk action applies to;
  - deleting, checking in, approving and rejecting them;
  - toggling a payment;
  - collecting file attachments for export;
  - pre-filling a registration for an existing user or a pending identity.
- **Evaluation-form field base** (`indico/modules/events/evaluation/fields/base.py`):
  - how a field's configuration form is split between the question and its `field_data`;
  - how the question's input field gets its validators.

The model follows the shape of the source. Pure decisions are functions with
lemmas. Code that updates records in loops is written as methods over classes
(`EventPerson`, `PersonLinkHolder`, `Registration`, `EvaluationQuestion`,
`EvaluationField`), with loop invariants. Each such method is proved against a
specification function, and the lemmas are proved about that function.

Files and modules:

- `wrappers.dfy` (`Wrappers`): `Option` and `Result`.
- `seqs.dfy` (`Seqs`): order-preserving filtering, subsequences, sums, joining and flattening.
- `sorting.dfy` (`Sorting`): sorting by a key. It stands for an ORM `order_by` and Python's `sorted(key=...)`.
- `decimal.dfy` (`Decimal`): decimal notation of numbers (`str(n)`, `int(s)`, `str.isdigit()`).
- `contributions.dfy` (`ContributionList`): the contribution list.
- `persons.dfy` (`EventPersons`): event persons.
- `reglists.dfy` (`RegistrationActions`): registration actions.
- `evaluation_fields.dfy` (`EvaluationFields`): evaluation fields.

Durations are whole seconds. Amounts are integers in the currency's minor
units. Database rows are in-memory sequences. Soft deletion is a flag.

## Behaviour worth knowing

- **Widening a filter is not always monotone.** Adding a value to a key's selection never removes a match only when that selection was already non-empty. An empty selection imposes no constraint, so its first value restricts the list. For `status`, the selection must already contain `scheduled` or `unscheduled`, since other values are ignored. `ContributionList.AddingChoiceKeepsMatches` states the property with exactly these preconditions.
- **The spreadsheet has a fixed layout.** It has ten fixed headers and no custom-field columns. Rows are ordered by `friendly_id`.

## Model

| member | source | states |
|---|---|---|
| `ContributionList.NonNullKeys` | indico/modules/events/contributions/util.py:171-172 | the non-null part of a selection, `ids - {None}`, holds exactly the selected values |
| `ContributionList.StatusCriteria` | indico/modules/events/contributions/util.py:151-159 | the status criteria built by the loop hold of a contribution exactly when its scheduling status is selected; every criterion added has at least one test |
| `ContributionList.ColumnCriteria` | indico/modules/events/contributions/util.py:164-173 | for one column: no criterion for an empty selection; otherwise one OR-criterion that holds exactly when the column matches the selection |
| `ContributionList.BuildCriteria` | indico/modules/events/contributions/util.py:150-173 | the AND of all collected criteria holds of a contribution exactly when it satisfies the reference selection predicate |
| `ContributionList.FilterListEntries` | indico/modules/events/contributions/util.py:147-174 | `_filter_list_entries` returns exactly the specification's filtered list |
| `ContributionList.NoItemsKeepsAll` | indico/modules/events/contributions/util.py:148-149 | no `items`, or empty `items`, returns the list unchanged |
| `ContributionList.KeptIsSubsequence` | indico/modules/events/contributions/util.py:150-174 | the result is a subsequence of the input (same order) and no longer than it |
| `ContributionList.KeptMembership` | indico/modules/events/contributions/util.py:147-174 | a contribution is listed iff it is in the input and matches the filters |
| `ContributionList.BothStatusesLikeNone` | indico/modules/events/contributions/util.py:151-159 | selecting both `scheduled` and `unscheduled` filters exactly as not filtering on status |
| `ContributionList.EmptyStatusSelectionLikeNone` | indico/modules/events/contributions/util.py:151-159 | a present but empty status selection filters exactly as an absent one |
| `ContributionList.StatusOnlySelection` | indico/modules/events/contributions/util.py:154-157 | selecting only `scheduled` (only `unscheduled`) keeps exactly the scheduled (unscheduled) contributions, in order |
| `ContributionList.EmptyColumnSelectionLikeNone` | indico/modules/events/contributions/util.py:164-167 | an empty session, track or type selection filters exactly as an absent one |
| `ContributionList.OnlyNoValueKeepsNullColumn` | indico/modules/events/contributions/util.py:168-173 | selecting only the null choice keeps exactly the contributions whose column is null |
| `ContributionList.ColumnCondition` | indico/modules/events/contributions/util.py:168-173 | with a non-empty selection, a contribution matches iff its column is null and the null choice is selected, or its column value is among the selected values |
| `ContributionList.AddingChoiceKeepsMatches` | indico/modules/events/contributions/util.py:150-174 | adding a value to a non-empty selection keeps every earlier match: the old result is a subsequence of the new one and obtained from it by the old filter |
| `ContributionList.SessionScenario` | indico/modules/events/contributions/util.py:161-173 | with two contributions in session 1 and three without a session, `{session: {None}}` lists the three and `{session: {"1"}}` lists the two |
| `ContributionList.TotalDuration` | indico/modules/events/contributions/util.py:183-184 | the scheduled-only duration never exceeds the total |
| `ContributionList.TotalDurationSplits` | indico/modules/events/contributions/util.py:183-184 | the total is the scheduled sum plus the sum over unscheduled contributions |
| `ContributionList.TotalDurationScenario` | indico/modules/events/contributions/util.py:183-184 | scheduled 30/45/60 min and unscheduled 20/25 min give (180 min, 135 min) |
| `ContributionList.HideContrib` | indico/modules/events/contributions/util.py:205 | `None` iff no contribution is given, otherwise true iff it is not among the listed entries |
| `ContributionList.HiddenIffFilteredOut` | indico/modules/events/contributions/util.py:201-205 | the edited contribution is flagged hidden iff it is not in the query or fails the filters |
| `ContributionList.ColumnChoices` | indico/modules/events/contributions/util.py:116-128 | a key's choices are the null choice with its label, then one choice per entity id with its title, in order |
| `ContributionList.StaticItems` | indico/modules/events/contributions/util.py:116-131 | four items: session, track and type, each with its "No ..." choice first and one choice per entity, the entity's id with its title (a type's name), then status with `scheduled` and `unscheduled` |
| `ContributionList.AllSessionChoicesKeepEverything` | indico/modules/events/contributions/util.py:116-124 | selecting every offered session choice, the null one included, excludes no contribution of the event |
| `ContributionList.ExportOrder` | indico/modules/events/contributions/util.py:219 | the export order is a permutation of the contributions sorted by `friendly_id` |
| `ContributionList.CollectAttachmentUrls` | indico/modules/events/contributions/util.py:229-236 | the download URLs are the files first, then each folder's attachments in folder order |
| `ContributionList.GenerateSpreadsheet` | indico/modules/events/contributions/util.py:213-241 | the fixed ten headers, and one row per contribution in `friendly_id` order, each row that contribution's row |
| `ContributionList.BuildRow` | indico/modules/events/contributions/util.py:220-239 | a row is the base cells, with `Materials` set to the joined URLs when any were collected |
| `ContributionList.RowHasEveryHeader` | indico/modules/events/contributions/util.py:217-227 | every row has exactly the header keys |
| `ContributionList.RowNullCells` | indico/modules/events/contributions/util.py:222-239 | `Type`, `Session`, `Track` and `Date` are null iff the association is absent; `Materials` is null iff there are no files and every folder is empty |
| `ContributionList.NamesUpToMembers` | indico/modules/events/contributions/util.py:255-261 | the custom attribute names are exactly `custom_<id>` of the custom fields whose definition is still available |
| `ContributionList.MakeContributionForm` | indico/modules/events/contributions/util.py:254-262 | the form has the base fields plus `custom_<id>` for each available custom field, holding its field; other base fields are untouched |
| `ContributionList.CustomFieldNamesDistinct` | indico/modules/events/contributions/util.py:260 | distinct custom field ids give distinct attribute names |
| `Decimal.NatToDecimal` | indico/modules/events/contributions/util.py:260 | `'{}'.format(id)` is a non-empty digit string without a leading zero |
| `Decimal.DecimalRoundTrip` | indico/modules/events/registration/controllers/management/reglists.py:260-262 | reading a number's decimal notation back gives the number |
| `Decimal.NatToDecimalInjective` | indico/modules/events/contributions/util.py:260 | distinct numbers have distinct notations |
| `Sorting.SortByKey` | indico/modules/events/contributions/util.py:219 | sorting by a key yields a permutation of the input whose keys are in order |
| `EventPersons.PrincipalOf` | indico/modules/events/models/persons.py:155-161 | the linked user if there is one, otherwise an email principal if the email is non-empty, otherwise none |
| `EventPersons.PrincipalIdentifies` | indico/modules/events/models/persons.py:155-161 | equal principals come from the same user, or from the same email when there is no user |
| `EventPersons.UpdatePrincipal` | indico/modules/events/models/persons.py:46-55 | the principal's roles become (old + added) - removed; no other principal's roles change |
| `EventPersons.HasRoleByEntries` | indico/modules/events/models/persons.py:253-259 | `has_role` holds iff the role is on the entry of the person's non-null user, or on the entry of its email |
| `EventPersons.PrincipalRoleGivesRole` | indico/modules/events/models/persons.py:253-259 | a role held by the person's principal is found by `has_role` |
| `EventPersons.MergedAuthorType` | indico/modules/events/models/persons.py:206-212 | primary iff either is primary; none iff both are none; always one of the two types |
| `EventPersons.MergedAuthorTypeIsJoin` | indico/modules/events/models/persons.py:206-212 | the merged type is the higher of the two on none < secondary < primary, so the merge is commutative |
| `EventPersons.FirstKeyIndex` | indico/modules/events/models/persons.py:215-216 | `next(...)` finds the first link with the key, or none when no link has it |
| `EventPersons.FindByKey` | indico/modules/events/models/persons.py:223-224 | the search loop returns exactly that first index |
| `EventPersons.MoveOrDropLinks` | indico/modules/events/models/persons.py:214-220 | the reassign-or-delete loop yields the specified link list |
| `EventPersons.MoveOrDropExtendsMine` | indico/modules/events/models/persons.py:214-220 | the merged person's links stay first and unchanged; every added link is one of the other person's |
| `EventPersons.MoveOrDropKeys` | indico/modules/events/models/persons.py:233-240 | with one key on both sides, at most one link per target remains, and the targets are the union of both persons' targets |
| `EventPersons.AbsorbContributionLink` | indico/modules/events/models/persons.py:229-230 | the kept link keeps its id and contribution, is a speaker if either was, and gets the merged author type |
| `EventPersons.MergeContributionLinks` | indico/modules/events/models/persons.py:222-231 | the contribution-link loop yields the specified link list |
| `EventPersons.MergedContributionLinksCorrect` | indico/modules/events/models/persons.py:222-231 | one link per contribution of either person; own links keep their place, each absorbing the other's link to the same contribution; the other's remaining links were moved over unchanged |
| `EventPersons.SessionBlockLinksAsWrittenKeepDuplicates` | indico/modules/events/models/persons.py:242-249 | as written, merging a link to block 7 into a person already linked to block 7 leaves two links to that block |
| `EventPersons.LiveIterationSkipsLinks` | indico/modules/events/models/persons.py:214-220 | as written, with links to events 1 and 2 on the other person and none on self, only the first link moves; iterating a copy moves both |
| `EventPersons.MergedSessionBlockLinksUnique` | indico/modules/events/models/persons.py:242-249 | comparing session blocks on both sides leaves one link per block, for the union of both persons' blocks |
| `EventPersons.PickKeepsSetValues` | indico/modules/events/models/persons.py:202-204 | a set value is kept and an unset one taken from the other person; repeating the merge changes nothing; a value is unset only if both were |
| `EventPersons.MergeLinkCollections` | indico/modules/events/models/persons.py:214-249 | the four link loops yield the four specified link lists |
| `EventPersons.EventPerson.MergeColumns` | indico/modules/events/models/persons.py:202-204 | each of title, first name, last name, affiliation, address and phone becomes the kept-or-taken value; nothing else changes |
| `EventPersons.EventPerson.MergeLinks` | indico/modules/events/models/persons.py:214-249 | the merged person gets the specified link lists, the other person is left with none, and no scalar changes |
| `EventPersons.EventPerson.MergePersonInfo` | indico/modules/events/models/persons.py:199-251 | the whole new state of both persons: merged scalars and links on self; the other person keeps its scalars and loses all links |
| `EventPersons.FindLinkedPerson` | indico/modules/events/models/persons.py:189-191 | finds a person of the event linked to the user, or reports that there is none |
| `EventPersons.LinkOne` | indico/modules/events/models/persons.py:188-196 | one iteration: a non-match changes nothing; a match is linked to the user (nothing else of it changes) exactly when its event has no person for the user; otherwise it is merged into that person, whose new columns and links are those of `merge_person_info`, and the matching person keeps its columns and loses its links; no third person changes; only persons of the visited person's event are in the frame |
| `EventPersons.VisitPerson` | indico/modules/events/models/persons.py:188-196 | one visit extends what the loop has achieved over the persons visited so far to one more person |
| `EventPersons.LinkUserByEmail` | indico/modules/events/models/persons.py:174-197 | non-matching persons remain and keep their user; a matching person that remains is linked to the user; a dropped one was left without links and its event has a remaining person linked to the user; (event, user) stays unique; persons of events with no matching person are not modified at all |
| `EventPersons.MatchedEvents` | indico/modules/events/models/persons.py:183-187 | the event of every person the query returns is included |
| `EventPersons.UniqueOnPicked` | indico/modules/events/models/persons.py:62 | persons kept in list order from a list with unique (event, user) stay unique |
| `EventPersons.Keys` | indico/modules/events/models/persons.py:48 | `value.keys()`: the links of the mapping, in its order |
| `EventPersons.LinkData` | indico/modules/events/models/persons.py:35-37 | the getter maps each person link, in order, to `is_submitter`, which is `has_role('submit')`: the user's entry or the email's entry holds `submit` |
| `EventPersons.PersonLinkHolder.SetPersonLinkData` | indico/modules/events/models/persons.py:39-55 | the links become the mapping's keys; the ACL becomes the old one with removed persons' `submit` revoked, then each listed person's flag applied |
| `EventPersons.RevokeTouchesOnlySubmit` | indico/modules/events/models/persons.py:43-46 | revoking for removed persons changes no role but `submit` |
| `EventPersons.RemovedLinkLosesSubmit` | indico/modules/events/models/persons.py:43-46 | a removed link whose person has a principal loses `submit` |
| `EventPersons.FlagsTouchOnlySubmit` | indico/modules/events/models/persons.py:49-55 | applying the flags changes no role but `submit` |
| `EventPersons.LastFlagDecides` | indico/modules/events/models/persons.py:49-55 | a principal holds `submit` afterwards iff its last listed flag is true |
| `EventPersons.UnlistedPrincipalUntouched` | indico/modules/events/models/persons.py:49-55 | a principal not among the listed persons keeps all its roles |
| `EventPersons.DroppedPersonCannotSubmit` | indico/modules/events/models/persons.py:43-55 | a person removed from the links and not listed again ends without `submit` |
| `EventPersons.PersonLinkDataRoundTrip` | indico/modules/events/models/persons.py:35-55 | setting a mapping, then reading it back, gives the same mapping, when principals are distinct, a person without a principal is not flagged, and the email entry of each person whose principal is not that entry holds no `submit` and belongs to no listed link |
| `EventPersons.EmailEntryKeepsSubmitter` | indico/modules/events/models/persons.py:35-55 | without the email-entry condition the round trip fails: unflagging a person linked to user 5 whose email entry holds `submit` reads back as a submitter |
| `EventPersons.FlaggedPersonHasSubmitRole` | indico/modules/events/models/persons.py:49-55 | a person flagged as submitter is afterwards found by `has_role(submit)` |
| `RegistrationActions.Registration.CheckIn` | indico/modules/events/registration/controllers/management/reglists.py:429-431 | PUT checks the registration in and changes nothing else |
| `RegistrationActions.Registration.UndoCheckIn` | indico/modules/events/registration/controllers/management/reglists.py:433-435 | DELETE checks the registration out and changes nothing else |
| `RegistrationActions.Registration.ModifyStatus` | indico/modules/events/registration/controllers/management/reglists.py:399-403 | approve puts it in the approved state and reject in the rejected one; nothing else changes |
| `RegistrationActions.NameLeIsTotalPreorder` | indico/modules/events/registration/controllers/management/reglists.py:189 | ordering by (last name, first name, friendly id) is total and transitive |
| `RegistrationActions.SubmittedIds` | indico/modules/events/registration/controllers/management/reglists.py:185 | the id set holds exactly the submitted ids |
| `RegistrationActions.SelectRegistrations` | indico/modules/events/registration/controllers/management/reglists.py:183-190 | exactly the non-deleted registrations of this form whose id was submitted, ordered by name, each once however often its id was submitted |
| `RegistrationActions.DistinctByMultiset` | indico/modules/events/registration/controllers/management/reglists.py:189 | reordering a list without repetitions leaves none |
| `RegistrationActions.PreviewRegistration` | indico/modules/events/registration/controllers/management/reglists.py:196-198 | an empty selection is a user error; otherwise the first registration is used |
| `RegistrationActions.BulkDelete` | indico/modules/events/registration/controllers/management/reglists.py:242-247 | every selected registration is marked deleted, the count is the selection size, and check-in, state, payment flag and transaction are unchanged |
| `RegistrationActions.BulkCheckIn` | indico/modules/events/registration/controllers/management/reglists.py:441-445 | every selected registration's check-in becomes `check_in == '1'`; deletion, state, payment flag and transaction are unchanged |
| `RegistrationActions.BulkModifyStatus` | indico/modules/events/registration/controllers/management/reglists.py:454-457 | every selected registration is approved when `approve == '1'`, rejected otherwise; deletion, check-in, payment flag and transaction are unchanged |
| `RegistrationActions.TogglePayment` | indico/modules/events/registration/controllers/management/reglists.py:384-395 | nothing is registered iff the requested state equals `is_paid`; paying completes the price in the registration's currency; unpaying cancels the transaction's amount in its currency; unpaying without a transaction is an error |
| `RegistrationActions.PayThenUnpayCancelsPrice` | indico/modules/events/registration/controllers/management/reglists.py:384-395 | paying and then unpaying cancels exactly the paid price in the same currency |
| `RegistrationActions.FileFields` | indico/modules/events/registration/controllers/management/reglists.py:467 | the file fields are exactly the form items of input type `file`, in form order |
| `RegistrationActions.FileAnswers` | indico/modules/events/registration/controllers/management/reglists.py:470-471 | a registration's attachments are answers it has whose `storage_file_id` is set and non-zero, at most one per file field |
| `RegistrationActions.FileAnswersComplete` | indico/modules/events/registration/controllers/management/reglists.py:470-471 | every answer to a file field whose `storage_file_id` is set and non-zero is exported |
| `RegistrationActions.CollectAttachments` | indico/modules/events/registration/controllers/management/reglists.py:463-472 | the loop builds exactly the specified attachment map |
| `RegistrationActions.AttachmentsOfKeys` | indico/modules/events/registration/controllers/management/reglists.py:466-472 | a registration id is a key iff a registration with that id has a stored file, and no entry is empty |
| `RegistrationActions.AttachmentsOfDistinct` | indico/modules/events/registration/controllers/management/reglists.py:466-472 | with distinct ids, each registration's entry is exactly its attachments in file-field order |
| `RegistrationActions.GetUserData` | indico/modules/events/registration/controllers/management/reglists.py:256-269 | no `user` argument gives `{}`; otherwise one value per personal-data field, from the user, the empty string for an unknown user, or the pending identity's data; the title is then mapped; a missing `title` field is an error |
| `RegistrationActions.UnknownUserGivesEmptyValues` | indico/modules/events/registration/controllers/management/reglists.py:260-267 | an unknown numeric id fills every field but the title with `''`; an identity that is not in the pending cache leaves every field but the title without a value |
| `EvaluationFields.CommonPart` | indico/modules/events/evaluation/fields/base.py:29 | only the common fields `title`, `description`, `help` and `is_required` are stored on the question |
| `EvaluationFields.FieldData` | indico/modules/events/evaluation/fields/base.py:66-68 | `field_data` holds neither a common field nor `csrf_token` |
| `EvaluationFields.ConfigSplitIsPartition` | indico/modules/events/evaluation/fields/base.py:64-68 | every form field but `csrf_token` goes to exactly one of the question and `field_data`, with its own data |
| `EvaluationFields.EvaluationField.SaveConfig` | indico/modules/events/evaluation/fields/base.py:59-68 | the question gets the common fields' data, the field type's name and the `field_data` split |
| `EvaluationFields.ValidatorsFor` | indico/modules/events/evaluation/fields/base.py:84-86 | the given validators (none for `None`), in order, followed by `DataRequired` exactly when the question is required |
| `EvaluationFields.ValidatorsRequireData` | indico/modules/events/evaluation/fields/base.py:84-86 | the field has a `DataRequired` validator iff the question is required or the caller gave one |
| `EvaluationFields.EvaluationField.MakeWtformsField` | indico/modules/events/evaluation/fields/base.py:74-87 | an error exactly when `description` is among the keyword arguments, as the call then passes it twice; otherwise a fresh validator list with those contents, so the caller's list is not changed, and label and description are the question's |

## Left out

- The ORM is not modelled: queries are in-memory sequences. Eager loading, `with_parent`, `count()`, `flush` and session handling are left out.
- Template rendering, `flash`, logging, signals, notification emails, zip file writing, and the PDF, CSV and XLSX byte producers are left out. They have no effect on the modelled state.
- `ContributionList.GenerateSpreadsheet`: `Duration` and `Date` are kept as raw numbers. `format_human_timedelta` and `format_datetime` are not part of this model.
- `ContributionList.GenerateSpreadsheet`: presenter names and download URLs are given as strings. `full_name`, `absolute_download_url` and `get_attached_items` are not part of this model.
- `ContributionList.StaticItems`: the model lists choices in the event's order of sessions, tracks and types. The source builds them from Python 2 dicts, whose order is unspecified.
- `ContributionList.StaticItems`: translated titles are plain strings.
- `ContributionList.TotalDuration`: contribution durations are taken to be non-negative (a `nat`); the bound of the scheduled sum by the total relies on this.
- `ContributionList.MakeContributionForm`: the model builds a map of attribute names. The source creates a class at run time, and `create_wtf_field` is an opaque value.
- `EventPersons.UpdatePrincipal`: `update_principal` and the ACL entry model are not part of this model. The ACL is a map from principal to its set of roles. `has_management_role(role, explicit=True)` means the role is in that set.
- `EventPersons.EventPerson.MergePersonInfo`: requires the two persons to be distinct, because merging a person into itself is not meaningful. `link_user_by_email` only merges a person without a user into one with a user.
- `EventPersons.EventPerson.MergePersonInfo`: the link loops are modelled as iterating a copy of the other person's collections. The source iterates the collections themselves, and each `link.person = self` removes the moved link from the collection being iterated, so the link after it is skipped. `EventPersons.MoveOrDropLive` models that; see Findings. A reassigned link is appended to self's collection.
- `EventPersons.EventPerson.MergePersonInfo`: the state given is the one after the flush at `persons.py` line 251. `db.session.delete` leaves a deleted link in the other person's collection until then.
- `EventPersons.EventPerson.MergePersonInfo`: the session-block loop follows the corrected comparison, block against block, as do `EventPersons.EventPerson.MergeLinks` and `EventPersons.MergeLinkCollections`. The loop as written is `EventPersons.SessionBlockLinksAsWritten`; see Findings.
- `EventPersons.EventPerson.MergeLinks`: the session-block list follows the corrected comparison, block against block, not the one on `persons.py` line 244.
- `EventPersons.MergeLinkCollections`: the session-block list follows the corrected comparison, block against block, not the one on `persons.py` line 244.
- `EventPersons.Keys`: the mapping is a sequence of (link, flag) pairs, which may repeat a link; the source's dict cannot. With a repeated link the last flag decides, as `EventPersons.LastFlagDecides` states.
- `EventPersons.LinkUserByEmail`: the contract does not give the final columns and links of a person that absorbs merges. Several matching persons of one event can be merged into it one after another. `EventPersons.LinkOne` states the effect of each single merge.
- `EventPersons.SessionBlockLinksAsWritten`: session-block links carry an optional `contributionId` so that the comparison on `persons.py` line 244 can be written as it is. The session-block link class is not part of this model. If that class has no such attribute, the line raises an error whenever both persons have session-block links.
- `EventPersons.LinkUserByEmail`: deleted events are a set of event ids, and the user relationship is the `userId` field.
- `EventPersons.LinkUserByEmail`: requires (event, user) to be unique beforehand, as the table constraint on `persons.py` line 62 guarantees. Without it `one_or_none` would raise.
- `Sorting.SortByKey`: stability is not proved. Ties cannot occur for the keys used here.
- `RegistrationActions.SelectRegistrations`: registrations are ordered by last name, then first name, then friendly id, in code-point order. `Registration.order_by_name` is not part of this model, so any case folding it does is not modelled.
- `RegistrationActions.SelectRegistrations`: submitted ids are integers. The source's form values are strings that the database compares with the id column.
- `RegistrationActions.Registration.ModifyStatus`: `update_state` is not part of this model. Approval and rejection are modelled as the resulting state.
- `RegistrationActions.TogglePayment`: `register_transaction` is not part of this model. The model returns the transaction request it would be given.
- `RegistrationActions.BulkCheckIn`: a missing `check_in` or `approve` form value makes the framework answer with a bad-request error. This is not modelled; the submitted value is a parameter.
- `RegistrationActions.GetUserData`: the pending-identity cache is a map parameter, and `get_title_uuid` is a function parameter.
- `RegistrationActions.GetUserData`: the names of `PersonalDataType` are a set parameter, and users are a map from id to record.
- `RegistrationActions.GetUserData`: `str.isdigit()` is modelled on ASCII digits only. Python also accepts other Unicode digits.
- `EvaluationFields.EvaluationField.MakeWtformsField`: the duplicate `description` keyword, a `TypeError` in the source, is the error result. A `label` or `validators` keyword also clashes inside the WTForms field constructor; the field classes are not part of this model, so that case gives a field.
- `EvaluationFields.EvaluationField.SaveConfig`: `IndicoForm.populate_obj` is not part of this model. Each common field's data is assigned to the question attribute of the same name.
- `get_wtforms_field` raises `NotImplementedError` in the base class and is not modelled. It is also why `name`, `plugin` and `friendly_name` are not modelled as behaviour.

## Findings

| source | as written | input that shows it | evidently intended | confidence | as-written member | corrected member |
|---|---|---|---|---|---|---|
| indico/modules/events/models/persons.py:243-244 | the held session-block link's `session_block_id` is compared with the other link's `contribution_id` | self has one link to session block 7 and the other person has one link to block 7 with no contribution id: the other link is moved, and self ends with two links to block 7 | compare `session_block_id` on both sides, as the event, contribution and subcontribution loops do, so that at most one link per block remains | not executed | `EventPersons.SessionBlockLinksAsWrittenKeepDuplicates` | `EventPersons.MergedSessionBlockLinksUnique` |
| indico/modules/events/models/persons.py:214-249 | each loop iterates the other person's link collection itself while `link.person = self` removes the moved link from that collection through the back-reference | the other person has links to events 1 and 2 and self has none: only the first link moves, and the second stays with the other person, whom `link_user_by_email` then deletes with the link | iterate over a copy (`list(other.event_links)`) so that every link is moved or absorbed | not executed | `EventPersons.LiveIterationSkipsLinks` | `EventPersons.MoveOrDropKeys` |
