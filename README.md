# Repair-ticket service: a Dafny model of its core logic

The application tracks repair requests ("заявки"). Clients, operators, managers,
specialists and quality managers create, view, edit and comment on requests.
The rules the web and service layers apply to those requests are modelled below, and their
properties are proved:

- **Access policy.** The role-based access policy is in `app/rbac.py`. An older copy
  that predates the quality-manager role is in `app/main.py`.
  - `domain.dfy` holds the role names, `Role`, users and tickets.
  - `rbac.dfy` holds the policy module.
  - `main_policy.dfy` holds the web layer's copy.
- **Statistics report.** `calculate_statistics_from_rows` makes one pass over flat
  request rows. It counts requests and completed requests, collects the repair
  durations and tallies two label histograms. It then ranks each histogram by count
  descending and label ascending.
  - `statistics.dfy` holds `CalculateStatisticsFromRows`, an imperative loop proved
    equal to the specification function `StatisticsOf`.
  - `histogram.dfy` holds the dictionaries, modelled as insertion-ordered association
    lists, and the ranking.
- **Service helpers** (`services.dfy`, `passwords.dfy`):
  - issue-type name normalisation;
  - the quality-survey link;
  - the choice of the status a new request starts in;
  - the `pbkdf2_sha256$<iterations>$<salt>$<hash>` password-hash format, with the
    checks `verify_password` makes on it.
- **Form handling in the web layer** (`forms.dfy`, `request_save.dfy`):
  - `parse_int`;
  - `parse_date`, which writes into a field-error dictionary it is passed (the
    `FieldErrors` class);
  - the flash-message table;
  - the request-save handler `ui_request_save`. It validates the form, forces a
    client to be the owner, applies the create or edit gate, fills in a completion
    date for a final status, and assigns the fields of the stored request (the
    `RepairRequestRecord` class).
- **Python built-ins the above relies on** are modelled in `text.dfy`:
  - `str.strip` over the full `str.isspace` set;
  - `str.split` on one character;
  - `int()` on a stripped literal, and `str()` of an integer;
  - code-point string ordering.
  - `wrappers.dfy` holds `Option` and `Result`.

Dates in the statistics are day numbers. The average is kept exact as a (sum, count)
pair. Database lookups, today's date and environment variables are parameters.

## Model

| member | source | states |
|---|---|---|
| Domain.RoleOf | app/services.py:17-21 | The five role names map to their roles and every other name to `Unknown`, keeping the name. |
| Domain.RoleNameRoundTrip | app/services.py:17-21 | Reading back a role's stored name gives the same role. |
| Domain.RoleName | app/rbac.py:7-17 | The name is empty for a missing user or a user without a role, and is the role row's name otherwise. |
| Domain.RoleOfUser | app/main.py:106-111 | A missing user or a user without a role is treated as the unknown empty role. |
| Rbac.CanCreateRequest | app/rbac.py:20-32 | True exactly for managers, operators, quality managers and clients. |
| Rbac.CanViewRequest | app/rbac.py:35-57 | Managers, operators and quality managers see every request. A specialist sees exactly the requests assigned to them, and a client exactly their own. Unknown roles see nothing. |
| Rbac.CanEditRequest | app/rbac.py:60-82 | Managers, operators and quality managers edit every request. A specialist edits exactly the requests assigned to them, and a client exactly their own requests whose status is not final. Unknown roles edit nothing, and every edit right implies the view right. |
| Rbac.CanDeleteRequest | app/rbac.py:85-91 | Only managers and operators may delete. |
| Rbac.CanAddComment | app/rbac.py:94-100 | Only specialists comment, and commenting implies both the edit and the view right. |
| Rbac.CanAssignMaster | app/rbac.py:103-113 | True exactly for managers, operators and quality managers. |
| Rbac.CanChangeStatus | app/rbac.py:116-151 | Unknown roles may change nothing. Keeping the same status is allowed for exactly the known roles. |
| Rbac.CanManageUsers | app/rbac.py:154-159 | True exactly for managers. |
| Rbac.CanViewStatistics | app/rbac.py:162-167 | True exactly for managers. |
| Rbac.UnknownRoleDeniedEverything | app/rbac.py:20-167 | A role name outside the five known ones is denied by all nine predicates. |
| Rbac.ClientEditIff | app/rbac.py:79-80 | A client may edit a request if and only if they own it and its status is not final. |
| Rbac.ClientEditFlips | app/rbac.py:79-80 | Making the status final, or the owner someone else, takes away a client's edit right. |
| Rbac.SpecialistTransitions | app/rbac.py:141-146 | A specialist may always keep the status and may never move a final status back to a non-final one. Every other transition is allowed. |
| Rbac.ClientAndStaffTransitions | app/rbac.py:134-149 | A client may change status only to the same id. Managers, operators and quality managers may make any transition. |
| Rbac.AdministrativeRights | app/rbac.py:85-113 | Deleting is for exactly managers and operators; a quality manager may assign but not delete. Managing users implies deleting, assigning and viewing statistics. |
| Rbac.CommentRights | app/rbac.py:94-100 | Commenting is allowed if and only if the user is the specialist assigned to the request. A commenter can neither create nor delete. |
| MainPolicy.CanViewRequest | app/main.py:114-122 | Managers and operators see every request. A specialist sees exactly the requests assigned to them, and a client exactly their own. Quality managers and unknown roles see nothing in this copy. |
| MainPolicy.CanEditRequest | app/main.py:125-133 | Managers and operators edit every request. A specialist edits exactly the requests assigned to them, and a client exactly their own requests whose status is not final. Quality managers and unknown roles edit nothing, and every edit right implies the view right. |
| MainPolicy.CanDeleteRequest | app/main.py:136-137 | Only managers and operators may delete. |
| MainPolicy.CanAddComment | app/main.py:140-141 | Commenting implies the edit right of this copy. |
| MainPolicy.CanCreateRequest | app/main.py:295-297 | The create gate lets through exactly clients, operators and managers. |
| MainPolicy.UnconditionalRights | app/main.py:114-133 | Viewing and editing every request is granted to exactly managers and operators. |
| MainPolicy.AgreesWithRbacExceptQualityManager | app/main.py:114-141 | Apart from the quality manager, the web copy agrees with the policy module on view, edit, delete, comment and create. |
| MainPolicy.QualityManagerDiverges | app/main.py:114-141 | A quality manager may view, edit and create under the policy module but not in the web copy. Neither copy lets them delete or comment. |
| Text.LStrip | app/services.py:209 | `lstrip` drops a leading run of whitespace and nothing more. |
| Text.RStrip | app/services.py:183 | `rstrip` drops a trailing run of whitespace and nothing more. |
| Text.Strip | app/services.py:209 | `strip` leaves no whitespace at either end. The result is empty exactly when the text is all whitespace. |
| Text.StripIdempotent | app/main.py:78 | Stripping twice is stripping once. |
| Text.Split | app/services.py:107 | `split` gives at least one field, and no field contains the separator. |
| Text.SplitConcat | app/services.py:107 | Splitting `a + sep + b` gives the fields of `a` followed by those of `b`. |
| Text.PyIntIgnoresWhitespace | app/main.py:82 | Whitespace around the text does not change what `int()` gives. |
| Text.PyIntSign | app/main.py:82 | A run of digits parses to its value; a leading `+` changes nothing, and a leading `-` negates it. |
| Text.PyIntLeadingZeros | app/main.py:82 | Leading zeros are accepted: "007" parses to 7. |
| Text.PyIntUnderscore | app/main.py:82 | A single underscore between digits is accepted: "1_000" parses to 1000. |
| Text.PyIntDoubledUnderscore | app/main.py:82 | Two underscores in a row make the text no integer. |
| Text.PyIntLeadingUnderscore | app/main.py:82 | A leading underscore makes the text no integer. |
| Text.PyIntTrailingUnderscore | app/main.py:82 | A trailing underscore makes the text no integer. |
| Text.IntToStringRoundTrip | app/services.py:96 | `int(str(n)) == n` for every integer; CPython does this only for integers within its digit limit. |
| Text.LexLtTransitive | app/services.py:235-246 | Code-point string order is transitive. |
| Text.LexLtTotal | app/services.py:235-246 | Code-point string order is total on distinct strings. |
| Forms.ParseIntFacts | app/main.py:75-84 | Gives `None` for a missing value. Otherwise agrees with `int()`, yielding a number exactly when the stripped text is an integer literal; it never raises. |
| Forms.ParseIntRoundTrip | app/main.py:75-84 | The text of any integer parses back to it; CPython does this only for integers within its digit limit. |
| Forms.ParseIsoDate | app/main.py:93 | Every date `strptime("%Y-%m-%d")` accepts exists in the calendar. |
| Forms.ParseIsoDateRoundTrip | app/main.py:93 | Every valid date written in ISO form parses back to itself. |
| Forms.UnpaddedDateAccepted | app/main.py:93 | `2024-1-5` is accepted as 5 January 2024. |
| Forms.LeapDayAccepted | app/main.py:93 | 29 February 2024 is accepted. |
| Forms.LeapDayRejectedInCommonYear | app/main.py:93 | 29 February 2023 is rejected. |
| Forms.DateFieldFacts | app/main.py:87-96 | A blank value is reported as missing, and malformed text as a bad format, both naming the field. Otherwise the date is the parsed one. |
| Forms.FieldErrors.constructor | app/main.py:473 | The dictionary starts empty. |
| Forms.FieldErrors.Put | app/main.py:90 | Writes one key and leaves the others as they were. |
| Forms.ParseDate | app/main.py:87-96 | Returns `None` exactly when it files a message under the field's key. On success the dictionary is unchanged, and no other key is ever written. |
| Forms.LookupMessage | app/main.py:67-69 | `dict.get` finds a message exactly when the code is in the table, and the message found is the one paired with it. |
| Forms.BuildStatusMessages | app/main.py:49-72 | A missing, empty or unknown code gives no message. A known code gives exactly one message, taken from the table. |
| Forms.StatusCodesDistinct | app/main.py:54-65 | No two table entries share a code. |
| Forms.KnownCodeMessage | app/main.py:54-72 | Each code of the table brings up exactly its own message. |
| Histogram.BumpKeys | app/services.py:210-215 | `d[k] = d.get(k, 0) + 1` adds `k` to the keys and no other key. A new key is appended at the end with count 1. |
| Histogram.BumpCount | app/services.py:210-215 | Bumping raises the count of `k` by one and leaves every other count alone. |
| Histogram.BumpTotal | app/services.py:210-215 | Bumping adds one to the sum of counts. |
| Histogram.BumpDistinct | app/services.py:210-215 | Bumping keeps the keys distinct. |
| Histogram.TallyDistinct | app/services.py:206-215 | A dictionary built by the loop never lists a label twice. |
| Histogram.TallyTotal | app/services.py:206-215 | The counts of the tally sum to the number of labels tallied. |
| Histogram.TallyCount | app/services.py:206-215 | The count under a label is the number of times it occurs. |
| Histogram.TallyKeys | app/services.py:206-215 | The tally's keys are exactly the labels that occur. |
| Histogram.Insert | app/services.py:235-246 | Inserting `e` into a strictly ranked list adds `e` to its elements and keeps it ranked. |
| Histogram.Ranked | app/services.py:235-246 | Sorting by (count descending, label ascending) is a permutation, and the result is strictly ranked when the keys are distinct. |
| Histogram.RankedPreserves | app/services.py:235-246 | Sorting keeps the keys, every count and the total. |
| Histogram.RankedUnique | app/services.py:235-246 | Two strictly ranked lists with the same elements are equal. |
| Histogram.SortedOutputIsRanked | app/services.py:235-246 | Any strictly ranked permutation of the dictionary is the sorted output: the order is fully determined. |
| Statistics.CategoryLabelFacts | app/services.py:209-215 | A blank label becomes "Не указано", any other label is stripped, and no label in the report is blank or padded. |
| Statistics.CalculateStatisticsFromRows | app/services.py:186-247 | The loop returns exactly the report `StatisticsOf` defines for the rows. |
| Statistics.AppendRow | app/services.py:206-222 | One more row adds one request, and one completed request if it is completed. Its duration joins the sample only if it is not negative. Its two labels are tallied. |
| Statistics.NegativeDurationExcluded | app/services.py:217-222 | A completed row with a negative duration is counted as completed, but the sample stays as it was. |
| Statistics.CompletedAtMostTotal | app/services.py:217-218 | There are never more completed requests than requests. |
| Statistics.DurationSample | app/services.py:217-222 | The sample has at most one value per completed row, and every value is at least 0. |
| Statistics.SumAtLeastMin | app/services.py:224-227 | A non-empty sample's sum is at least its size times its minimum. |
| Statistics.SumAtMostMax | app/services.py:224-227 | A non-empty sample's sum is at most its size times its maximum. |
| Statistics.AverageFacts | app/services.py:224-229 | The average is absent exactly when the sample is empty. Otherwise it is sum / size, lies between the sample's minimum and maximum, and its count is at most the completed requests. |
| Statistics.LabelsLength | app/services.py:206-215 | Each row contributes exactly one label to each histogram. |
| Statistics.LabelsNormalised | app/services.py:209-215 | Every label tallied is non-blank and stripped. |
| Statistics.EquipmentHistogram | app/services.py:206-246 | The equipment histogram has distinct labels, is ranked, and sums to the number of rows. The count under a label is the number of rows carrying it, and every label is stripped. |
| Statistics.IssueHistogram | app/services.py:206-246 | The same properties hold for the issue-type histogram. |
| Statistics.BlankEquipmentCountedUnspecified | app/services.py:209-212 | A row with a blank equipment type adds one under "Не указано". |
| Statistics.EmptyInput | app/services.py:199-247 | No rows give zero counts, no average and empty histograms. |
| Services.NormalizeFacts | app/services.py:169-183 | Blank text gives "Не указано". A stripped text of at most 255 characters is kept; a longer one becomes its first 252 characters, right-stripped, followed by "...". |
| Services.NormalizeBounds | app/services.py:176-183 | The normalised name never exceeds 255 characters and has no surrounding whitespace. |
| Services.TruncatedIsTrimmed | app/services.py:183 | The truncated name fits the column and is trimmed. |
| Services.NormalizeIdempotent | app/services.py:169-183 | Normalising a normalised name changes nothing. |
| Services.BuildQualitySurveyUrl | app/services.py:478-491 | Without an id the base is returned unchanged. With an id the base is kept as a prefix and a `request_id=` parameter follows it. |
| Services.SurveyUrlCarriesId | app/services.py:487-491 | The separator is `&` exactly when the base already contains `?`, and `?` otherwise. The value after `request_id=` is `str(id)`, and it parses back to the id. |
| Services.FirstNamed | app/services.py:456-460 | Some status is found exactly when one has the name, and the one found has it. |
| Services.LowestNonFinal | app/services.py:464-469 | Finds the non-final status with the smallest id, if there is one. |
| Services.NewRequestStatus | app/services.py:448-475 | The result is one of the statuses. It fails, with the configuration message, exactly when no status has the preferred name and every status is final. |
| Services.NewRequestStatusChoice | app/services.py:456-475 | The status named "Новая заявка" wins whenever it exists. Otherwise the new request starts in the lowest non-final status. |
| Passwords.HashPassword | app/services.py:66-96 | Fails exactly for an empty password or an iteration count PBKDF2 refuses; an empty password is refused first. |
| Passwords.FormatHashSplits | app/services.py:96-109 | A hash in the stored format splits on `$` back into tag, count, salt and hash. |
| Passwords.ParseFormatted | app/services.py:96-116 | A hash in the stored format parses back to its count, salt and key. |
| Passwords.VerifyPasswordAsWritten | app/services.py:99-126 | Success needs a non-empty password and exactly four `$`-fields tagged `pbkdf2_sha256`. It raises exactly when a well-formed hash carries a count or hash length PBKDF2 refuses. |
| Passwords.VerifyPassword | app/services.py:99-126 | Success needs a non-empty password, a non-empty stored hash, and exactly four `$`-fields tagged `pbkdf2_sha256`. |
| Passwords.HashThenVerify | app/services.py:66-126 | A password verifies against the hash made from it, under both the as-written and the corrected check, given that base64 decodes what it encodes and never writes `$`. |
| Passwords.VerifyOtherPassword | app/services.py:66-126 | Another password verifies against that hash exactly when PBKDF2 maps it to the same key. |
| Passwords.GarbageNeverVerifies | app/services.py:107-109 | Any stored text without `$` neither verifies nor raises. |
| Passwords.DefaultHashVerifies | app/services.py:66-96 | With the default 120 000 rounds and a 16-byte salt, hashing succeeds and the password verifies against the result. |
| Passwords.CorrectedAgreesWhereDefined | app/services.py:99-126 | Wherever the as-written check returns, the corrected check returns the same. Wherever the as-written check raises, the corrected one returns false. |
| Passwords.ZeroIterationHashRaises | app/services.py:118-124 | On `pbkdf2_sha256$0$$` the as-written check raises, and the corrected one returns false. |
| RequestSave.ClientIdOf | app/main.py:498-501 | A client user always saves for themself. Anyone else gets the client id parsed from the form. |
| RequestSave.ParseFormFacts | app/main.py:472-506 | An edit is a form whose id is not blank. The completion date is read only from typed text. The client id is the forced one. |
| RequestSave.ErrorsOfKeys | app/main.py:475-487 | Only known keys are written. The start date, equipment type, model and problem keys are written exactly when their checks fail. |
| RequestSave.ErrorsOfLaterKeys | app/main.py:489-504 | The status, completion date and client keys are written exactly when their checks fail. |
| RequestSave.ErrorsOfMessages | app/main.py:475-504 | Each written key carries the handler's message for it. |
| RequestSave.FormErrorsFacts | app/main.py:475-504 | For each required field (start date, equipment type, model, problem, status, client) and for a typed but malformed completion date, the key is reported exactly when the field is missing or malformed, with the handler's message. |
| RequestSave.RequireId | app/main.py:477-491 | Parses the id, and files the message exactly when the value is not truthy. |
| RequestSave.RequireText | app/main.py:481-487 | Strips the text, and files the message exactly when it is empty. |
| RequestSave.ReadCompletionDate | app/main.py:493-495 | The completion date is parsed, and may be reported, only when some text was typed. |
| RequestSave.ResolveClient | app/main.py:498-504 | The client id is forced for a client user and reported when it is not truthy. |
| RequestSave.ValidateRequestForm | app/main.py:472-506 | Starting from a fresh dictionary, the checks leave exactly the declarative errors and the parsed values. |
| RequestSave.ValidFormIsComplete | app/main.py:475-504 | A form without errors has a start date, truthy equipment-type, status and client ids, and non-blank trimmed texts. |
| RequestSave.SaveGate | app/main.py:562-580 | A missing status gives `forbidden`. A new request goes on exactly when the user may create one, and gets `forbidden` otherwise. An edit with an id that is not a truthy integer, or of a request that does not exist, gets `request_not_found`. An edit of an existing request goes on exactly when the user may edit it, and gets `forbidden` otherwise. |
| RequestSave.GateCodesHaveMessages | app/main.py:562-580 | Every redirect code the gate uses has a flash message. |
| RequestSave.CompletionDateToStore | app/main.py:591-592 | A final status always gets a completion date, today's if none was given. A given date is always kept. |
| RequestSave.StoredRepairPartsFacts | app/main.py:600 | Blank repair notes are stored as nothing. Any other text is stored stripped. |
| RequestSave.IssueTypeChoice | app/main.py:584-589 | The requested issue type is used exactly when it is truthy and exists. Otherwise the type named after the normalised description is used. |
| RequestSave.IssueTypeChoiceFacts | app/main.py:586-589 | A type chosen by name has a trimmed name of at most 255 characters. |
| RequestSave.SaveOutcomeOf | app/main.py:508-613 | The form is shown again exactly when there are field errors, and then with those errors. A valid form that the gate refuses redirects with the gate's code. A valid form that the gate lets through is saved: `request_created` for a new request, `request_updated` for an edit. |
| RequestSave.SavedOnlyWhenPermitted | app/main.py:562-580 | `request_created` needs a valid form, a status and the create right. `request_updated` needs a valid form, a status, the existing request and the edit right. |
| RequestSave.QualityManagerNeverSaves | app/main.py:566-580 | A quality manager can neither create nor edit through this handler. |
| RequestSave.SpecialistSaves | app/main.py:566-580 | A specialist never creates a request, and saves an edit only on a request assigned to them. |
| RequestSave.ClientSetsAnyStatus | app/main.py:566-598 | A valid edit by a client of an open request of their own is saved with a different status, although the status-change rule refuses that move to clients. |
| RequestSave.CheckedSaveGate | app/main.py:562-580 | Refuses whatever the handler's gate refuses, with the same code. An edit it lets through has a status and an existing request, and the user may move the request from its current status to the chosen one. |
| RequestSave.CheckedGateRespectsStatusRule | app/rbac.py:116-150 | Through the checked gate, a client's edit keeps the request's status. Staff pass it exactly as they pass the handler's gate. Every refusal is `forbidden` or `request_not_found`. |
| RequestSave.RepairRequestRecord.constructor | app/main.py:580 | A new record starts with every field unset. |
| RequestSave.RepairRequestRecord.Assign | app/main.py:591-602 | The record holds the parsed values, the resolved ids, the stored repair notes and the completion date to store. |
| RequestSave.DecideSave | app/main.py:472-580 | Validating and gating gives the handler's outcome and the parsed form. |
| RequestSave.SaveRequest | app/main.py:452-613 | The answer is the handler's outcome. On a save, the target record holds the form's values and the issue type the choice resolves to. On any other answer it is untouched. |
| RequestSave.SavedRequestFacts | app/main.py:497-602 | A saved request always has a truthy client, the user's own id when a client saves it, and a completion date when its status is final. |

## Left out

- **Database:**
  - Not modelled: database access and everything SQL decides: `calculate_statistics`, `calculate_specialist_load`, `get_or_create_*`, `load_*_lookups`, `authenticate_user`, and the lookups inside the handlers.
  - Their results enter as parameters: the status row, the existing request, the equipment-model id, whether the requested issue type exists, the issue-type id `get_or_create_issue_type` gives for a name, and the status table of `NewRequestStatus`.
  - RequestSave.SaveRequest: the equipment-model id is a free parameter. The model does not relate it to the type id and model name that `get_or_create_equipment_model` receives.
  - RequestSave.SaveRequest: the target record is not tied to the database. The model does not state that it is the row loaded for `existing` on an edit, or a fresh record on a create.
  - The commit, and the `forbidden` redirect after a failed commit (app/main.py:604-610), are not modelled.
- Services.FirstNamed: the status name column is unique (app/models.py:27), so at most one row has the name, and taking the first in table order is exact. The model does not carry the uniqueness constraint itself.
- **Crypto and random library calls:** PBKDF2-HMAC-SHA256, base64, `secrets.token_bytes` and `hmac.compare_digest` are uninterpreted functions of a `Primitives` value. The salt is a parameter, and `compare_digest` is equality.
  - Passwords.HashPassword: a `None` password (the `ValueError` at app/services.py:76-77) cannot occur with `string` inputs, and is not modelled.
- **Unicode limits:**
  - Text.PyInt: accepts ASCII digits only. Python's `int()` also accepts other Unicode decimal digits.
  - Text.PyInt: has no digit limit. CPython's `int()` and `str()` refuse integers of more than 4300 decimal digits (`sys.int_max_str_digits`, raising `ValueError`). The model therefore differs from the source on such inputs:
    - `parse_int` (app/main.py:75-84) gives `None` where Forms.ParseInt gives the value, so an over-long status id gets the "choose a status" error in the source but not in the model.
    - `verify_password` catches that `ValueError` inside its `try` (app/services.py:111-116) and returns `False`, where Passwords.VerifyPasswordAsWritten may give `Raised`.
    - Text.IntToStringRoundTrip and Forms.ParseIntRoundTrip hold in the source only for integers within the limit. The same holds for Text.PyIntSign and Text.PyIntLeadingZeros on digit runs longer than the limit.
  - Forms.ParseIsoDate: follows `strptime("%Y-%m-%d")` for ASCII digits and the single leading space `%d` allows. Other Unicode digits are not accepted.
- **Types and numbers:**
  - Statistics.AverageFacts: the average is a float in the source. Here it is the exact pair (sum, count).
  - Dates in the statistics are day numbers, so `(completion_date - start_date).days` is a subtraction.
  - Passwords: the wrap-around of C integers is not needed. Counts above `INT_MAX` are rejected, as PBKDF2 rejects them.
- **Web and I/O plumbing:**
  - Today's date and `QUALITY_SURVEY_URL` are parameters: `SurveyBase` covers the environment lookup. `ensure_default_secret_key` is left out for the same reason.
  - Not modelled: session middleware, templates, the `form_data`/context passed back to the form, FastAPI routing, and the redirect of a user who is not logged in (app/main.py:468-469).
  - Form fields are `string` values defaulting to "". The `(x or "")` guards on `None` are therefore the identity.
- `role_name` in app/main.py:106-111 is the same function as app/rbac.py:7-17, and is modelled once, as `Domain.RoleName`.
- **Request record:**
  - RequestSave.RepairRequestRecord.Assign: `req.client_id = int(client_id_val)` is stored as the parsed integer. The handler has checked that it is truthy.
  - Only the fields the handler assigns are modelled; the other columns of the record are left out.
- `app/models.py` contributes only the record fields (ids, `is_final`, dates).

## Findings

| source | as written | input that shows it | evidently intended | confidence | as-written member | corrected member |
|---|---|---|---|---|---|---|
| app/services.py:99-126 | `verify_password` calls `hashlib.pbkdf2_hmac` after the `try` block, so a parsed count below 1 (or above `INT_MAX`), or a hash field that decodes to no bytes (`dklen=len(expected)` is 0, app/services.py:123; an empty salt is accepted), raises `ValueError`/`OverflowError` out of the function | stored hash `pbkdf2_sha256$0$$` with any non-empty password | return `False` for every malformed stored hash, as the docstring promises | not executed | Passwords.VerifyPasswordAsWritten, Passwords.ZeroIterationHashRaises | Passwords.VerifyPassword |
| app/main.py:562-598 | `ui_request_save` checks only `user_can_edit_request` (app/main.py:575) and stores the form's `status_id` (app/main.py:598). It never asks `user_can_change_status` (app/rbac.py:116-150), so a client may move their own open request to any status | a client edits their own request in a non-final status, choosing a different existing status | refuse a status change the status-change rule forbids: clients may only keep the status | not executed | RequestSave.ClientSetsAnyStatus | RequestSave.CheckedSaveGate, RequestSave.CheckedGateRespectsStatusRule |

RequestSave.SaveOutcomeOf and RequestSave.SaveRequest model the handler as written, so they keep RequestSave.SaveGate. RequestSave.CheckedSaveGate is the gate with the status-change rule added.
