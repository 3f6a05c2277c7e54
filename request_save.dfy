/**
 * The handler that saves the request form (`ui_request_save`): it
 * collects field errors, forces a client to be the owner, checks the
 * create or edit right, fills in a completion date for a final status and
 * assigns the fields of the stored request.
 *
 * Database lookups enter as parameters: the status row found for the
 * chosen id, the request found for the edited id (as the policy sees it)
 * and the ids of the equipment model and issue type resolved for it.
 */
module RequestSave {
  import opened Wrappers
  import opened Text
  import opened Domain
  import MainPolicy
  import Rbac
  import opened Forms
  import Services

  /** The raw form fields; every field defaults to "". */
  datatype RequestForm = RequestForm(
    id: string,
    startDate: string,
    equipmentTypeId: string,
    equipmentModelName: string,
    issueTypeId: string,
    problemDescription: string,
    statusId: string,
    completionDate: string,
    repairParts: string,
    masterId: string,
    clientId: string)

  /** Python truthiness of an `Optional[int]`: neither `None` nor 0. */
  predicate Truthy(x: Option<int>) {
    x.Some? && x.value != 0
  }

  const StartDateKey: string := "start_date"
  const EquipmentTypeKey: string := "equipment_type_id"
  const EquipmentModelKey: string := "equipment_model_name"
  const ProblemKey: string := "problem_description"
  const StatusKey: string := "status_id"
  const CompletionDateKey: string := "completion_date"
  const ClientKey: string := "client_id"

  const StartDateTitle: string := "Дата добавления"
  const CompletionDateTitle: string := "Дата завершения"

  const EquipmentTypeMessage: string := "Выберите тип оборудования."
  const EquipmentModelMessage: string := "Укажите модель оборудования."
  const ProblemMessage: string := "Опишите проблему."
  const StatusMessageText: string := "Выберите статус заявки."
  const ClientMessage: string := "Укажите заказчика."

  /** The keys under which the form reports errors. */
  const FieldKeys: set<string> :=
    {StartDateKey, EquipmentTypeKey, EquipmentModelKey, ProblemKey, StatusKey, CompletionDateKey, ClientKey}

  /** The values the handler works with once the form is read. */
  datatype ParsedForm = ParsedForm(
    isEdit: bool,
    startDate: Option<Date>,
    equipmentTypeId: Option<int>,
    equipmentModelName: string,
    problemDescription: string,
    statusId: Option<int>,
    completionDate: Option<Date>,
    masterId: Option<int>,
    clientId: Option<int>,
    issueTypeId: Option<int>)

  function DateOf(o: DateOutcome): Option<Date> {
    if o.Parsed? then Some(o.date) else None
  }

  /** The client a request is saved for: a client user always saves for themself, anyone else names the client. */
  function ClientIdOf(rawClientId: string, user: User): (r: Option<int>)
    ensures RoleOfUser(Some(user)) == Client ==> r == Some(user.id)
    ensures RoleOfUser(Some(user)) != Client ==> r == ParseInt(Some(rawClientId))
  {
    var fromForm := ParseInt(Some(rawClientId));
    if RoleName(Some(user)) == ClientName then Some(user.id) else fromForm
  }

  /** The parsed form: trimmed texts, parsed ids and dates; the completion date is read only when one was typed. */
  function ParseForm(form: RequestForm, user: User): ParsedForm {
    ParsedForm(
      Strip(form.id) != [],
      DateOf(DateField(form.startDate, StartDateTitle)),
      ParseInt(Some(form.equipmentTypeId)),
      Strip(form.equipmentModelName),
      Strip(form.problemDescription),
      ParseInt(Some(form.statusId)),
      if Strip(form.completionDate) != [] then DateOf(DateField(form.completionDate, CompletionDateTitle)) else None,
      ParseInt(Some(form.masterId)),
      ClientIdOf(form.clientId, user),
      ParseInt(Some(form.issueTypeId)))
  }

  /** An edit is a form with an id; a completion date is parsed only from typed text; the client is the one the handler saves for. */
  lemma ParseFormFacts(form: RequestForm, user: User)
    ensures var p := ParseForm(form, user);
      && (p.isEdit <==> !AllSpace(form.id))
      && (p.completionDate.Some? ==> !AllSpace(form.completionDate) && DateField(form.completionDate, CompletionDateTitle).Parsed?)
      && (p.startDate.Some? <==> DateField(form.startDate, StartDateTitle).Parsed?)
      && p.clientId == ClientIdOf(form.clientId, user)
      && (RoleOfUser(Some(user)) == Client ==> p.clientId == Some(user.id))
  {
  }

  /** `field_errors[key] = message` when `failed`. */
  function ReportIf(errors: map<string, string>, failed: bool, key: string, message: string): map<string, string> {
    if failed then errors[key := message] else errors
  }

  /** A date field's message, when it was rejected. */
  function ReportDate(errors: map<string, string>, outcome: DateOutcome, key: string): map<string, string> {
    if outcome.Rejected? then errors[key := outcome.message] else errors
  }

  /** What the checks of the handler found, field by field, before any message is written. */
  datatype Checks = Checks(
    startDate: DateOutcome,
    equipmentTypeId: Option<int>,
    modelBlank: bool,
    problemBlank: bool,
    statusId: Option<int>,
    completionDate: Option<DateOutcome>,
    clientId: Option<int>)

  /** The checks on a form: the completion date is looked at only when one was typed. */
  function ChecksOf(form: RequestForm, user: User): Checks {
    Checks(
      DateField(form.startDate, StartDateTitle),
      ParseInt(Some(form.equipmentTypeId)),
      Strip(form.equipmentModelName) == [],
      Strip(form.problemDescription) == [],
      ParseInt(Some(form.statusId)),
      if Strip(form.completionDate) != [] then Some(DateField(form.completionDate, CompletionDateTitle)) else None,
      ClientIdOf(form.clientId, user))
  }

  /** The messages the checks produce, in the order the handler writes them. */
  function ErrorsOf(c: Checks): map<string, string> {
    var e1 := ReportDate(map[], c.startDate, StartDateKey);
    var e2 := ReportIf(e1, !Truthy(c.equipmentTypeId), EquipmentTypeKey, EquipmentTypeMessage);
    var e3 := ReportIf(e2, c.modelBlank, EquipmentModelKey, EquipmentModelMessage);
    var e4 := ReportIf(e3, c.problemBlank, ProblemKey, ProblemMessage);
    var e5 := ReportIf(e4, !Truthy(c.statusId), StatusKey, StatusMessageText);
    var e6 := if c.completionDate.Some? then ReportDate(e5, c.completionDate.value, CompletionDateKey) else e5;
    ReportIf(e6, !Truthy(c.clientId), ClientKey, ClientMessage)
  }

  /**
   * The `field_errors` the handler collects: one entry for each missing or
   * malformed required field (start date, equipment type, model, problem
   * description, status, client) and for a malformed completion date.
   */
  function FormErrors(form: RequestForm, user: User): map<string, string> {
    ErrorsOf(ChecksOf(form, user))
  }

  lemma KeysDistinct()
    ensures StartDateKey != EquipmentTypeKey && StartDateKey != EquipmentModelKey && StartDateKey != ProblemKey
    ensures StartDateKey != StatusKey && StartDateKey != CompletionDateKey && StartDateKey != ClientKey
    ensures EquipmentTypeKey != EquipmentModelKey && EquipmentTypeKey != ProblemKey && EquipmentTypeKey != StatusKey
    ensures EquipmentTypeKey != CompletionDateKey && EquipmentTypeKey != ClientKey
    ensures EquipmentModelKey != ProblemKey && EquipmentModelKey != StatusKey && EquipmentModelKey != CompletionDateKey
    ensures EquipmentModelKey != ClientKey
    ensures ProblemKey != StatusKey && ProblemKey != CompletionDateKey && ProblemKey != ClientKey
    ensures StatusKey != CompletionDateKey && StatusKey != ClientKey
    ensures CompletionDateKey != ClientKey
  {
    assert StatusKey[0] != ClientKey[0];
  }

  /** The keys written for a set of checks: only known keys, and the start date, equipment, model and problem keys exactly when those checks fail. */
  lemma ErrorsOfKeys(c: Checks)
    ensures var e := ErrorsOf(c);
      && e.Keys <= FieldKeys
      && (StartDateKey in e <==> c.startDate.Rejected?)
      && (EquipmentTypeKey in e <==> !Truthy(c.equipmentTypeId))
      && (EquipmentModelKey in e <==> c.modelBlank)
      && (ProblemKey in e <==> c.problemBlank)
  {
    KeysDistinct();
  }

  /** The status, completion date and client keys are written exactly when those checks fail. */
  lemma ErrorsOfLaterKeys(c: Checks)
    ensures var e := ErrorsOf(c);
      && (StatusKey in e <==> !Truthy(c.statusId))
      && (CompletionDateKey in e <==> c.completionDate.Some? && c.completionDate.value.Rejected?)
      && (ClientKey in e <==> !Truthy(c.clientId))
  {
    KeysDistinct();
  }

  /** The message under each key written for a set of checks. */
  lemma ErrorsOfMessages(c: Checks)
    ensures var e := ErrorsOf(c);
      && (StartDateKey in e ==> e[StartDateKey] == c.startDate.message)
      && (EquipmentTypeKey in e ==> e[EquipmentTypeKey] == EquipmentTypeMessage)
      && (EquipmentModelKey in e ==> e[EquipmentModelKey] == EquipmentModelMessage)
      && (ProblemKey in e ==> e[ProblemKey] == ProblemMessage)
      && (StatusKey in e ==> e[StatusKey] == StatusMessageText)
      && (CompletionDateKey in e ==> e[CompletionDateKey] == c.completionDate.value.message)
      && (ClientKey in e ==> e[ClientKey] == ClientMessage)
  {
    KeysDistinct();
    ErrorsOfKeys(c);
    ErrorsOfLaterKeys(c);
  }

  /** Each key is reported exactly when its field is missing or malformed, with the handler's message. */
  lemma FormErrorsFacts(form: RequestForm, user: User)
    ensures var e := FormErrors(form, user);
      && (StartDateKey in e <==> DateField(form.startDate, StartDateTitle).Rejected?)
      && (EquipmentTypeKey in e <==> !Truthy(ParseInt(Some(form.equipmentTypeId))))
      && (EquipmentModelKey in e <==> AllSpace(form.equipmentModelName))
      && (ProblemKey in e <==> AllSpace(form.problemDescription))
      && (StatusKey in e <==> !Truthy(ParseInt(Some(form.statusId))))
      && (CompletionDateKey in e <==> !AllSpace(form.completionDate) && DateField(form.completionDate, CompletionDateTitle).Rejected?)
      && (ClientKey in e <==> !Truthy(ClientIdOf(form.clientId, user)))
      && (StartDateKey in e ==> e[StartDateKey] == DateField(form.startDate, StartDateTitle).message)
      && (EquipmentTypeKey in e ==> e[EquipmentTypeKey] == EquipmentTypeMessage)
      && (EquipmentModelKey in e ==> e[EquipmentModelKey] == EquipmentModelMessage)
      && (ProblemKey in e ==> e[ProblemKey] == ProblemMessage)
      && (StatusKey in e ==> e[StatusKey] == StatusMessageText)
      && (CompletionDateKey in e ==> e[CompletionDateKey] == DateField(form.completionDate, CompletionDateTitle).message)
      && (ClientKey in e ==> e[ClientKey] == ClientMessage)
  {
    ErrorsOfKeys(ChecksOf(form, user));
    ErrorsOfLaterKeys(ChecksOf(form, user));
    ErrorsOfMessages(ChecksOf(form, user));
  }

  /** The error dictionary grows by exactly the steps `ErrorsOf` lists. */
  lemma ErrorsInOrder(c: Checks, e1: map<string, string>, e2: map<string, string>, e3: map<string, string>,
                      e4: map<string, string>, e5: map<string, string>, e6: map<string, string>, e7: map<string, string>)
    requires e1 == ReportDate(map[], c.startDate, StartDateKey)
    requires e2 == ReportIf(e1, !Truthy(c.equipmentTypeId), EquipmentTypeKey, EquipmentTypeMessage)
    requires e3 == ReportIf(e2, c.modelBlank, EquipmentModelKey, EquipmentModelMessage)
    requires e4 == ReportIf(e3, c.problemBlank, ProblemKey, ProblemMessage)
    requires e5 == ReportIf(e4, !Truthy(c.statusId), StatusKey, StatusMessageText)
    requires e6 == if c.completionDate.Some? then ReportDate(e5, c.completionDate.value, CompletionDateKey) else e5
    requires e7 == ReportIf(e6, !Truthy(c.clientId), ClientKey, ClientMessage)
    ensures e7 == ErrorsOf(c)
  {
  }

  /** `value = parse_int(raw)`, with `field_errors[key] = message` unless the value is truthy. */
  method RequireId(raw: string, errors: FieldErrors, key: string, message: string) returns (id: Option<int>)
    modifies errors
    ensures id == ParseInt(Some(raw))
    ensures errors.entries == ReportIf(old(errors.entries), !Truthy(id), key, message)
  {
    id := ParseInt(Some(raw));
    if !Truthy(id) {
      errors.Put(key, message);
    }
  }

  /** `text = (raw or "").strip()`, with `field_errors[key] = message` when it is empty. */
  method RequireText(raw: string, errors: FieldErrors, key: string, message: string) returns (text: string)
    modifies errors
    ensures text == Strip(raw)
    ensures errors.entries == ReportIf(old(errors.entries), text == [], key, message)
  {
    text := Strip(raw);
    if text == [] {
      errors.Put(key, message);
    }
  }

  /** The completion date is parsed, and may be reported, only when some text was typed. */
  method ReadCompletionDate(raw: string, errors: FieldErrors) returns (completionDate: Option<Date>, ghost outcome: Option<DateOutcome>)
    modifies errors
    ensures outcome == if Strip(raw) != [] then Some(DateField(raw, CompletionDateTitle)) else None
    ensures completionDate == if outcome.Some? then DateOf(outcome.value) else None
    ensures errors.entries == if outcome.Some? then ReportDate(old(errors.entries), outcome.value, CompletionDateKey) else old(errors.entries)
  {
    completionDate, outcome := None, None;
    if Strip(raw) != [] {
      completionDate := ParseDate(raw, errors, CompletionDateKey, CompletionDateTitle);
      outcome := Some(DateField(raw, CompletionDateTitle));
    }
  }

  /** The client id: parsed from the form, replaced by the user's own id for a client, reported when not truthy. */
  method ResolveClient(raw: string, user: User, errors: FieldErrors) returns (clientId: Option<int>)
    modifies errors
    ensures clientId == ClientIdOf(raw, user)
    ensures errors.entries == ReportIf(old(errors.entries), !Truthy(clientId), ClientKey, ClientMessage)
  {
    clientId := ParseInt(Some(raw));
    if RoleName(Some(user)) == ClientName {
      clientId := Some(user.id);
    }
    if !Truthy(clientId) {
      errors.Put(ClientKey, ClientMessage);
    }
  }

  /**
   * The validation part of `ui_request_save`, step by step as the handler
   * does it: a fresh error dictionary that `parse_date` and the checks
   * fill, and the parsed values.
   */
  method ValidateRequestForm(form: RequestForm, user: User) returns (errors: FieldErrors, parsed: ParsedForm)
    ensures fresh(errors)
    ensures errors.entries == FormErrors(form, user)
    ensures parsed == ParseForm(form, user)
  {
    var isEdit := Strip(form.id) != [];
    errors := new FieldErrors();

    var startDate := ParseDate(form.startDate, errors, StartDateKey, StartDateTitle);
    ghost var e1 := errors.entries;
    var equipmentTypeId := RequireId(form.equipmentTypeId, errors, EquipmentTypeKey, EquipmentTypeMessage);
    ghost var e2 := errors.entries;
    var modelName := RequireText(form.equipmentModelName, errors, EquipmentModelKey, EquipmentModelMessage);
    ghost var e3 := errors.entries;
    var problem := RequireText(form.problemDescription, errors, ProblemKey, ProblemMessage);
    ghost var e4 := errors.entries;
    var statusId := RequireId(form.statusId, errors, StatusKey, StatusMessageText);
    ghost var e5 := errors.entries;

    var completionDate, completionOutcome := ReadCompletionDate(form.completionDate, errors);
    ghost var e6 := errors.entries;

    var masterId := ParseInt(Some(form.masterId));
    var clientId := ResolveClient(form.clientId, user, errors);

    var issueTypeId := ParseInt(Some(form.issueTypeId));
    parsed := ParsedForm(isEdit, startDate, equipmentTypeId, modelName, problem, statusId, completionDate, masterId, clientId, issueTypeId);

    ghost var c := Checks(DateField(form.startDate, StartDateTitle), equipmentTypeId, modelName == [], problem == [], statusId, completionOutcome, clientId);
    assert c == ChecksOf(form, user);
    assert e1 == ReportDate(map[], c.startDate, StartDateKey);
    assert e6 == if c.completionDate.Some? then ReportDate(e5, c.completionDate.value, CompletionDateKey) else e5;
    ErrorsInOrder(c, e1, e2, e3, e4, e5, e6, errors.entries);
    assert startDate == DateOf(c.startDate);
    assert completionDate == if c.completionDate.Some? then DateOf(c.completionDate.value) else None;
  }

  /** A form without errors has every required value. */
  lemma ValidFormIsComplete(form: RequestForm, user: User)
    requires FormErrors(form, user) == map[]
    ensures var p := ParseForm(form, user);
      && p.startDate.Some? && Truthy(p.equipmentTypeId) && Truthy(p.statusId) && Truthy(p.clientId)
      && IsTrimmed(p.equipmentModelName) && IsTrimmed(p.problemDescription)
  {
    FormErrorsFacts(form, user);
    StripIdempotent(form.equipmentModelName);
    StripIdempotent(form.problemDescription);
  }

  /**
   * The checks between validation and saving: the chosen status must
   * exist; an edit needs a request id, the request and the edit right; a
   * new request needs the create right. `None` lets the save go on;
   * otherwise the status code of the redirect.
   */
  function SaveGate(form: RequestForm, user: User, status: Option<Status>, existing: Option<Ticket>): (r: Option<string>)
    ensures r.Some? ==> r.value == "forbidden" || r.value == "request_not_found"
    ensures status.None? ==> r == Some("forbidden")
    ensures r.None? ==> status.Some?
    ensures status.Some? && AllSpace(form.id) ==> (r.None? <==> MainPolicy.CanCreateRequest(user))
    ensures AllSpace(form.id) && r.Some? ==> r.value == "forbidden"
    ensures !AllSpace(form.id) && (!Truthy(ParseInt(Some(form.id))) || existing.None?) ==> r.Some?
    ensures status.Some? && !AllSpace(form.id) && (!Truthy(ParseInt(Some(form.id))) || existing.None?) ==>
      r.value == "request_not_found"
    ensures status.Some? && !AllSpace(form.id) && Truthy(ParseInt(Some(form.id))) && existing.Some? ==>
      (r.None? <==> MainPolicy.CanEditRequest(user, existing.value)) && (r.Some? ==> r.value == "forbidden")
  {
    if status.None? then Some("forbidden")
    else if Strip(form.id) != [] then
      if !Truthy(ParseInt(Some(form.id))) then Some("request_not_found")
      else if existing.None? then Some("request_not_found")
      else if !MainPolicy.CanEditRequest(user, existing.value) then Some("forbidden")
      else None
    else if !MainPolicy.CanCreateRequest(user) then Some("forbidden")
    else None
  }

  /** Every redirect code of the gate is one the request list can show a message for. */
  lemma GateCodesHaveMessages(form: RequestForm, user: User, status: Option<Status>, existing: Option<Ticket>)
    ensures SaveGate(form, user, status, existing).Some? ==> |BuildStatusMessages(SaveGate(form, user, status, existing))| == 1
  {
    KnownCodeMessage(6);
    KnownCodeMessage(7);
  }

  /** A final status with no completion date gets today's date; any given date is kept. */
  function CompletionDateToStore(statusIsFinal: bool, given: Option<Date>, today: Date): (r: Option<Date>)
    ensures statusIsFinal ==> r.Some?
    ensures given.Some? ==> r == given
    ensures r.None? <==> !statusIsFinal && given.None?
    ensures r.Some? && given.None? ==> r.value == today
  {
    if statusIsFinal && given.None? then Some(today) else given
  }

  /** `(repair_parts or "").strip() or None`. */
  function StoredRepairParts(raw: string): Option<string> {
    var t := Strip(raw);
    if t == [] then None else Some(t)
  }

  /** Blank repair notes are stored as nothing; any other text is stored stripped. */
  lemma StoredRepairPartsFacts(raw: string)
    ensures StoredRepairParts(raw).None? <==> AllSpace(raw)
    ensures StoredRepairParts(raw).Some? ==> IsTrimmed(StoredRepairParts(raw).value) && StoredRepairParts(raw).value == Strip(raw)
  {
    var t := Strip(raw);
    assert t == [] <==> AllSpace(raw);
    if t != [] {
      StripIdempotent(raw);
      assert IsTrimmed(t);
    }
  }

  /** Where the issue type of the saved request comes from. */
  datatype IssueTypeSource = ById(id: int) | ByName(name: string)

  /**
   * The issue type chosen in the form is used when it is set and exists;
   * otherwise the type named after the normalised problem description is
   * found or created.
   */
  function IssueTypeChoice(requested: Option<int>, requestedExists: bool, problemDescription: string): (r: IssueTypeSource)
    ensures r.ById? <==> Truthy(requested) && requestedExists
    ensures r.ById? ==> r.id == requested.value
  {
    if Truthy(requested) && requestedExists then ById(requested.value)
    else ByName(Services.NormalizeIssueTypeName(problemDescription))
  }

  /** The id of the issue type a choice resolves to; `idOfName` stands for `get_or_create_issue_type`. */
  function IssueTypeIdOf(choice: IssueTypeSource, idOfName: string -> int): int {
    match choice
    case ById(id) => id
    case ByName(name) => idOfName(name)
  }

  /** An issue type found or created by name has a trimmed name that fits the column. */
  lemma IssueTypeChoiceFacts(requested: Option<int>, requestedExists: bool, problemDescription: string)
    ensures IssueTypeChoice(requested, requestedExists, problemDescription).ByName? ==>
      |IssueTypeChoice(requested, requestedExists, problemDescription).name| <= Services.IssueTypeNameLength &&
      IsTrimmed(IssueTypeChoice(requested, requestedExists, problemDescription).name)
  {
    Services.NormalizeBounds(problemDescription);
  }

  /** The outcome of the handler: the form shown again with its errors, or a redirect with a status code. */
  datatype SaveOutcome = FormRejected(errors: map<string, string>) | Redirected(statusCode: string)

  predicate Saved(r: SaveOutcome) {
    r == Redirected("request_created") || r == Redirected("request_updated")
  }

  /** What `ui_request_save` answers for a form, a user and what the database holds. */
  function SaveOutcomeOf(form: RequestForm, user: User, status: Option<Status>, existing: Option<Ticket>): (r: SaveOutcome)
    ensures r.FormRejected? <==> FormErrors(form, user) != map[]
    ensures r.FormRejected? ==> r.errors == FormErrors(form, user)
    ensures FormErrors(form, user) == map[] && SaveGate(form, user, status, existing).Some? ==>
      r == Redirected(SaveGate(form, user, status, existing).value)
    ensures FormErrors(form, user) == map[] && SaveGate(form, user, status, existing).None? ==>
      r == Redirected(if AllSpace(form.id) then "request_created" else "request_updated")
  {
    var errors := FormErrors(form, user);
    if errors != map[] then FormRejected(errors)
    else
      match SaveGate(form, user, status, existing)
      case Some(code) => Redirected(code)
      case None => Redirected(if Strip(form.id) != [] then "request_updated" else "request_created")
  }

  /** A request is created only by a permitted user, and updated only by one who may edit it. */
  lemma SavedOnlyWhenPermitted(form: RequestForm, user: User, status: Option<Status>, existing: Option<Ticket>)
    ensures SaveOutcomeOf(form, user, status, existing) == Redirected("request_created") ==>
      FormErrors(form, user) == map[] && status.Some? && AllSpace(form.id) && MainPolicy.CanCreateRequest(user)
    ensures SaveOutcomeOf(form, user, status, existing) == Redirected("request_updated") ==>
      FormErrors(form, user) == map[] && status.Some? && existing.Some? && MainPolicy.CanEditRequest(user, existing.value)
  {
    var gate := SaveGate(form, user, status, existing);
    if FormErrors(form, user) == map[] && gate.Some? {
      assert gate.value == "forbidden" || gate.value == "request_not_found";
      assert SaveOutcomeOf(form, user, status, existing) == Redirected(gate.value);
    }
  }

  /** A quality manager can neither create nor edit a request through this handler. */
  lemma QualityManagerNeverSaves(form: RequestForm, user: User, status: Option<Status>, existing: Option<Ticket>)
    requires RoleOfUser(Some(user)) == QualityManager
    ensures !Saved(SaveOutcomeOf(form, user, status, existing))
  {
    SavedOnlyWhenPermitted(form, user, status, existing);
  }

  /** A specialist never creates a request, and edits only the ones assigned to them. */
  lemma SpecialistSaves(form: RequestForm, user: User, status: Option<Status>, existing: Option<Ticket>)
    requires RoleOfUser(Some(user)) == Specialist
    ensures SaveOutcomeOf(form, user, status, existing) != Redirected("request_created")
    ensures SaveOutcomeOf(form, user, status, existing) == Redirected("request_updated") ==>
      existing.Some? && existing.value.masterId == Some(user.id)
  {
    SavedOnlyWhenPermitted(form, user, status, existing);
  }

  /** The status a stored request has before the edit. */
  function CurrentStatus(t: Ticket): Status {
    Status(t.statusId, t.statusIsFinal)
  }

  /**
   * The handler never asks `user_can_change_status`: a client editing an
   * open request of their own may move it to any other status, which the
   * status-change rule refuses to clients.
   */
  lemma ClientSetsAnyStatus(form: RequestForm, user: User, status: Option<Status>, existing: Option<Ticket>)
    requires FormErrors(form, user) == map[]
    requires RoleOfUser(Some(user)) == Client
    requires status.Some? && existing.Some? && !AllSpace(form.id) && Truthy(ParseInt(Some(form.id)))
    requires existing.value.clientId == user.id && !existing.value.statusIsFinal
    requires status.value.id != existing.value.statusId
    ensures SaveOutcomeOf(form, user, status, existing) == Redirected("request_updated")
    ensures !Rbac.CanChangeStatus(user, CurrentStatus(existing.value), status.value)
  {
    assert MainPolicy.CanEditRequest(user, existing.value);
    assert SaveGate(form, user, status, existing).None?;
  }

  /**
   * The gate with the status-change rule added: an edit that passes the
   * handler's checks is refused with `forbidden` when the user may not move
   * the request from its current status to the chosen one.
   */
  function CheckedSaveGate(form: RequestForm, user: User, status: Option<Status>, existing: Option<Ticket>): (r: Option<string>)
    ensures SaveGate(form, user, status, existing).Some? ==> r == SaveGate(form, user, status, existing)
    ensures r.None? && !AllSpace(form.id) ==>
      status.Some? && existing.Some? && Rbac.CanChangeStatus(user, CurrentStatus(existing.value), status.value)
  {
    var gate := SaveGate(form, user, status, existing);
    if gate.Some? then gate
    else if !AllSpace(form.id) && !Rbac.CanChangeStatus(user, CurrentStatus(existing.value), status.value) then Some("forbidden")
    else None
  }

  /** Through the checked gate a client's edit keeps the status, and staff pass it exactly as they pass the handler's gate. */
  lemma CheckedGateRespectsStatusRule(form: RequestForm, user: User, status: Option<Status>, existing: Option<Ticket>)
    ensures RoleOfUser(Some(user)) == Client && CheckedSaveGate(form, user, status, existing).None? && !AllSpace(form.id) ==>
      existing.Some? && status.Some? && status.value.id == existing.value.statusId
    ensures Rbac.IsStaff(RoleOfUser(Some(user))) ==> CheckedSaveGate(form, user, status, existing) == SaveGate(form, user, status, existing)
    ensures CheckedSaveGate(form, user, status, existing).Some? ==>
      CheckedSaveGate(form, user, status, existing).value in {"forbidden", "request_not_found"}
  {
    var gate := SaveGate(form, user, status, existing);
    if RoleOfUser(Some(user)) == Client && CheckedSaveGate(form, user, status, existing).None? && !AllSpace(form.id) {
      Rbac.ClientAndStaffTransitions(user, CurrentStatus(existing.value), status.value);
    }
    if Rbac.IsStaff(RoleOfUser(Some(user))) && gate.None? && !AllSpace(form.id) {
      Rbac.ClientAndStaffTransitions(user, CurrentStatus(existing.value), status.value);
    }
  }

  /** The stored repair request whose fields the handler assigns; a new one starts with every field unset. */
  class RepairRequestRecord {
    var startDate: Option<Date>
    var equipmentModelId: Option<int>
    var issueTypeId: Option<int>
    var problemDescription: Option<string>
    var statusId: Option<int>
    var completionDate: Option<Date>
    var repairParts: Option<string>
    var masterId: Option<int>
    var clientId: Option<int>

    /** `models.RepairRequest()`. */
    constructor ()
      ensures startDate.None? && equipmentModelId.None? && issueTypeId.None? && problemDescription.None?
      ensures statusId.None? && completionDate.None? && repairParts.None? && masterId.None? && clientId.None?
    {
      startDate, equipmentModelId, issueTypeId, problemDescription := None, None, None, None;
      statusId, completionDate, repairParts, masterId, clientId := None, None, None, None, None;
    }

    /** The record holds the values the handler stores for a parsed form. */
    predicate Holds(parsed: ParsedForm, repairParts: Option<string>, status: Status, equipmentModelId: int, issueTypeId: int, today: Date)
      reads this
    {
      && startDate == parsed.startDate
      && this.equipmentModelId == Some(equipmentModelId)
      && this.issueTypeId == Some(issueTypeId)
      && problemDescription == Some(parsed.problemDescription)
      && statusId == parsed.statusId
      && completionDate == CompletionDateToStore(status.isFinal, parsed.completionDate, today)
      && this.repairParts == repairParts
      && masterId == parsed.masterId
      && clientId == parsed.clientId
    }

    /** The field assignments at the end of the handler. */
    method Assign(parsed: ParsedForm, repairParts: Option<string>, status: Status, equipmentModelId: int, issueTypeId: int, today: Date)
      requires parsed.statusId.Some? && parsed.clientId.Some?
      modifies this
      ensures Holds(parsed, repairParts, status, equipmentModelId, issueTypeId, today)
    {
      var completion := parsed.completionDate;
      if status.isFinal && completion.None? {
        completion := Some(today);
      }
      startDate := parsed.startDate;
      this.equipmentModelId := Some(equipmentModelId);
      this.issueTypeId := Some(issueTypeId);
      problemDescription := Some(parsed.problemDescription);
      statusId := parsed.statusId;
      completionDate := completion;
      this.repairParts := repairParts;
      masterId := parsed.masterId;
      clientId := parsed.clientId;
    }
  }

  /**
   * The checks of `ui_request_save` before any field is stored: the form
   * is validated, then the edit or create gate is applied.
   */
  method DecideSave(form: RequestForm, user: User, status: Option<Status>, existing: Option<Ticket>)
    returns (outcome: SaveOutcome, parsed: ParsedForm)
    ensures outcome == SaveOutcomeOf(form, user, status, existing)
    ensures parsed == ParseForm(form, user)
  {
    var errors;
    errors, parsed := ValidateRequestForm(form, user);
    if errors.entries != map[] {
      outcome := FormRejected(errors.entries);
    } else {
      var gate := SaveGate(form, user, status, existing);
      outcome := if gate.Some? then Redirected(gate.value)
        else Redirected(if parsed.isEdit then "request_updated" else "request_created");
    }
  }

  /**
   * `ui_request_save` from the parsed form to the answer: on success the
   * target record (the loaded request when editing, a fresh one otherwise)
   * gets the form's values; on any other answer it is left untouched.
   */
  method SaveRequest(form: RequestForm, user: User, status: Option<Status>, existing: Option<Ticket>,
                     target: RepairRequestRecord, equipmentModelId: int,
                     issueTypeExists: bool, issueTypeIdOfName: string -> int, today: Date)
    returns (outcome: SaveOutcome)
    modifies target
    ensures outcome == SaveOutcomeOf(form, user, status, existing)
    ensures !Saved(outcome) ==> unchanged(target)
    ensures Saved(outcome) ==> status.Some?
    ensures Saved(outcome) ==>
      target.Holds(ParseForm(form, user), StoredRepairParts(form.repairParts), status.value, equipmentModelId,
        IssueTypeIdOf(IssueTypeChoice(ParseForm(form, user).issueTypeId, issueTypeExists, ParseForm(form, user).problemDescription), issueTypeIdOfName),
        today)
  {
    var parsed;
    outcome, parsed := DecideSave(form, user, status, existing);
    if Saved(outcome) {
      SavedOnlyWhenPermitted(form, user, status, existing);
      ValidFormIsComplete(form, user);
      var issueTypeId := IssueTypeIdOf(IssueTypeChoice(parsed.issueTypeId, issueTypeExists, parsed.problemDescription), issueTypeIdOfName);
      target.Assign(parsed, StoredRepairParts(form.repairParts), status.value, equipmentModelId, issueTypeId, today);
    }
  }

  /** A saved request always has a client, a client's own id when a client saves it, and a completion date when its status is final. */
  lemma SavedRequestFacts(form: RequestForm, user: User, status: Option<Status>, existing: Option<Ticket>, today: Date)
    requires Saved(SaveOutcomeOf(form, user, status, existing))
    ensures Truthy(ClientIdOf(form.clientId, user))
    ensures RoleOfUser(Some(user)) == Client ==> ClientIdOf(form.clientId, user) == Some(user.id)
    ensures status.Some? && status.value.isFinal ==>
      CompletionDateToStore(status.value.isFinal, ParseForm(form, user).completionDate, today).Some?
  {
    ValidFormIsComplete(form, user);
  }
}
