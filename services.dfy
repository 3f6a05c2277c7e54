/**
 * The small pure helpers of the service layer: the issue-type name
 * normalisation, the quality-survey link and the choice of the status a
 * new request starts in.
 */
module Services {
  import opened Wrappers
  import opened Text
  import Statistics

  /** The length of the `issue_type.name` column. */
  const IssueTypeNameLength: nat := 255

  /** `normalize_issue_type_name`: blank text becomes "Не указано"; longer text is cut to 252 characters, right-stripped, and marked with "...". */
  function NormalizeIssueTypeName(problemDescription: string): string {
    var text := Strip(problemDescription);
    if text == [] then Statistics.Unspecified
    else if |text| <= IssueTypeNameLength then text
    else RStrip(text[..252]) + "..."
  }

  /**
   * The normalised name fits the column and is trimmed; blank text gives
   * "Не указано", the same label the statistics use, as does any text short
   * enough; longer text keeps its first 252 characters (right-stripped).
   */
  lemma NormalizeFacts(problemDescription: string)
    ensures var r := NormalizeIssueTypeName(problemDescription);
      && (AllSpace(problemDescription) ==> r == Statistics.Unspecified)
      && (|Strip(problemDescription)| <= IssueTypeNameLength ==> r == Statistics.CategoryLabel(problemDescription))
      && (|Strip(problemDescription)| > IssueTypeNameLength ==> r[..|r| - 3] == RStrip(Strip(problemDescription)[..252]) && r[|r| - 3..] == "...")
  {
    var text := Strip(problemDescription);
    if text == [] {
      assert NormalizeIssueTypeName(problemDescription) == Statistics.Unspecified;
    } else if |text| <= IssueTypeNameLength {
      assert NormalizeIssueTypeName(problemDescription) == text;
    } else {
      assert NormalizeIssueTypeName(problemDescription) == RStrip(text[..252]) + "...";
    }
  }

  /** Every normalised name fits the column and carries no surrounding whitespace. */
  lemma NormalizeBounds(problemDescription: string)
    ensures var r := NormalizeIssueTypeName(problemDescription);
      |r| <= IssueTypeNameLength && IsTrimmed(r)
  {
    var text := Strip(problemDescription);
    if text == [] {
      assert NormalizeIssueTypeName(problemDescription) == Statistics.Unspecified;
      Statistics.UnspecifiedIsStripped();
    } else if |text| <= IssueTypeNameLength {
      assert NormalizeIssueTypeName(problemDescription) == text;
      StripIdempotent(problemDescription);
    } else {
      assert NormalizeIssueTypeName(problemDescription) == RStrip(text[..252]) + "...";
      StripIdempotent(problemDescription);
      TruncatedIsTrimmed(text);
    }
  }

  /** A stripped text cut to 252 characters, right-stripped and given "..." is still trimmed. */
  lemma TruncatedIsTrimmed(text: string)
    requires IsTrimmed(text) && |text| > 252
    ensures |RStrip(text[..252]) + "..."| <= IssueTypeNameLength
    ensures IsTrimmed(RStrip(text[..252]) + "...")
  {
    var p := RStrip(text[..252]);
    var r := p + "...";
    assert r[|r| - 1] == '.';
    if p != [] {
      assert p[0] == text[0];
      assert r[0] == p[0];
    } else {
      assert r[0] == '.';
    }
    StripFixed(r);
  }

  /** Normalising twice is normalising once: a normalised name is stored as itself. */
  lemma NormalizeIdempotent(problemDescription: string)
    ensures NormalizeIssueTypeName(NormalizeIssueTypeName(problemDescription)) == NormalizeIssueTypeName(problemDescription)
  {
    var r := NormalizeIssueTypeName(problemDescription);
    NormalizeBounds(problemDescription);
    assert Strip(r) == r && r != [] && |r| <= IssueTypeNameLength;
    assert NormalizeIssueTypeName(r) == Strip(r);
  }

  /** The survey link used when `QUALITY_SURVEY_URL` is not set. */
  const QualitySurveyBaseUrl: string :=
    "https://docs.google.com/forms/d/e/1FAIpQLSdhZcExx6LSIXxk0ub55mSu-WIh23WYdGG9HY5EZhLDo7P8eA/viewform?usp=sf_link"

  /** `os.getenv("QUALITY_SURVEY_URL", default)`: the variable's value whenever it is set, even to "". */
  function SurveyBase(environmentValue: Option<string>): string {
    environmentValue.GetOr(QualitySurveyBaseUrl)
  }

  const RequestIdParameter: string := "request_id="

  /** `build_quality_survey_url`: the base alone, or the base with `request_id=<id>` added as one more query parameter. */
  function BuildQualitySurveyUrl(base: string, requestId: Option<int>): (url: string)
    ensures requestId.None? ==> url == base
    ensures requestId.Some? ==> |url| > |base| + |RequestIdParameter| && url[..|base|] == base
  {
    if requestId.None? then base
    else
      var separator := if '?' in base then "&" else "?";
      base + separator + RequestIdParameter + IntToString(requestId.value)
  }

  /**
   * With an id, the link has a query string, the separator after the base
   * is `&` exactly when the base already had one and `?` otherwise, and the
   * value after `request_id=` is `str(id)`, which parses back to the id.
   */
  lemma SurveyUrlCarriesId(base: string, id: int)
    ensures var url := BuildQualitySurveyUrl(base, Some(id));
      && '?' in url
      && (url[|base|] == '&' <==> '?' in base)
      && (url[|base|] == '?' <==> '?' !in base)
      && url[|base| + 1..|base| + 1 + |RequestIdParameter|] == RequestIdParameter
      && url[|base| + 1 + |RequestIdParameter|..] == IntToString(id)
      && PyInt(url[|base| + 1 + |RequestIdParameter|..]) == Some(id)
  {
    var url := BuildQualitySurveyUrl(base, Some(id));
    var sep := if '?' in base then "&" else "?";
    assert url == base + sep + RequestIdParameter + IntToString(id);
    assert url[|base|] == sep[0];
    assert url[|base| + 1 + |RequestIdParameter|..] == IntToString(id);
    assert url[|base| + 1..|base| + 1 + |RequestIdParameter|] == RequestIdParameter;
    if '?' in base {
      var i :| 0 <= i < |base| && base[i] == '?';
      assert url[i] == '?';
    } else {
      assert url[|base|] == '?';
    }
    IntToStringRoundTrip(id);
  }

  /** A row of the `request_status` table. */
  datatype StatusRow = StatusRow(id: int, name: string, isFinal: bool)

  /** The preferred status for new requests ("new request"). */
  const NewRequestStatusName: string := "Новая заявка"

  const NoNonFinalStatusMessage: string := "В системе не настроен ни один не финальный статус заявки."

  /** The first status with the given name, in table order. */
  function FirstNamed(statuses: seq<StatusRow>, name: string): (r: Option<StatusRow>)
    ensures r.Some? <==> exists i :: 0 <= i < |statuses| && statuses[i].name == name
    ensures r.Some? ==> r.value in statuses && r.value.name == name
  {
    if statuses == [] then None
    else if statuses[0].name == name then Some(statuses[0])
    else
      var r := FirstNamed(statuses[1..], name);
      assert forall i :: 0 < i < |statuses| ==> statuses[i] == statuses[1..][i - 1];
      r
  }

  /** The non-final status with the lowest id, if any. */
  function LowestNonFinal(statuses: seq<StatusRow>): (r: Option<StatusRow>)
    ensures r.Some? <==> exists i :: 0 <= i < |statuses| && !statuses[i].isFinal
    ensures r.Some? ==> r.value in statuses && !r.value.isFinal
    ensures r.Some? ==> forall i :: 0 <= i < |statuses| && !statuses[i].isFinal ==> r.value.id <= statuses[i].id
  {
    if statuses == [] then None
    else
      var rest := LowestNonFinal(statuses[1..]);
      assert forall i :: 0 < i < |statuses| ==> statuses[i] == statuses[1..][i - 1];
      var head := statuses[0];
      if head.isFinal then rest
      else if rest.Some? && rest.value.id < head.id then rest
      else Some(head)
  }

  /**
   * `get_new_request_status`: the status named "Новая заявка" if there is
   * one, otherwise the non-final status with the lowest id; with neither,
   * a configuration error.
   */
  function NewRequestStatus(statuses: seq<StatusRow>): (r: Result<StatusRow, string>)
    ensures r.Success? ==> r.value in statuses
    ensures r.Failure? <==> forall i :: 0 <= i < |statuses| ==> statuses[i].name != NewRequestStatusName && statuses[i].isFinal
    ensures r.Failure? ==> r.error == NoNonFinalStatusMessage
  {
    match FirstNamed(statuses, NewRequestStatusName)
    case Some(s) => Success(s)
    case None =>
      match LowestNonFinal(statuses)
      case Some(s) => Success(s)
      case None => Failure(NoNonFinalStatusMessage)
  }

  /** The preferred status wins whenever it exists; otherwise a new request starts in the lowest non-final status. */
  lemma NewRequestStatusChoice(statuses: seq<StatusRow>)
    ensures (exists i :: 0 <= i < |statuses| && statuses[i].name == NewRequestStatusName) ==>
      NewRequestStatus(statuses).Success? && NewRequestStatus(statuses).value.name == NewRequestStatusName
    ensures (forall i :: 0 <= i < |statuses| ==> statuses[i].name != NewRequestStatusName) && NewRequestStatus(statuses).Success? ==>
      var s := NewRequestStatus(statuses).value;
      !s.isFinal && forall i :: 0 <= i < |statuses| && !statuses[i].isFinal ==> s.id <= statuses[i].id
  {
  }
}
