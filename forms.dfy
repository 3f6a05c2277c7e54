/**
 * Parsing of raw form and query strings in the web layer: integers,
 * ISO dates written into a field-error dictionary, and the flash messages
 * chosen by the `status` query parameter.
 */
module Forms {
  import opened Wrappers
  import opened Text

  /** `parse_int`: `None` for a missing or blank value, otherwise `int()` of the stripped text, with `None` where `int()` raises. */
  function ParseInt(value: Option<string>): Option<int> {
    if value.None? then None
    else
      var cleaned := Strip(value.value);
      if cleaned == [] then None else PyInt(cleaned)
  }

  /**
   * `parse_int` never raises: it gives `None` for a missing value, and
   * otherwise agrees with `int()` on the value, so it yields a number
   * exactly when the stripped text is an integer literal.
   */
  lemma ParseIntFacts(value: Option<string>)
    ensures value.None? ==> ParseInt(value).None?
    ensures value.Some? ==> ParseInt(value) == PyInt(value.value)
    ensures ParseInt(value).Some? <==> value.Some? && IsIntLiteral(Strip(value.value))
  {
    if value.Some? {
      StripIdempotent(value.value);
    }
  }

  /** The text of any integer parses back to it. */
  lemma ParseIntRoundTrip(n: int)
    ensures ParseInt(Some(IntToString(n))) == Some(n)
  {
    IntToStringRoundTrip(n);
    ParseIntFacts(Some(IntToString(n)));
  }

  /** A calendar date. */
  datatype Date = Date(year: int, month: int, day: int)

  predicate IsLeapYear(y: int) {
    y % 4 == 0 && (y % 100 != 0 || y % 400 == 0)
  }

  function DaysInMonth(y: int, m: int): int
    requires 1 <= m <= 12
  {
    if m == 2 then (if IsLeapYear(y) then 29 else 28)
    else if m in {4, 6, 9, 11} then 30
    else 31
  }

  /** The dates `datetime.date` can hold. */
  predicate ValidDate(d: Date) {
    1 <= d.year <= 9999 && 1 <= d.month <= 12 && 1 <= d.day <= DaysInMonth(d.year, d.month)
  }

  /** The text `%Y` accepts: exactly four digits. */
  predicate IsYearField(f: string) {
    |f| == 4 && IsDigit(f[0]) && IsDigit(f[1]) && IsDigit(f[2]) && IsDigit(f[3])
  }

  predicate IsNonZeroDigit(c: char) {
    '1' <= c <= '9'
  }

  /** The text `%m` accepts before a `-`: `1`..`9`, `01`..`09`, `10`..`12`. */
  predicate IsMonthField(f: string) {
    || (|f| == 1 && IsNonZeroDigit(f[0]))
    || (|f| == 2 && f[0] == '0' && IsNonZeroDigit(f[1]))
    || (|f| == 2 && f[0] == '1' && '0' <= f[1] <= '2')
  }

  /** The text `%d` accepts at the end: `1`..`9`, `01`..`09`, `10`..`29`, `30`, `31`, and a space followed by `1`..`9`. */
  predicate IsDayField(f: string) {
    || (|f| == 1 && IsNonZeroDigit(f[0]))
    || (|f| == 2 && (f[0] == '0' || f[0] == ' ') && IsNonZeroDigit(f[1]))
    || (|f| == 2 && (f[0] == '1' || f[0] == '2') && IsDigit(f[1]))
    || (|f| == 2 && f[0] == '3' && (f[1] == '0' || f[1] == '1'))
  }

  function YearValue(f: string): int
    requires IsYearField(f)
  {
    DigitValue(f[0]) * 1000 + DigitValue(f[1]) * 100 + DigitValue(f[2]) * 10 + DigitValue(f[3])
  }

  /** The value of a one- or two-character month or day field; a leading space or zero counts as nothing. */
  function SmallValue(f: string): int
    requires IsMonthField(f) || IsDayField(f)
  {
    if |f| == 1 then DigitValue(f[0])
    else (if f[0] == ' ' then 0 else DigitValue(f[0])) * 10 + DigitValue(f[1])
  }

  /**
   * `datetime.strptime(text, "%Y-%m-%d").date()` on ASCII text: three
   * `-`-separated fields of the accepted shapes, naming a real date.
   */
  function ParseIsoDate(text: string): (r: Option<Date>)
    ensures r.Some? ==> ValidDate(r.value)
  {
    var parts := Split(text, '-');
    if |parts| == 3 && IsYearField(parts[0]) && IsMonthField(parts[1]) && IsDayField(parts[2]) then
      var d := Date(YearValue(parts[0]), SmallValue(parts[1]), SmallValue(parts[2]));
      if ValidDate(d) then Some(d) else None
    else None
  }

  function TwoDigits(n: int): (s: string)
    requires 0 <= n < 100
  {
    [DigitChar(n / 10), DigitChar(n % 10)]
  }

  /** `date.isoformat()`: `YYYY-MM-DD`, zero-padded. */
  function IsoFormat(d: Date): (s: string)
    requires ValidDate(d)
  {
    TwoDigits(d.year / 100) + TwoDigits(d.year % 100) + "-" + TwoDigits(d.month) + "-" + TwoDigits(d.day)
  }

  lemma TwoDigitsValue(n: int)
    requires 0 <= n < 100
    ensures var s := TwoDigits(n); IsDigit(s[0]) && IsDigit(s[1]) && DigitValue(s[0]) * 10 + DigitValue(s[1]) == n
  {
  }

  /** Three fields of the accepted shapes, joined by `-`, parse to the date they name when it exists. */
  lemma ParseFields(y: string, m: string, d: string)
    requires IsYearField(y) && IsMonthField(m) && IsDayField(d)
    ensures var date := Date(YearValue(y), SmallValue(m), SmallValue(d));
      ParseIsoDate(y + "-" + m + "-" + d) == if ValidDate(date) then Some(date) else None
  {
    assert '-' !in y;
    assert '-' !in m;
    assert '-' !in d;
    SplitThree(y, m, d);
  }

  /** Every valid date survives being written in ISO form and parsed back. */
  lemma ParseIsoDateRoundTrip(d: Date)
    requires ValidDate(d)
    ensures ParseIsoDate(IsoFormat(d)) == Some(d)
  {
    var y := TwoDigits(d.year / 100) + TwoDigits(d.year % 100);
    var m := TwoDigits(d.month);
    var dd := TwoDigits(d.day);
    TwoDigitsValue(d.year / 100);
    TwoDigitsValue(d.year % 100);
    TwoDigitsValue(d.month);
    TwoDigitsValue(d.day);
    assert IsoFormat(d) == y + "-" + m + "-" + dd;
    assert IsYearField(y) && YearValue(y) == d.year;
    assert IsMonthField(m) && SmallValue(m) == d.month;
    assert IsDayField(dd) && SmallValue(dd) == d.day;
    ParseFields(y, m, dd);
  }

  /** Unpadded month and day fields are accepted. */
  lemma UnpaddedDateAccepted()
    ensures ParseIsoDate("2024-1-5") == Some(Date(2024, 1, 5))
  {
    assert "2024-1-5" == "2024" + "-" + "1" + "-" + "5";
    assert YearValue("2024") == 2024 && SmallValue("1") == 1 && SmallValue("5") == 5;
    ParseFields("2024", "1", "5");
  }

  /** 29 February exists in a leap year... */
  lemma LeapDayAccepted()
    ensures ParseIsoDate("2024-02-29") == Some(Date(2024, 2, 29))
  {
    assert "2024-02-29" == "2024" + "-" + "02" + "-" + "29";
    assert YearValue("2024") == 2024 && SmallValue("02") == 2 && SmallValue("29") == 29;
    assert IsLeapYear(2024);
    ParseFields("2024", "02", "29");
  }

  /** ... and not in other years. */
  lemma LeapDayRejectedInCommonYear()
    ensures ParseIsoDate("2023-02-29") == None
  {
    assert "2023-02-29" == "2023" + "-" + "02" + "-" + "29";
    assert YearValue("2023") == 2023 && SmallValue("02") == 2 && SmallValue("29") == 29;
    assert DaysInMonth(2023, 2) == 28;
    ParseFields("2023", "02", "29");
  }

  lemma SplitThree(y: string, m: string, d: string)
    requires '-' !in y && '-' !in m && '-' !in d
    ensures Split(y + "-" + m + "-" + d, '-') == [y, m, d]
  {
    assert y + "-" + m + "-" + d == y + ['-'] + (m + ['-'] + d);
    SplitConcat(y, '-', m + ['-'] + d);
    SplitConcat(m, '-', d);
    SplitNoSeparator(y, '-');
    SplitNoSeparator(m, '-');
    SplitNoSeparator(d, '-');
  }

  /** What `parse_date` makes of a value: a date, or the message it files under the field's key. */
  datatype DateOutcome = Parsed(date: Date) | Rejected(message: string)

  function MissingDateMessage(title: string): string {
    "Укажите дату для поля «" + title + "»."
  }

  function BadDateMessage(title: string): string {
    "Неверный формат даты для поля «" + title + "». Используйте ГГГГ-ММ-ДД."
  }

  /**
   * The outcome of `parse_date` for one value: blank text is reported as
   * missing, text that is not an ISO date as malformed, with the field's
   * title in the message.
   */
  function DateField(value: string, title: string): DateOutcome {
    var cleaned := Strip(value);
    if cleaned == [] then Rejected(MissingDateMessage(title))
    else
      match ParseIsoDate(cleaned)
      case Some(d) => Parsed(d)
      case None => Rejected(BadDateMessage(title))
  }

  /**
   * A value yields a date exactly when its stripped text is an ISO date,
   * and that date; a rejected value gets the "missing" message exactly
   * when it is blank and the "malformed" message otherwise.
   */
  lemma DateFieldFacts(value: string, title: string)
    ensures var r := DateField(value, title);
      && (r.Parsed? <==> ParseIsoDate(Strip(value)).Some?)
      && (r.Parsed? ==> ValidDate(r.date) && ParseIsoDate(Strip(value)) == Some(r.date))
      && (r.Rejected? ==> (r.message == MissingDateMessage(title) <==> AllSpace(value)))
      && (r.Rejected? ==> (r.message == BadDateMessage(title) <==> !AllSpace(value)))
  {
    assert MissingDateMessage(title)[0] != BadDateMessage(title)[0];
    if Strip(value) == [] {
      assert Split(Strip(value), '-') == [[]];
    }
  }

  /** The `field_errors` dictionary a request handler fills and hands to the form template. */
  class FieldErrors {
    var entries: map<string, string>

    constructor ()
      ensures entries == map[]
    {
      entries := map[];
    }

    /** `field_errors[key] = message`. */
    method Put(key: string, message: string)
      modifies this
      ensures entries == old(entries)[key := message]
    {
      entries := entries[key := message];
    }
  }

  /**
   * `parse_date`: returns the date, or `None` after filing the message
   * under `key`; on success the dictionary is untouched, and no key other
   * than `key` is ever written.
   */
  method ParseDate(value: string, errors: FieldErrors, key: string, title: string) returns (d: Option<Date>)
    modifies errors
    ensures d.None? <==> DateField(value, title).Rejected?
    ensures d.Some? ==> d.value == DateField(value, title).date && errors.entries == old(errors.entries)
    ensures d.None? ==> errors.entries == old(errors.entries)[key := DateField(value, title).message]
  {
    var cleaned := Strip(value);
    if cleaned == [] {
      errors.Put(key, MissingDateMessage(title));
      return None;
    }
    d := ParseIsoDate(cleaned);
    if d.None? {
      errors.Put(key, BadDateMessage(title));
    }
  }

  /** One flash message: its kind, title and text. */
  datatype StatusMessage = StatusMessage(kind: string, title: string, text: string)

  /** The code-to-message table of `build_status_messages`. */
  const StatusTable: seq<(string, StatusMessage)> := [
    ("login_required", StatusMessage("warning", "Требуется вход", "Для продолжения войдите в систему.")),
    ("login_failed", StatusMessage("error", "Ошибка входа", "Неверный логин или пароль.")),
    ("logout_ok", StatusMessage("info", "Выход выполнен", "Сеанс завершён.")),
    ("request_created", StatusMessage("success", "Заявка создана", "Новая заявка успешно сохранена.")),
    ("request_updated", StatusMessage("success", "Заявка обновлена", "Изменения сохранены.")),
    ("request_deleted", StatusMessage("info", "Заявка удалена", "Запись удалена без ошибок.")),
    ("request_not_found", StatusMessage("error", "Заявка не найдена", "Запрошенная заявка не существует или уже удалена.")),
    ("forbidden", StatusMessage("error", "Доступ запрещён", "У вас нет прав на выполнение этого действия.")),
    ("comment_added", StatusMessage("success", "Комментарий добавлен", "Сообщение специалиста сохранено.")),
    ("no_results", StatusMessage("info", "Нет результатов", "По заданным условиям заявок не найдено."))
  ]

  /** `dict.get` on a table given as pairs: the message of the first entry with the code. */
  function LookupMessage(table: seq<(string, StatusMessage)>, code: string): (r: Option<StatusMessage>)
    ensures r.Some? <==> exists i :: 0 <= i < |table| && table[i].0 == code
    ensures r.Some? ==> exists i :: 0 <= i < |table| && table[i] == (code, r.value)
  {
    if table == [] then None
    else if table[0].0 == code then Some(table[0].1)
    else
      var r := LookupMessage(table[1..], code);
      assert forall i :: 0 < i < |table| ==> table[i] == table[1..][i - 1];
      r
  }

  /**
   * `build_status_messages` with the value of the `status` query
   * parameter: nothing for a missing, empty or unknown code, otherwise the
   * one message the table gives for it.
   */
  function BuildStatusMessages(code: Option<string>): (r: seq<StatusMessage>)
    ensures |r| <= 1
    ensures r != [] <==> code.Some? && exists i :: 0 <= i < |StatusTable| && StatusTable[i].0 == code.value
    ensures r != [] ==> exists i :: 0 <= i < |StatusTable| && StatusTable[i] == (code.value, r[0])
  {
    if code.None? || code.value == [] then
      assert forall i :: 0 <= i < |StatusTable| ==> StatusTable[i].0 != [];
      []
    else
      match LookupMessage(StatusTable, code.value)
      case None => []
      case Some(m) => [m]
  }

  /** No two entries of the table share a code. */
  lemma StatusCodesDistinct()
    ensures forall i, j :: 0 <= i < j < |StatusTable| ==> StatusTable[i].0 != StatusTable[j].0
  {
  }

  /** Every code of the table brings up exactly its own message. */
  lemma KnownCodeMessage(i: int)
    requires 0 <= i < |StatusTable|
    ensures BuildStatusMessages(Some(StatusTable[i].0)) == [StatusTable[i].1]
  {
    StatusCodesDistinct();
  }
}
