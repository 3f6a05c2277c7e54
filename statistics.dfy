/**
 * The statistics report: one pass over flat request rows that counts the
 * requests, counts the completed ones, collects the non-negative repair
 * durations and tallies two category histograms, followed by one ranking
 * of each histogram.
 */
module Statistics {
  import opened Wrappers
  import opened Text
  import opened Histogram

  /** The label blank categories are counted under ("not specified"). */
  const Unspecified: string := "Не указано"

  /** One request as the report sees it; dates are day numbers. */
  datatype RequestRow = RequestRow(
    startDate: int,
    completionDate: Option<int>,
    statusIsFinal: bool,
    equipmentType: string,
    issueType: string)

  /** An average kept exact: `sum / count`, the value the report shows as a float. */
  datatype Ratio = Ratio(sum: int, count: nat)

  datatype Report = Report(
    totalRequests: nat,
    completedRequests: nat,
    averageRepairTimeDays: Option<Ratio>,
    byEquipmentType: Dict,
    byIssueType: Dict)

  /** `(label or "").strip() or "Не указано"`. */
  function CategoryLabel(raw: string): string {
    var t := Strip(raw);
    if t == [] then Unspecified else t
  }

  /** Labels in the report are never blank and never padded; a blank label becomes "Не указано", any other is stripped. */
  lemma CategoryLabelFacts(raw: string)
    ensures IsTrimmed(CategoryLabel(raw))
    ensures AllSpace(raw) ==> CategoryLabel(raw) == Unspecified
    ensures !AllSpace(raw) ==> CategoryLabel(raw) == Strip(raw)
  {
    if Strip(raw) == [] {
      assert CategoryLabel(raw) == Unspecified;
      UnspecifiedIsStripped();
    } else {
      assert CategoryLabel(raw) == Strip(raw);
      StripIdempotent(raw);
    }
  }

  lemma UnspecifiedIsStripped()
    ensures Unspecified != [] && Strip(Unspecified) == Unspecified
  {
    assert !IsSpace(Unspecified[0]) && !IsSpace(Unspecified[|Unspecified| - 1]);
    StripFixed(Unspecified);
  }

  /** A row counts as completed when its status is final and it has a completion date. */
  predicate IsCompleted(r: RequestRow) {
    r.statusIsFinal && r.completionDate.Some?
  }

  /** The repair duration of a completed row, in days (may be negative on malformed data). */
  function Delta(r: RequestRow): int
    requires IsCompleted(r)
  {
    r.completionDate.value - r.startDate
  }

  function Last(rows: seq<RequestRow>): RequestRow
    requires rows != []
  {
    rows[|rows| - 1]
  }

  function Init(rows: seq<RequestRow>): seq<RequestRow>
    requires rows != []
  {
    rows[..|rows| - 1]
  }

  /** The number of completed rows. */
  function CompletedCount(rows: seq<RequestRow>): nat {
    if rows == [] then 0
    else CompletedCount(Init(rows)) + (if IsCompleted(Last(rows)) then 1 else 0)
  }

  /** The duration sample, in row order: completed rows with a non-negative duration. */
  function Durations(rows: seq<RequestRow>): seq<int> {
    if rows == [] then []
    else
      var r := Last(rows);
      if IsCompleted(r) && Delta(r) >= 0 then Durations(Init(rows)) + [Delta(r)] else Durations(Init(rows))
  }

  function EquipmentLabels(rows: seq<RequestRow>): seq<string> {
    if rows == [] then [] else EquipmentLabels(Init(rows)) + [CategoryLabel(Last(rows).equipmentType)]
  }

  function IssueLabels(rows: seq<RequestRow>): seq<string> {
    if rows == [] then [] else IssueLabels(Init(rows)) + [CategoryLabel(Last(rows).issueType)]
  }

  /** Python's `sum`. */
  function Sum(xs: seq<int>): int {
    if xs == [] then 0 else Sum(xs[..|xs| - 1]) + xs[|xs| - 1]
  }

  function Min(xs: seq<int>): int
    requires xs != []
  {
    if |xs| == 1 then xs[0]
    else var m := Min(xs[..|xs| - 1]); if xs[|xs| - 1] < m then xs[|xs| - 1] else m
  }

  function Max(xs: seq<int>): int
    requires xs != []
  {
    if |xs| == 1 then xs[0]
    else var m := Max(xs[..|xs| - 1]); if xs[|xs| - 1] > m then xs[|xs| - 1] else m
  }

  /** `sum(xs) / len(xs)` if `xs` else `None`. */
  function Mean(xs: seq<int>): Option<Ratio> {
    if xs == [] then None else Some(Ratio(Sum(xs), |xs|))
  }

  /** The report `calculate_statistics_from_rows` returns, as a function of its rows. */
  function StatisticsOf(rows: seq<RequestRow>): Report {
    Report(
      |rows|,
      CompletedCount(rows),
      Mean(Durations(rows)),
      Ranked(Tally(EquipmentLabels(rows))),
      Ranked(Tally(IssueLabels(rows))))
  }

  /** `calculate_statistics_from_rows`: the single pass, then the two rankings. */
  method CalculateStatisticsFromRows(rows: seq<RequestRow>) returns (report: Report)
    ensures report == StatisticsOf(rows)
  {
    var totalRequests := 0;
    var completedRequests := 0;
    var durationsDays: seq<int> := [];
    var byEquipmentType: Dict := [];
    var byIssueType: Dict := [];

    for i := 0 to |rows|
      invariant totalRequests == i
      invariant completedRequests == CompletedCount(rows[..i])
      invariant durationsDays == Durations(rows[..i])
      invariant byEquipmentType == Tally(EquipmentLabels(rows[..i]))
      invariant byIssueType == Tally(IssueLabels(rows[..i]))
    {
      var r := rows[i];
      PrefixStep(rows, i);
      TallyAppend(EquipmentLabels(rows[..i]), CategoryLabel(r.equipmentType));
      TallyAppend(IssueLabels(rows[..i]), CategoryLabel(r.issueType));
      totalRequests := totalRequests + 1;

      var equipmentName := CategoryLabel(r.equipmentType);
      byEquipmentType := Bump(byEquipmentType, equipmentName);

      var issueName := CategoryLabel(r.issueType);
      byIssueType := Bump(byIssueType, issueName);

      if r.statusIsFinal && r.completionDate.Some? {
        completedRequests := completedRequests + 1;
        var delta := r.completionDate.value - r.startDate;
        assert IsCompleted(rows[i]) && delta == Delta(rows[i]);
        if delta >= 0 {
          durationsDays := durationsDays + [delta];
        }
      }
    }
    assert rows[..|rows|] == rows;

    var average := if durationsDays != [] then Some(Ratio(Sum(durationsDays), |durationsDays|)) else None;
    report := Report(
      totalRequests,
      completedRequests,
      average,
      Ranked(byEquipmentType),
      Ranked(byIssueType));
  }

  /** Extending the prefix the loop has seen by the next row. */
  lemma PrefixStep(rows: seq<RequestRow>, i: nat)
    requires i < |rows|
    ensures CompletedCount(rows[..i + 1]) == CompletedCount(rows[..i]) + (if IsCompleted(rows[i]) then 1 else 0)
    ensures IsCompleted(rows[i]) && Delta(rows[i]) >= 0 ==> Durations(rows[..i + 1]) == Durations(rows[..i]) + [Delta(rows[i])]
    ensures !(IsCompleted(rows[i]) && Delta(rows[i]) >= 0) ==> Durations(rows[..i + 1]) == Durations(rows[..i])
    ensures EquipmentLabels(rows[..i + 1]) == EquipmentLabels(rows[..i]) + [CategoryLabel(rows[i].equipmentType)]
    ensures IssueLabels(rows[..i + 1]) == IssueLabels(rows[..i]) + [CategoryLabel(rows[i].issueType)]
  {
    assert Init(rows[..i + 1]) == rows[..i];
    assert Last(rows[..i + 1]) == rows[i];
  }

  /** Appending one row: one more request; one more completed one if it is completed; its duration joins the sample only if it is not negative. */
  lemma AppendRow(rows: seq<RequestRow>, r: RequestRow)
    ensures StatisticsOf(rows + [r]).totalRequests == StatisticsOf(rows).totalRequests + 1
    ensures CompletedCount(rows + [r]) == CompletedCount(rows) + (if IsCompleted(r) then 1 else 0)
    ensures IsCompleted(r) && Delta(r) >= 0 ==> Durations(rows + [r]) == Durations(rows) + [Delta(r)]
    ensures !(IsCompleted(r) && Delta(r) >= 0) ==> Durations(rows + [r]) == Durations(rows)
    ensures EquipmentLabels(rows + [r]) == EquipmentLabels(rows) + [CategoryLabel(r.equipmentType)]
    ensures IssueLabels(rows + [r]) == IssueLabels(rows) + [CategoryLabel(r.issueType)]
  {
    assert Init(rows + [r]) == rows;
  }

  /** A completed row with a negative duration is counted as completed but leaves the sample as it was. */
  lemma NegativeDurationExcluded(rows: seq<RequestRow>, r: RequestRow)
    requires IsCompleted(r) && Delta(r) < 0
    ensures CompletedCount(rows + [r]) == CompletedCount(rows) + 1
    ensures Durations(rows + [r]) == Durations(rows)
  {
    AppendRow(rows, r);
  }

  /** At most every row is completed. */
  lemma {:induction false} CompletedAtMostTotal(rows: seq<RequestRow>)
    ensures StatisticsOf(rows).completedRequests <= StatisticsOf(rows).totalRequests
  {
    if rows != [] { CompletedAtMostTotal(Init(rows)); }
  }

  /** The duration sample has at most one value per completed row, and no value is negative. */
  lemma {:induction false} DurationSample(rows: seq<RequestRow>)
    ensures |Durations(rows)| <= CompletedCount(rows)
    ensures forall i :: 0 <= i < |Durations(rows)| ==> Durations(rows)[i] >= 0
  {
    if rows != [] { DurationSample(Init(rows)); }
  }

  /** A sum of a non-empty sample is at least `len * min`... */
  lemma {:induction false} SumAtLeastMin(xs: seq<int>)
    requires xs != []
    ensures |xs| * Min(xs) <= Sum(xs)
  {
    if |xs| > 1 {
      var p := xs[..|xs| - 1];
      var n := |p|;
      SumAtLeastMin(p);
      var lo := Min(xs);
      assert lo <= Min(p) && lo <= xs[|xs| - 1];
      assert Sum(xs) == Sum(p) + xs[|xs| - 1];
      ScaleMonotone(n, lo, Min(p));
      assert |xs| * lo == n * lo + lo;
    } else {
      assert xs[..0] == [];
    }
  }

  /** ... and at most `len * max`. */
  lemma {:induction false} SumAtMostMax(xs: seq<int>)
    requires xs != []
    ensures Sum(xs) <= |xs| * Max(xs)
  {
    if |xs| > 1 {
      var p := xs[..|xs| - 1];
      var n := |p|;
      SumAtMostMax(p);
      var hi := Max(xs);
      assert hi >= Max(p) && hi >= xs[|xs| - 1];
      assert Sum(xs) == Sum(p) + xs[|xs| - 1];
      ScaleMonotone(n, Max(p), hi);
      assert |xs| * hi == n * hi + hi;
    } else {
      assert xs[..0] == [];
    }
  }

  lemma ScaleMonotone(n: nat, a: int, b: int)
    requires a <= b
    ensures n * a <= n * b
  {
  }

  /** The average is absent exactly when the sample is empty; otherwise it is sum over size and lies between the sample's minimum and maximum. */
  lemma AverageFacts(rows: seq<RequestRow>)
    ensures StatisticsOf(rows).averageRepairTimeDays.None? <==> Durations(rows) == []
    ensures Durations(rows) != [] ==>
      var a := StatisticsOf(rows).averageRepairTimeDays.value;
      && a.sum == Sum(Durations(rows)) && a.count == |Durations(rows)|
      && a.count * Min(Durations(rows)) <= a.sum <= a.count * Max(Durations(rows))
      && a.count <= StatisticsOf(rows).completedRequests
  {
    if Durations(rows) != [] {
      SumAtLeastMin(Durations(rows));
      SumAtMostMax(Durations(rows));
    }
    DurationSample(rows);
  }

  lemma {:induction false} LabelsLength(rows: seq<RequestRow>)
    ensures |EquipmentLabels(rows)| == |rows| && |IssueLabels(rows)| == |rows|
  {
    if rows != [] { LabelsLength(Init(rows)); }
  }

  /** Every label in the output is a normalised label: not blank and not padded. */
  lemma {:induction false} LabelsNormalised(rows: seq<RequestRow>)
    ensures forall x :: x in EquipmentLabels(rows) ==> IsTrimmed(x)
    ensures forall x :: x in IssueLabels(rows) ==> IsTrimmed(x)
  {
    if rows != [] {
      LabelsNormalised(Init(rows));
      CategoryLabelFacts(Last(rows).equipmentType);
      CategoryLabelFacts(Last(rows).issueType);
    }
  }

  /**
   * Each histogram is a dictionary with one entry per label, ranked by count
   * descending then label ascending; its counts sum to the number of rows,
   * and the count under a label is the number of rows carrying it.
   */
  lemma EquipmentHistogram(rows: seq<RequestRow>, k: string)
    ensures var h := StatisticsOf(rows).byEquipmentType;
      && DistinctKeys(h) && StrictlyRanked(h)
      && Total(h) == |rows|
      && CountOf(h, k) == Occurrences(EquipmentLabels(rows), k)
      && (forall i :: 0 <= i < |h| ==> IsTrimmed(h[i].0))
  {
    var t := Tally(EquipmentLabels(rows));
    TallyDistinct(EquipmentLabels(rows));
    RankedPreserves(t, k);
    TallyTotal(EquipmentLabels(rows));
    TallyCount(EquipmentLabels(rows), k);
    TallyKeys(EquipmentLabels(rows));
    LabelsLength(rows);
    LabelsNormalised(rows);
    var h := Ranked(t);
    forall i | 0 <= i < |h| ensures IsTrimmed(h[i].0) {
      assert h[i].0 in Keys(h);
    }
  }

  /** The same for the issue-type histogram. */
  lemma IssueHistogram(rows: seq<RequestRow>, k: string)
    ensures var h := StatisticsOf(rows).byIssueType;
      && DistinctKeys(h) && StrictlyRanked(h)
      && Total(h) == |rows|
      && CountOf(h, k) == Occurrences(IssueLabels(rows), k)
      && (forall i :: 0 <= i < |h| ==> IsTrimmed(h[i].0))
  {
    var t := Tally(IssueLabels(rows));
    TallyDistinct(IssueLabels(rows));
    RankedPreserves(t, k);
    TallyTotal(IssueLabels(rows));
    TallyCount(IssueLabels(rows), k);
    TallyKeys(IssueLabels(rows));
    LabelsLength(rows);
    LabelsNormalised(rows);
    var h := Ranked(t);
    forall i | 0 <= i < |h| ensures IsTrimmed(h[i].0) {
      assert h[i].0 in Keys(h);
    }
  }

  /** A row with a blank equipment type adds one to the count under "Не указано". */
  lemma BlankEquipmentCountedUnspecified(rows: seq<RequestRow>, r: RequestRow)
    requires AllSpace(r.equipmentType)
    ensures CountOf(StatisticsOf(rows + [r]).byEquipmentType, Unspecified)
         == CountOf(StatisticsOf(rows).byEquipmentType, Unspecified) + 1
  {
    AppendRow(rows, r);
    CategoryLabelFacts(r.equipmentType);
    EquipmentHistogram(rows, Unspecified);
    EquipmentHistogram(rows + [r], Unspecified);
    var xs := EquipmentLabels(rows + [r]);
    assert xs[..|xs| - 1] == EquipmentLabels(rows);
  }

  /** No rows: zero counts, no average and empty histograms. */
  lemma EmptyInput()
    ensures StatisticsOf([]) == Report(0, 0, None, [], [])
  {
  }
}
