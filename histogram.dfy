/**
 * The label -> count dictionaries of the statistics report. A Python dict
 * keeps its keys in insertion order, so a dictionary is modelled as a
 * sequence of (label, count) entries with distinct labels; `sorted` over
 * its items with key `(-count, label)` is modelled by `Ranked`.
 */
module Histogram {
  import opened Text

  type Entry = (string, nat)
  type Dict = seq<Entry>

  function Keys(d: Dict): set<string> {
    set i | 0 <= i < |d| :: d[i].0
  }

  /** No label occurs twice: the sequence is a faithful picture of a dict. */
  predicate DistinctKeys(d: Dict) {
    forall i, j :: 0 <= i < j < |d| ==> d[i].0 != d[j].0
  }

  /** The count stored under label `k` (0 when absent, as `dict.get(k, 0)`). */
  function CountOf(d: Dict, k: string): nat {
    if d == [] then 0 else (if d[0].0 == k then d[0].1 else 0) + CountOf(d[1..], k)
  }

  /** The sum of all counts. */
  function Total(d: Dict): nat {
    if d == [] then 0 else d[0].1 + Total(d[1..])
  }

  /** A dictionary without label `k` stores nothing under it. */
  lemma {:induction false} CountOfAbsent(d: Dict, k: string)
    requires k !in Keys(d)
    ensures CountOf(d, k) == 0
  {
    if d != [] {
      assert Keys(d) == {d[0].0} + Keys(d[1..]) by {
        assert forall i :: 0 < i < |d| ==> d[i] == d[1..][i - 1];
        assert forall i :: 0 <= i < |d| - 1 ==> d[1..][i] == d[i + 1];
      }
      CountOfAbsent(d[1..], k);
    }
  }

  lemma KeysCons(e: Entry, d: Dict)
    ensures Keys([e] + d) == {e.0} + Keys(d)
  {
    var c := [e] + d;
    forall x | x in Keys(c) ensures x in {e.0} + Keys(d) {
      var i :| 0 <= i < |c| && c[i].0 == x;
      if i > 0 { assert d[i - 1].0 == x; }
    }
    forall x | x in {e.0} + Keys(d) ensures x in Keys(c) {
      if x == e.0 {
        assert c[0].0 == x;
      } else {
        var i :| 0 <= i < |d| && d[i].0 == x;
        assert c[i + 1].0 == x;
      }
    }
  }

  /** `d[k] = d.get(k, 0) + 1`: a label already present keeps its place; a new one is appended at the end. */
  function Bump(d: Dict, k: string): Dict {
    if d == [] then [(k, 1)]
    else if d[0].0 == k then [(k, d[0].1 + 1)] + d[1..]
    else [d[0]] + Bump(d[1..], k)
  }

  /** Bumping adds `k` to the labels and nothing else; a new label goes at the end with count 1. */
  lemma {:induction false} BumpKeys(d: Dict, k: string)
    ensures Keys(Bump(d, k)) == Keys(d) + {k}
    ensures k !in Keys(d) ==> Bump(d, k) == d + [(k, 1)]
  {
    if d == [] {
      KeysCons((k, 1), []);
      assert Keys([]) == {};
    } else {
      KeysCons(d[0], d[1..]);
      assert d == [d[0]] + d[1..];
      if d[0].0 == k {
        KeysCons((k, d[0].1 + 1), d[1..]);
      } else {
        BumpKeys(d[1..], k);
        KeysCons(d[0], Bump(d[1..], k));
      }
    }
  }

  /** Bumping `k` raises the count of `k` by one and leaves every other count alone. */
  lemma {:induction false} BumpCount(d: Dict, k: string, j: string)
    ensures CountOf(Bump(d, k), j) == CountOf(d, j) + (if j == k then 1 else 0)
  {
    if d != [] && d[0].0 != k {
      BumpCount(d[1..], k, j);
      assert Bump(d, k)[1..] == Bump(d[1..], k);
    }
  }

  /** Bumping adds exactly one to the sum of the counts. */
  lemma {:induction false} BumpTotal(d: Dict, k: string)
    ensures Total(Bump(d, k)) == Total(d) + 1
  {
    if d != [] && d[0].0 != k {
      BumpTotal(d[1..], k);
      assert Bump(d, k)[1..] == Bump(d[1..], k);
    }
  }

  /** Bumping keeps the labels distinct. */
  lemma {:induction false} BumpDistinct(d: Dict, k: string)
    requires DistinctKeys(d)
    ensures DistinctKeys(Bump(d, k))
  {
    if d != [] && d[0].0 != k {
      DistinctTail(d);
      BumpDistinct(d[1..], k);
      BumpKeys(d[1..], k);
      DistinctCons(d[0], Bump(d[1..], k));
    }
  }

  /** The tail of a dictionary with distinct labels has distinct labels, none of them the head's. */
  lemma DistinctTail(d: Dict)
    requires d != [] && DistinctKeys(d)
    ensures DistinctKeys(d[1..]) && d[0].0 !in Keys(d[1..])
  {
    forall i, j | 0 <= i < j < |d[1..]| ensures d[1..][i].0 != d[1..][j].0 {
      assert d[1..][i] == d[i + 1] && d[1..][j] == d[j + 1];
    }
    forall i | 0 <= i < |d[1..]| ensures d[1..][i].0 != d[0].0 {
      assert d[1..][i] == d[i + 1];
    }
  }

  /** Putting an entry with a new label in front keeps the labels distinct. */
  lemma DistinctCons(e: Entry, d: Dict)
    requires DistinctKeys(d) && e.0 !in Keys(d)
    ensures DistinctKeys([e] + d)
  {
    var r := [e] + d;
    forall i, j | 0 <= i < j < |r| ensures r[i].0 != r[j].0 {
      assert r[j] == d[j - 1];
      if i > 0 {
        assert r[i] == d[i - 1];
      } else {
        assert d[j - 1].0 in Keys(d);
      }
    }
  }

  /** How often `k` occurs in `xs`. */
  function Occurrences(xs: seq<string>, k: string): nat {
    if xs == [] then 0
    else Occurrences(xs[..|xs| - 1], k) + (if xs[|xs| - 1] == k then 1 else 0)
  }

  /** The dictionary a loop of `Bump`s over `xs` builds, starting from `{}`. */
  function Tally(xs: seq<string>): Dict {
    if xs == [] then [] else Bump(Tally(xs[..|xs| - 1]), xs[|xs| - 1])
  }

  /** A tally never lists a label twice. */
  lemma {:induction false} TallyDistinct(xs: seq<string>)
    ensures DistinctKeys(Tally(xs))
  {
    if xs != [] {
      TallyDistinct(xs[..|xs| - 1]);
      BumpDistinct(Tally(xs[..|xs| - 1]), xs[|xs| - 1]);
    }
  }

  /** Tallying one more label bumps it in the tally so far. */
  lemma TallyAppend(xs: seq<string>, x: string)
    ensures Tally(xs + [x]) == Bump(Tally(xs), x)
  {
    assert (xs + [x])[..|xs|] == xs;
  }

  /** The counts of a tally sum to the number of labels tallied. */
  lemma {:induction false} TallyTotal(xs: seq<string>)
    ensures Total(Tally(xs)) == |xs|
  {
    if xs != [] {
      TallyTotal(xs[..|xs| - 1]);
      BumpTotal(Tally(xs[..|xs| - 1]), xs[|xs| - 1]);
    }
  }

  /** The count a tally stores under `k` is the number of occurrences of `k`. */
  lemma {:induction false} TallyCount(xs: seq<string>, k: string)
    ensures CountOf(Tally(xs), k) == Occurrences(xs, k)
  {
    if xs != [] {
      TallyCount(xs[..|xs| - 1], k);
      BumpCount(Tally(xs[..|xs| - 1]), xs[|xs| - 1], k);
    }
  }

  /** A tally has one entry for each distinct label tallied. */
  lemma {:induction false} TallyKeys(xs: seq<string>)
    ensures Keys(Tally(xs)) == set x | x in xs
  {
    if xs != [] {
      var p := xs[..|xs| - 1];
      TallyKeys(p);
      BumpKeys(Tally(p), xs[|xs| - 1]);
      assert xs == p + [xs[|xs| - 1]];
      assert (set x | x in xs) == (set x | x in p) + {xs[|xs| - 1]};
    }
  }

  /** Entry `x` is listed before `y`: a larger count first, equal counts by ascending label. */
  predicate Before(x: Entry, y: Entry) {
    x.1 > y.1 || (x.1 == y.1 && LexLt(x.0, y.0))
  }

  lemma BeforeTransitive(x: Entry, y: Entry, z: Entry)
    requires Before(x, y) && Before(y, z)
    ensures Before(x, z)
  {
    if x.1 == y.1 && y.1 == z.1 { LexLtTransitive(x.0, y.0, z.0); }
  }

  lemma BeforeAsymmetric(x: Entry, y: Entry)
    requires Before(x, y)
    ensures !Before(y, x)
  {
    if x.1 == y.1 { LexLtAsymmetric(x.0, y.0); }
  }

  lemma BeforeTotal(x: Entry, y: Entry)
    requires x != y
    ensures Before(x, y) || Before(y, x)
  {
    if x.1 == y.1 { LexLtTotal(x.0, y.0); }
  }

  /** Every entry is listed before all entries that follow it. */
  predicate StrictlyRanked(s: Dict) {
    forall i, j :: 0 <= i < j < |s| ==> Before(s[i], s[j])
  }

  /** Insert `e` into a ranked sequence at its place. */
  function Insert(e: Entry, s: Dict): (r: Dict)
    ensures multiset(r) == multiset(s) + multiset{e}
    ensures StrictlyRanked(s) && e !in s ==> StrictlyRanked(r)
  {
    if s == [] || Before(e, s[0]) then
      InsertFrontRanked(e, s);
      [e] + s
    else
      var rest := Insert(e, s[1..]);
      assert s == [s[0]] + s[1..];
      InsertLaterRanked(e, s, rest);
      [s[0]] + rest
  }

  /** An entry listed before the head of a ranked sequence may go in front of it. */
  lemma InsertFrontRanked(e: Entry, s: Dict)
    requires s == [] || Before(e, s[0])
    ensures StrictlyRanked(s) ==> StrictlyRanked([e] + s)
  {
    if StrictlyRanked(s) && s != [] {
      var r := [e] + s;
      forall i, j | 0 <= i < j < |r| ensures Before(r[i], r[j]) {
        assert r[j] == s[j - 1];
        if i > 0 {
          assert r[i] == s[i - 1];
        } else if j > 1 {
          BeforeTransitive(e, s[0], s[j - 1]);
        }
      }
    }
  }

  /** An entry that goes after the head leaves the head in front of the ranked rest. */
  lemma InsertLaterRanked(e: Entry, s: Dict, rest: Dict)
    requires s != [] && !Before(e, s[0])
    requires multiset(rest) == multiset(s[1..]) + multiset{e}
    requires StrictlyRanked(s[1..]) && e !in s[1..] ==> StrictlyRanked(rest)
    ensures StrictlyRanked(s) && e !in s ==> StrictlyRanked([s[0]] + rest)
  {
    if StrictlyRanked(s) && e !in s {
      RankedTail(s);
      assert e != s[0];
      BeforeTotal(e, s[0]);
      assert e !in s[1..];
      var r := [s[0]] + rest;
      forall i, j | 0 <= i < j < |r| ensures Before(r[i], r[j]) {
        assert r[j] == rest[j - 1];
        assert r[j] in multiset(rest);
        if i > 0 {
          assert r[i] == rest[i - 1];
        } else if r[j] != e {
          assert r[j] in multiset(s[1..]);
          HeadBefore(s, r[j]);
        }
      }
    }
  }

  /** `sorted(d.items(), key=lambda item: (-item[1], item[0]))`, by insertion. */
  function Ranked(d: Dict): (r: Dict)
    ensures multiset(r) == multiset(d)
    ensures DistinctKeys(d) ==> StrictlyRanked(r)
  {
    if d == [] then []
    else
      var rest := Ranked(d[1..]);
      assert d == [d[0]] + d[1..];
      assert DistinctKeys(d) ==> d[0] !in rest by {
        if DistinctKeys(d) {
          forall i | 0 <= i < |d[1..]| ensures d[1..][i] != d[0] {
            assert d[1..][i] == d[i + 1];
          }
          assert d[0] !in multiset(d[1..]);
        }
      }
      Insert(d[0], rest)
  }

  lemma {:induction false} InsertCount(e: Entry, s: Dict, k: string)
    ensures CountOf(Insert(e, s), k) == (if e.0 == k then e.1 else 0) + CountOf(s, k)
  {
    if s != [] && !Before(e, s[0]) {
      InsertCount(e, s[1..], k);
      assert Insert(e, s)[1..] == Insert(e, s[1..]);
    }
  }

  lemma {:induction false} InsertTotal(e: Entry, s: Dict)
    ensures Total(Insert(e, s)) == e.1 + Total(s)
  {
    if s != [] && !Before(e, s[0]) {
      InsertTotal(e, s[1..]);
      assert Insert(e, s)[1..] == Insert(e, s[1..]);
    }
  }

  /** Inserting adds the entry's label to the labels. */
  lemma {:induction false} InsertKeys(e: Entry, s: Dict)
    ensures Keys(Insert(e, s)) == Keys(s) + {e.0}
  {
    if s == [] || Before(e, s[0]) {
      KeysCons(e, s);
    } else {
      InsertKeys(e, s[1..]);
      assert s == [s[0]] + s[1..];
      assert Insert(e, s) == [s[0]] + Insert(e, s[1..]);
      KeysCons(s[0], s[1..]);
      KeysCons(s[0], Insert(e, s[1..]));
    }
  }

  /** Inserting an entry with a new label keeps the labels distinct. */
  lemma {:induction false} InsertDistinct(e: Entry, s: Dict)
    requires DistinctKeys(s) && e.0 !in Keys(s)
    ensures DistinctKeys(Insert(e, s))
  {
    if s == [] || Before(e, s[0]) {
      DistinctCons(e, s);
    } else {
      assert s == [s[0]] + s[1..];
      KeysCons(s[0], s[1..]);
      DistinctTail(s);
      InsertDistinct(e, s[1..]);
      InsertKeys(e, s[1..]);
      assert Insert(e, s) == [s[0]] + Insert(e, s[1..]);
      DistinctCons(s[0], Insert(e, s[1..]));
    }
  }

  /**
   * Ranking reorders a dictionary without changing it: same labels, still
   * distinct, the same count under every label and the same total.
   */
  lemma {:induction false} RankedPreserves(d: Dict, k: string)
    requires DistinctKeys(d)
    ensures DistinctKeys(Ranked(d)) && Keys(Ranked(d)) == Keys(d)
    ensures CountOf(Ranked(d), k) == CountOf(d, k)
    ensures Total(Ranked(d)) == Total(d)
  {
    if d != [] {
      assert d == [d[0]] + d[1..];
      KeysCons(d[0], d[1..]);
      DistinctTail(d);
      RankedPreserves(d[1..], k);
      InsertKeys(d[0], Ranked(d[1..]));
      InsertDistinct(d[0], Ranked(d[1..]));
      InsertCount(d[0], Ranked(d[1..]), k);
      InsertTotal(d[0], Ranked(d[1..]));
    }
  }

  /**
   * There is only one strictly ranked arrangement of a collection of
   * entries: any permutation of a dictionary's items that lists every
   * entry before the entries after it is exactly `Ranked` of it.
   */
  lemma {:induction false} RankedUnique(a: Dict, b: Dict)
    requires StrictlyRanked(a) && StrictlyRanked(b) && multiset(a) == multiset(b)
    ensures a == b
  {
    if a != [] {
      assert |b| == |a| by { assert |multiset(b)| == |multiset(a)|; }
      assert a == [a[0]] + a[1..];
      assert b == [b[0]] + b[1..];
      assert multiset(a) == multiset{a[0]} + multiset(a[1..]);
      assert multiset(b) == multiset{b[0]} + multiset(b[1..]);
      if a[0] != b[0] {
        assert b[0] in multiset(b) && a[0] in multiset(a);
        assert b[0] in multiset(a[1..]);
        assert a[0] in multiset(b[1..]);
        HeadBefore(a, b[0]);
        HeadBefore(b, a[0]);
        BeforeAsymmetric(a[0], b[0]);
      }
      assert multiset(a[1..]) == multiset(a) - multiset{a[0]};
      assert multiset(b[1..]) == multiset(b) - multiset{b[0]};
      RankedTail(a);
      RankedTail(b);
      RankedUnique(a[1..], b[1..]);
    }
  }

  /** The head of a ranked sequence comes before everything after it. */
  lemma HeadBefore(a: Dict, x: Entry)
    requires StrictlyRanked(a) && a != [] && x in a[1..]
    ensures Before(a[0], x)
  {
    var i :| 0 <= i < |a[1..]| && a[1..][i] == x;
    assert a[i + 1] == x;
  }

  lemma RankedTail(a: Dict)
    requires StrictlyRanked(a) && a != []
    ensures StrictlyRanked(a[1..])
  {
    forall i, j | 0 <= i < j < |a[1..]| ensures Before(a[1..][i], a[1..][j]) {
      assert a[1..][i] == a[i + 1] && a[1..][j] == a[j + 1];
    }
  }

  /** "Sorted by count descending, then label ascending" determines the output completely. */
  lemma SortedOutputIsRanked(d: Dict, b: Dict)
    requires DistinctKeys(d)
    requires multiset(b) == multiset(d) && StrictlyRanked(b)
    ensures b == Ranked(d)
  {
    RankedUnique(b, Ranked(d));
  }
}
