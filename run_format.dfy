/** `formatChannelNumbers`: sort the channel numbers in place, then print each maximal
    run of consecutive integers as "n" or "a-b", joined with ", "; "なし" ("none")
    when there is nothing to print. */
module RunFormat {
  import opened Common
  import opened Decimal

  /** An inclusive run `first..last` of consecutive integers. */
  datatype Run = Run(first: int, last: int)

  predicate Sorted(s: seq<int>)
  {
    forall i, j :: 0 <= i < j < |s| ==> s[i] <= s[j]
  }

  predicate StrictlyIncreasing(s: seq<int>)
  {
    forall i, j :: 0 <= i < j < |s| ==> s[i] < s[j]
  }

  /** The runs the walk over `s` closes, in order: an element one above its predecessor
      extends the current run, any other element starts a new one. */
  function Runs(s: seq<int>): (r: seq<Run>)
    requires |s| > 0
    ensures |r| > 0 && r[|r| - 1].last == s[|s| - 1]
    ensures forall j :: 0 <= j < |r| ==> r[j].first <= r[j].last
    decreases |s|
  {
    if |s| == 1 then [Run(s[0], s[0])]
    else
      var prev := Runs(s[..|s| - 1]);
      var x := s[|s| - 1];
      if x == s[|s| - 2] + 1 then prev[..|prev| - 1] + [Run(prev[|prev| - 1].first, x)]
      else prev + [Run(x, x)]
  }

  /** The integers `a, a+1, ..., b`. */
  function Interval(a: int, b: int): (r: seq<int>)
    ensures |r| == if a <= b then b - a + 1 else 0
  {
    if a > b then [] else seq(b - a + 1, k requires 0 <= k => a + k)
  }

  /** Every integer the runs stand for, run after run: the inverse of `Runs`. */
  function Expand(rs: seq<Run>): seq<int>
    decreases |rs|
  {
    if rs == [] then [] else Expand(rs[..|rs| - 1]) + Interval(rs[|rs| - 1].first, rs[|rs| - 1].last)
  }

  function RunText(r: Run): string
  {
    if r.first == r.last then IntToString(r.first)
    else IntToString(r.first) + "-" + IntToString(r.last)
  }

  function RunTexts(rs: seq<Run>): (ts: seq<string>)
    ensures |ts| == |rs|
  {
    seq(|rs|, j requires 0 <= j < |rs| => RunText(rs[j]))
  }

  const NoneText := "なし"

  /** The text `formatChannelNumbers` returns for the (already sorted) numbers `s`. */
  function FormatSorted(s: seq<int>): string
  {
    if |s| == 0 then NoneText else Join(RunTexts(Runs(s)), ", ")
  }

  /** `numbers.sort((a, b) => a - b)`: an ascending, in-place sort (modelled by insertion sort). */
  method SortAscending(a: array<int>)
    modifies a
    ensures Sorted(a[..])
    ensures multiset(a[..]) == old(multiset(a[..]))
  {
    for i := 0 to a.Length
      invariant forall p, q :: 0 <= p < q < i ==> a[p] <= a[q]
      invariant multiset(a[..]) == old(multiset(a[..]))
    {
      InsertLast(a, i);
    }
  }

  /** Moves `a[i]` down into the sorted prefix `a[..i]`, leaving `a[..i + 1]` sorted. */
  method InsertLast(a: array<int>, i: nat)
    requires i < a.Length
    requires forall p, q :: 0 <= p < q < i ==> a[p] <= a[q]
    modifies a
    ensures forall p, q :: 0 <= p < q <= i ==> a[p] <= a[q]
    ensures multiset(a[..]) == old(multiset(a[..]))
  {
    var j := i;
    while j > 0 && a[j - 1] > a[j]
      invariant 0 <= j <= i
      invariant forall p, q :: 0 <= p < q <= i && p != j && q != j ==> a[p] <= a[q]
      invariant forall q :: j < q <= i ==> a[j] <= a[q]
      invariant multiset(a[..]) == old(multiset(a[..]))
    {
      SwapDown(a, j);
      j := j - 1;
    }
  }

  /** Exchanges `a[j - 1]` and `a[j]`. */
  method SwapDown(a: array<int>, j: nat)
    requires 0 < j < a.Length
    modifies a
    ensures a[j - 1] == old(a[j]) && a[j] == old(a[j - 1])
    ensures forall k :: 0 <= k < a.Length && k != j - 1 && k != j ==> a[k] == old(a[k])
    ensures multiset(a[..]) == old(multiset(a[..]))
  {
    a[j - 1], a[j] := a[j], a[j - 1];
  }

  /** `formatChannelNumbers`: "なし" for a missing or empty array; otherwise the array is
      sorted in place and the runs of the sorted numbers are printed. */
  method FormatChannelNumbers(numbers: array?<int>) returns (text: string)
    modifies numbers
    ensures numbers == null ==> text == NoneText
    ensures numbers != null ==> Sorted(numbers[..]) && multiset(numbers[..]) == old(multiset(numbers[..]))
    ensures numbers != null ==> text == FormatSorted(numbers[..])
  {
    if numbers == null || numbers.Length == 0 {
      return NoneText;
    }
    SortAscending(numbers);
    var ranges := CollectRuns(numbers);
    text := Join(ranges, ", ");
  }

  /** The index loop of `formatChannelNumbers`: `start` is the first number of the open run; at
      the end of the array, or where a number is not one above its predecessor, the open run
      is closed and its text pushed. */
  method CollectRuns(numbers: array<int>) returns (ranges: seq<string>)
    requires numbers.Length > 0
    ensures ranges == RunTexts(Runs(numbers[..]))
  {
    var n := numbers.Length;
    ranges := [];
    var start := numbers[0];
    var i := 1;
    while i <= n
      invariant 1 <= i <= n + 1
      invariant i <= n ==> OpenRun(numbers[..i], ranges, start)
      invariant i == n + 1 ==> ranges == RunTexts(Runs(numbers[..n]))
    {
      ghost var r := Runs(numbers[..i]);
      if i < n {
        assert numbers[..i + 1] == numbers[..i] + [numbers[i]];
        RunsStep(numbers[..i], numbers[i]);
      }
      if i == n || numbers[i] != numbers[i - 1] + 1 {
        var end := numbers[i - 1];
        ranges := ranges + [if start == end then IntToString(start) else IntToString(start) + "-" + IntToString(end)];
        RunTextsSnoc(r[..|r| - 1], r[|r| - 1]);
        assert r[..|r| - 1] + [r[|r| - 1]] == r;
        if i < n {
          start := numbers[i];
          assert r + [Run(start, start)] == Runs(numbers[..i + 1]);
          assert (r + [Run(start, start)])[..|r|] == r;
        }
      } else {
        assert (r[..|r| - 1] + [Run(start, numbers[i])])[..|r| - 1] == r[..|r| - 1];
      }
      i := i + 1;
    }
    assert numbers[..n] == numbers[..];
  }

  /** Loop state of `CollectRuns` after reading `prefix`: the texts of all runs but the last
      have been pushed, and the last run, still open, starts at `start`. */
  ghost predicate OpenRun(prefix: seq<int>, ranges: seq<string>, start: int)
    requires |prefix| > 0
  {
    var r := Runs(prefix);
    ranges == RunTexts(r[..|r| - 1]) && r[|r| - 1] == Run(start, prefix[|prefix| - 1])
  }

  lemma RunsStep(s: seq<int>, x: int)
    requires |s| > 0
    ensures var prev := Runs(s);
      Runs(s + [x]) == if x == s[|s| - 1] + 1 then prev[..|prev| - 1] + [Run(prev[|prev| - 1].first, x)]
                       else prev + [Run(x, x)]
  {
    assert (s + [x])[..|s|] == s;
  }

  lemma RunTextsSnoc(rs: seq<Run>, r: Run)
    ensures RunTexts(rs + [r]) == RunTexts(rs) + [RunText(r)]
  {
  }

  lemma IntervalSnoc(a: int, b: int)
    requires a <= b
    ensures Interval(a, b + 1) == Interval(a, b) + [b + 1]
  {
  }

  lemma ExpandSnoc(rs: seq<Run>, r: Run)
    ensures Expand(rs + [r]) == Expand(rs) + Interval(r.first, r.last)
  {
    assert (rs + [r])[..|rs|] == rs;
  }

  /** Expanding the runs gives back the numbers they were built from, for every input. */
  lemma {:induction false} ExpandRuns(s: seq<int>)
    requires |s| > 0
    ensures Expand(Runs(s)) == s
    decreases |s|
  {
    if |s| > 1 {
      var init := s[..|s| - 1];
      var x := s[|s| - 1];
      ExpandRuns(init);
      ExpandRunsStep(init, x);
      InitLast(s);
    }
  }

  /** One step of `ExpandRuns`: appending `x` to the input appends `x` to the expansion. */
  lemma ExpandRunsStep(init: seq<int>, x: int)
    requires |init| > 0
    ensures Expand(Runs(init + [x])) == Expand(Runs(init)) + [x]
  {
    RunsStep(init, x);
    var prev := Runs(init);
    if x == init[|init| - 1] + 1 {
      assert prev[|prev| - 1].last == init[|init| - 1];
      ExpandConsecutive(prev, x);
    } else {
      ExpandNew(prev, x);
    }
  }

  /** Extending the last run by the next integer appends that integer to the expansion. */
  lemma ExpandConsecutive(rs: seq<Run>, x: int)
    requires |rs| > 0 && rs[|rs| - 1].first <= rs[|rs| - 1].last && x == rs[|rs| - 1].last + 1
    ensures Expand(rs[..|rs| - 1] + [Run(rs[|rs| - 1].first, x)]) == Expand(rs) + [x]
  {
    ExpandExtend(rs[..|rs| - 1], rs[|rs| - 1], x);
    InitLast(rs);
  }

  lemma ExpandNew(rs: seq<Run>, x: int)
    ensures Expand(rs + [Run(x, x)]) == Expand(rs) + [x]
  {
    ExpandSnoc(rs, Run(x, x));
    IntervalSingleton(x);
  }

  lemma InitLast<T>(s: seq<T>)
    requires |s| > 0
    ensures s[..|s| - 1] + [s[|s| - 1]] == s
  {
  }

  lemma IntervalSingleton(x: int)
    ensures Interval(x, x) == [x]
  {
  }

  lemma ExpandExtend(rs: seq<Run>, r: Run, x: int)
    requires r.first <= r.last && x == r.last + 1
    ensures Expand(rs + [Run(r.first, x)]) == Expand(rs + [r]) + [x]
  {
    ExpandSnoc(rs, Run(r.first, x));
    ExpandSnoc(rs, r);
    IntervalSnoc(r.first, r.last);
  }

  /** Summarising the expansion of a summary gives the same summary. */
  lemma RunsIdempotent(s: seq<int>)
    requires |s| > 0
    ensures Runs(Expand(Runs(s))) == Runs(s)
  {
    ExpandRuns(s);
  }

  /** Neighbouring runs are separated by at least one missing integer. */
  predicate Separated(rs: seq<Run>)
  {
    forall j :: 0 <= j < |rs| - 1 ==> rs[j].last + 1 < rs[j + 1].first
  }

  /** For distinct ascending numbers the runs are maximal: each ends at least two below the next one's start. */
  lemma {:induction false} RunsMaximal(s: seq<int>)
    requires |s| > 0 && StrictlyIncreasing(s)
    ensures Separated(Runs(s))
    decreases |s|
  {
    if |s| > 1 {
      var init := s[..|s| - 1];
      var x := s[|s| - 1];
      assert s == init + [x];
      assert x > init[|init| - 1];
      RunsMaximal(init);
      RunsStep(init, x);
      if x == init[|init| - 1] + 1 {
        SeparatedExtend(Runs(init), x);
      } else {
        SeparatedNew(Runs(init), x);
      }
    }
  }

  /** Moving the end of the last run up keeps the runs separated. */
  lemma SeparatedExtend(rs: seq<Run>, x: int)
    requires |rs| > 0 && Separated(rs)
    ensures Separated(rs[..|rs| - 1] + [Run(rs[|rs| - 1].first, x)])
  {
    var r := rs[..|rs| - 1] + [Run(rs[|rs| - 1].first, x)];
    forall j | 0 <= j < |r| - 1 ensures r[j].last + 1 < r[j + 1].first {
      assert r[j] == rs[j];
      assert r[j + 1].first == rs[j + 1].first;
    }
  }

  /** A new run starting at least two above the last run's end keeps the runs separated. */
  lemma SeparatedNew(rs: seq<Run>, x: int)
    requires |rs| > 0 && Separated(rs) && x > rs[|rs| - 1].last + 1
    ensures Separated(rs + [Run(x, x)])
  {
    var r := rs + [Run(x, x)];
    forall j | 0 <= j < |r| - 1 ensures r[j].last + 1 < r[j + 1].first {
      assert r[j] == rs[j];
    }
  }

  /** An integer is covered by one of the runs exactly when it is in the run's expansion. */
  lemma {:induction false} InExpand(rs: seq<Run>, x: int)
    ensures x in Expand(rs) <==> exists j :: 0 <= j < |rs| && rs[j].first <= x <= rs[j].last
    decreases |rs|
  {
    if rs != [] {
      var init := rs[..|rs| - 1];
      var r := rs[|rs| - 1];
      InExpand(init, x);
      if r.first <= x <= r.last {
        assert Interval(r.first, r.last)[x - r.first] == x;
      }
      if exists j :: 0 <= j < |init| && init[j].first <= x <= init[j].last {
        var j :| 0 <= j < |init| && init[j].first <= x <= init[j].last;
        assert rs[j] == init[j];
      }
    }
  }

  /** The runs cover exactly the input numbers. */
  lemma RunsCover(s: seq<int>, x: int)
    requires |s| > 0
    ensures x in s <==> exists j :: 0 <= j < |Runs(s)| && Runs(s)[j].first <= x <= Runs(s)[j].last
  {
    ExpandRuns(s);
    InExpand(Runs(s), x);
  }
}
