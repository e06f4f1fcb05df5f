/** Slicing the span of an expiring budget into pieces of at most a year. Times are
    seconds; a calendar day is DAY of them. */
module YearSlices {
  const DAY := 86400
  const DAYS_IN_YEAR := 365

  function DayOf(t: int): int { t / DAY }
  function TimeOfDay(t: int): int { t % DAY }

  type Slice = (int, int)

  function First(s: Slice): int { DayOf(s.0) }
  function Last(s: Slice): int { DayOf(s.1) }
  function Span(s: Slice): int { Last(s) - First(s) + 1 }

  /** The slices follow each other day by day, each but the last spanning a year. */
  predicate Chain(slices: seq<Slice>, start: int) {
    && slices != [] && First(slices[0]) == DayOf(start)
    && (forall i, j :: 0 <= i && j == i + 1 < |slices| ==> First(slices[j]) == Last(slices[i]) + 1)
    && (forall i :: 0 <= i < |slices| - 1 ==> Span(slices[i]) == DAYS_IN_YEAR)
  }

  /** The end leaves a rest of a whole number of years but comes earlier in its day than
      the start in its own. */
  predicate Overhangs(start: int, end: int) {
    && DayOf(start) < DayOf(end) && (DayOf(end) - DayOf(start)) % DAYS_IN_YEAR == 0
    && TimeOfDay(end) < TimeOfDay(start)
  }

  lemma AddDays(t: int, n: int)
    ensures DayOf(t + n * DAY) == DayOf(t) + n && TimeOfDay(t + n * DAY) == TimeOfDay(t)
  {
  }

  lemma Order(a: int, b: int)
    ensures a <= b <==> DayOf(a) < DayOf(b) || (DayOf(a) == DayOf(b) && TimeOfDay(a) <= TimeOfDay(b))
  {
  }

  /** The slices of a span, of which the last is shorter than a year or as long, but for an
      overhang: none spans more than a year if and only if the end does not overhang. */
  method SliceTimePeriodByYears(start: int, end: int) returns (result: seq<Slice>)
    ensures start > end ==> result == []
    ensures start <= end ==> Chain(result, start) && result[0].0 == start && result[|result| - 1].1 == end
    ensures start <= end ==> Span(result[|result| - 1]) == if Overhangs(start, end) then 366 else
                               (DayOf(end) - DayOf(start)) % DAYS_IN_YEAR + 1
    ensures (forall i :: 0 <= i < |result| ==> Span(result[i]) <= DAYS_IN_YEAR) <==> start > end || !Overhangs(start, end)
  {
    hide Overhangs, DayOf, TimeOfDay;
    result := [];
    var current := start;
    ghost var years := 0;
    while current <= end
      invariant current == start + years * DAYS_IN_YEAR * DAY && years >= 0
      invariant result == [] <==> years == 0
      invariant years > 0 ==> current <= end && Chain(result, start) && Span(result[|result| - 1]) == DAYS_IN_YEAR
      invariant years > 0 ==> result[0].0 == start && Last(result[|result| - 1]) + 1 == DayOf(current)
      decreases end - current
    {
      var next := current + DAYS_IN_YEAR * DAY;
      AddDays(current, DAYS_IN_YEAR);
      AddDays(current, DAYS_IN_YEAR - 1);
      if next > end {
        LastSpan(start, current, end, years);
        result := result + [(current, end)];
        break;
      }
      result := result + [(current, next - DAY)];
      current := next;
      years := years + 1;
    }
  }

  lemma LastSpan(start: int, current: int, end: int, years: nat)
    requires current == start + years * DAYS_IN_YEAR * DAY && current <= end < current + DAYS_IN_YEAR * DAY
    ensures DayOf(end) - DayOf(current) + 1 ==
              if Overhangs(start, end) then 366 else (DayOf(end) - DayOf(start)) % DAYS_IN_YEAR + 1
  {
    AddDays(start, years * DAYS_IN_YEAR);
    AddDays(current, DAYS_IN_YEAR);
    Order(current, end);
    Order(current + DAYS_IN_YEAR * DAY, end);
    var rest := DayOf(end) - DayOf(current);
    assert 0 <= rest <= DAYS_IN_YEAR;
    assert DayOf(end) - DayOf(start) == years * DAYS_IN_YEAR + rest;
    Remainder(years, rest);
  }

  lemma Remainder(years: nat, rest: nat)
    requires rest <= DAYS_IN_YEAR
    ensures (years * DAYS_IN_YEAR + rest) % DAYS_IN_YEAR == if rest == DAYS_IN_YEAR then 0 else rest
  {
  }

  /** Every day of the span lies in exactly one slice. */
  lemma {:induction false} EachDayOnce(slices: seq<Slice>, start: int, end: int, d: int)
    requires Chain(slices, start) && Last(slices[|slices| - 1]) == DayOf(end)
    requires DayOf(start) <= d <= DayOf(end)
    ensures exists i :: 0 <= i < |slices| && First(slices[i]) <= d <= Last(slices[i])
    ensures forall i, j :: 0 <= i < j < |slices| ==>
              !(First(slices[i]) <= d <= Last(slices[i]) && First(slices[j]) <= d <= Last(slices[j]))
  {
    forall i, j | 0 <= i < j < |slices| ensures Last(slices[i]) < First(slices[j]) { Ordered(slices, start, i, j); }
    var i := 0;
    while Last(slices[i]) < d
      invariant 0 <= i < |slices| && First(slices[i]) <= d
      decreases |slices| - i
    {
      assert i + 1 < |slices|;
      i := i + 1;
    }
  }

  lemma {:induction false} Ordered(slices: seq<Slice>, start: int, i: nat, j: nat)
    requires Chain(slices, start) && i < j < |slices|
    ensures Last(slices[i]) < First(slices[j])
  {
    if i + 1 < j {
      Ordered(slices, start, i, j - 1);
      assert First(slices[j]) == Last(slices[j-1]) + 1;
      assert Span(slices[j-1]) == DAYS_IN_YEAR;
    }
  }

  /** With an end of day at the end, no slice spans more than a year. */
  lemma EndOfDayNeverOverhangs(start: int, end: int)
    requires TimeOfDay(end) == DAY - 1
    ensures !Overhangs(start, end)
  {
  }

  /** A start at noon and an end in the morning a year later give a slice of 366 days. */
  lemma OverhangExists()
    ensures Overhangs(DAY / 2, 365 * DAY + 60)
  {
  }

  // --- the total of a budget ------------------------------------------------------------

  /** Expenses of the days from first to last. */
  function SumDays(expense: int -> int, first: int, last: int): int
    decreases last - first + 1
  {
    if last < first then 0 else expense(first) + SumDays(expense, first + 1, last)
  }

  lemma {:induction false} SumSplits(expense: int -> int, first: int, mid: int, last: int)
    requires first <= mid + 1 <= last + 1
    ensures SumDays(expense, first, last) == SumDays(expense, first, mid) + SumDays(expense, mid + 1, last)
    decreases mid - first + 1
  {
    if first <= mid { SumSplits(expense, first + 1, mid, last); }
  }

  /** The breakdown of each slice added up: every day's expenses are counted once. */
  method ProcessExpiringBudget(start: int, end: int, expense: int -> int) returns (total: int)
    requires TimeOfDay(end) == DAY - 1
    ensures total == if start > end then 0 else SumDays(expense, DayOf(start), DayOf(end))
  {
    var slices := SliceTimePeriodByYears(start, end);
    total := 0;
    for i := 0 to |slices|
      invariant i == 0 ==> total == 0
      invariant i > 0 ==> total == SumDays(expense, DayOf(start), Last(slices[i-1])) && DayOf(start) <= Last(slices[i-1])
    {
      total := total + SumDays(expense, First(slices[i]), Last(slices[i]));
      if i > 0 {
        assert First(slices[i]) == Last(slices[i-1]) + 1;
        assert i < |slices| - 1 ==> Span(slices[i]) == DAYS_IN_YEAR;
        SumSplits(expense, DayOf(start), Last(slices[i-1]), Last(slices[i]));
      }
    }
  }
}
