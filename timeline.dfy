/** The time axis of the roadmap page: the buckets (quarters or months) the
    timeline is divided into, and the prev/next navigation of the visible range.

    An instant is abstracted to a whole number of months: the month boundary
    `y * 12 + m` is the first instant of month `m` (0-based) of year `y`, and any
    other instant stands for the first month boundary at or after it. The range
    start is always a month boundary (start of a year, shifted by whole months).
    The range end starts as the last moment of a year; shifting it by whole
    months clamps its day of the month and keeps its time of day (Dec 31 goes to
    Nov 30 and then to Dec 30), so it is always an instant strictly inside a
    month and stands for the boundary that follows it. As the cursor is always a
    month boundary, comparing it with the end gives the same answer. Under this
    abstraction adding `k` months is `+ k`, the month of the year is `% 12` and
    the year is `/ 12` (both floor, as the calendar does for years before 0). */
module Timeline {

  type Month = int

  /** The granularity toggle of the page. */
  datatype View = Quarters | Months

  datatype Direction = Prev | Next

  /** The visible range; `end` is exclusive. */
  datatype TimeRange = TimeRange(start: Month, end: Month)

  /** A period label: `Q<quarter>` in the quarters view, the name of month
      `monthOfYear` (0 = January) in the months view. */
  datatype Label = QuarterLabel(quarter: int) | MonthLabel(monthOfYear: int)

  /** One bucket of the axis. `id` is the emission index, rendered as
      `period-<id>`; `subLabel` is the year of `start`. */
  datatype TimePeriod = TimePeriod(id: nat, title: Label, subLabel: int, start: Month, end: Month)

  /** Months per period, and per navigation step. */
  function Step(view: View): (n: nat)
    ensures 1 <= n <= 3
  {
    if view == Quarters then 3 else 1
  }

  function MonthOfYear(x: Month): int
  {
    x % 12
  }

  function YearOf(x: Month): int
  {
    x / 12
  }

  /** `Math.floor(start.getMonth() / 3) + 1`. */
  function QuarterOf(x: Month): int
  {
    MonthOfYear(x) / 3 + 1
  }

  function LabelFor(view: View, x: Month): Label
  {
    if view == Quarters then QuarterLabel(QuarterOf(x)) else MonthLabel(MonthOfYear(x))
  }

  /** The period the generator emits in round `i`. */
  function PeriodAt(origin: Month, view: View, i: nat): TimePeriod
  {
    var s := origin + i * Step(view);
    TimePeriod(i, LabelFor(view, s), YearOf(s), s, s + Step(view))
  }

  /** The number of periods the generator emits: the ceiling of the range
      length divided by the step, or 0 for an empty range. */
  function PeriodCount(range: TimeRange, view: View): nat
  {
    if range.start >= range.end then 0
    else (range.end - range.start + Step(view) - 1) / Step(view)
  }

  /** `n` rounds of the loop leave the cursor at or past `end`, and the cursor
      was before `end` at the start of every one of them. */
  ghost predicate StopsAfter(range: TimeRange, view: View, n: nat)
  {
    range.start + n * Step(view) >= range.end &&
    (n == 0 || range.start + (n - 1) * Step(view) < range.end)
  }

  /** PeriodCount is exactly the number of rounds after which the loop stops. */
  lemma PeriodCountStops(range: TimeRange, view: View, n: nat)
    ensures n == PeriodCount(range, view) <==> StopsAfter(range, view, n)
  {
  }

  /** The generator's output for a range and view, period by period. */
  ghost predicate IsAxis(periods: seq<TimePeriod>, range: TimeRange, view: View)
  {
    |periods| == PeriodCount(range, view) &&
    forall i :: 0 <= i < |periods| ==> periods[i] == PeriodAt(range.start, view, i)
  }

  /** What the axis promises: it starts at `range.start`, is empty exactly for
      an empty range, numbers its periods 0, 1, ..., makes each one step long and
      labels it from its start, leaves no gap or overlap between neighbours,
      starts every period before `range.end`, and reaches at least `range.end`. */
  lemma AxisShape(periods: seq<TimePeriod>, range: TimeRange, view: View)
    requires IsAxis(periods, range, view)
    ensures range.start >= range.end <==> periods == []
    ensures periods != [] ==> periods[0].start == range.start
    ensures periods != [] ==> periods[|periods| - 1].end >= range.end
    ensures forall i :: 0 <= i < |periods| ==>
              periods[i].id == i && periods[i].start < range.end &&
              periods[i].end == periods[i].start + Step(view) &&
              periods[i].subLabel == YearOf(periods[i].start) &&
              periods[i].title == LabelFor(view, periods[i].start)
    ensures forall i :: 0 < i < |periods| ==> periods[i].start == periods[i - 1].end
  {
  }

  /** The `timePeriods` generator: walks a cursor from `range.start` in steps
      of the view's size while it is before `range.end`, emitting one period per
      round. Its contract states the properties of AxisShape outright for the
      caller; the loop itself only establishes IsAxis and the lemma derives the
      rest, which keeps the loop's proof obligation small. */
  method GeneratePeriods(range: TimeRange, view: View) returns (periods: seq<TimePeriod>)
    ensures IsAxis(periods, range, view)
    ensures range.start >= range.end <==> periods == []
    ensures periods != [] ==> periods[0].start == range.start
    ensures periods != [] ==> periods[|periods| - 1].end >= range.end
    ensures forall i :: 0 <= i < |periods| ==>
              periods[i].id == i && periods[i].start < range.end &&
              periods[i].end == periods[i].start + Step(view) &&
              periods[i].subLabel == YearOf(periods[i].start) &&
              periods[i].title == LabelFor(view, periods[i].start)
    ensures forall i :: 0 < i < |periods| ==> periods[i].start == periods[i - 1].end
  {
    periods := [];
    var current := range.start;
    var index: nat := 0;
    var step := Step(view);
    while current < range.end
      invariant index == |periods|
      invariant current == range.start + index * step
      invariant index > 0 ==> range.start + (index - 1) * step < range.end
      invariant forall i :: 0 <= i < index ==> periods[i] == PeriodAt(range.start, view, i)
      decreases range.end - current
    {
      var start := current;
      var end := start + step;
      var caption := if view == Quarters then QuarterLabel(MonthOfYear(start) / 3 + 1)
                     else MonthLabel(MonthOfYear(start));
      periods := periods + [TimePeriod(index, caption, YearOf(start), start, end)];
      current := end;
      index := index + 1;
      assert current == range.start + index * step;
    }
    PeriodCountStops(range, view, index);
    AxisShape(periods, range, view);
  }

  /** `navigateTimeline`: both ends move by one step of the current view,
      backwards for Prev. */
  function Navigate(range: TimeRange, view: View, dir: Direction): (r: TimeRange)
    ensures r.end - r.start == range.end - range.start
    ensures r.start - range.start == Offset(view, dir)
  {
    TimeRange(range.start + Offset(view, dir), range.end + Offset(view, dir))
  }

  /** The signed distance one navigation moves the range. */
  function Offset(view: View, dir: Direction): (d: int)
    ensures d == 3 || d == 1 || d == -1 || d == -3
    ensures (d < 0 <==> dir == Prev) && (d * d == 9 <==> view == Quarters)
  {
    if dir == Prev then -(Step(view) as int) else Step(view)
  }

  /** The label of a quarters-view period is Q1..Q4, and Q<n> exactly for a
      start in months 3(n-1) .. 3n-1 of its year. */
  lemma QuarterLabelRange(x: Month, n: int)
    ensures 1 <= QuarterOf(x) <= 4
    ensures QuarterOf(x) == n <==> 3 * (n - 1) <= MonthOfYear(x) < 3 * n
  {
  }

  /** Month boundary `k` of year `y` has month index `k` and year `y`. */
  lemma MonthYearOf(y: int, k: int)
    requires 0 <= k < 12
    ensures MonthOfYear(y * 12 + k) == k && YearOf(y * 12 + k) == y
  {
  }

  /** The initial range of the page (the current calendar year) is four
      quarters Q1..Q4, or twelve months January..December, all in that year. */
  lemma YearAxis(y: int, view: View, i: nat)
    requires i < PeriodCount(TimeRange(y * 12, y * 12 + 12), view)
    ensures PeriodCount(TimeRange(y * 12, y * 12 + 12), view) == (if view == Quarters then 4 else 12)
    ensures PeriodAt(y * 12, view, i).subLabel == y
    ensures PeriodAt(y * 12, view, i).title ==
            (if view == Quarters then QuarterLabel(i + 1) else MonthLabel(i))
  {
  }

  /** Prev followed by Next, or Next followed by Prev, restores the range. */
  lemma NavigateRoundTrip(range: TimeRange, view: View)
    ensures Navigate(Navigate(range, view, Prev), view, Next) == range
    ensures Navigate(Navigate(range, view, Next), view, Prev) == range
  {
  }

  /** Navigation keeps the number of periods, and after Next the axis is the old
      one advanced by one period: period i now starts where period i + 1 did
      (and the other way round for Prev). */
  lemma NavigateShiftsAxis(range: TimeRange, view: View, i: nat)
    ensures PeriodCount(Navigate(range, view, Next), view) == PeriodCount(range, view)
    ensures PeriodCount(Navigate(range, view, Prev), view) == PeriodCount(range, view)
    ensures PeriodAt(Navigate(range, view, Next).start, view, i).start ==
            PeriodAt(range.start, view, i + 1).start
    ensures PeriodAt(Navigate(range, view, Prev).start, view, i + 1).start ==
            PeriodAt(range.start, view, i).start
  {
  }
}
