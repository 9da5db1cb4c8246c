# Roadmap timeline editor

A Dafny model of the roadmap page of the program-management dashboard
(`src/pages/Roadmap.tsx`): the time axis that divides the visible range into
quarters or months, prev/next navigation of that range, and the page state —
initiatives with their milestones, the visible range, the view, the selected
milestone, the detail-view flag and the dragging flag — together with the event
handlers that change it.

- `timeline.dfy` (module `Timeline`): the period generator as a method with a
  loop, proved against the period-by-period description `PeriodAt` and the count
  `PeriodCount`; navigation as a function of the previous range.
- `milestones.dfy` (module `Milestones`): the entities as datatypes, the seed
  collection, the clock-derived milestone id, and the copy-then-replace update
  of the Add button as a function of the previous collection.
- `roadmap_page.dfy` (module `RoadmapPage`): class `Roadmap` holding the
  component's state fields, one method per handler, and the invariant `Valid()`
  that every handler keeps: the detail view is open exactly while a milestone is
  selected, and the selected milestone is one the collection holds.

Instants are whole months: month `m` (0-based) of year `y` is `y * 12 + m`, and an
instant inside a month stands for the next month boundary. The range start is
always a month boundary (start of year, moved by whole months). The range end
starts as the last moment of the year; moving it by whole months clamps its day
of the month and keeps its time of day (Dec 31 23:59:59.999 goes to Nov 30 and
then to Dec 30), so it is always an instant strictly inside a month and stands
for the next boundary. The cursor is always a month boundary, so comparing it
against the end gives the same answer in the model as in the calendar. Adding months is `+`, the month of
the year is `% 12` and the year is `/ 12`.

The clock (`Date.now()`, `new Date()`) is an input: the constructor takes the
current year, and `AddMilestone` takes the millisecond reading and the two
formatted dates.

The model follows the code as written:
a click is handled the same way while a drag is in progress (`isDragging` is not
consulted), Add always targets initiative 0, a milestone id is `m` followed by the
clock reading (two presses in the same millisecond give the same id, see
`Milestones.NewMilestoneIdInjective`), and drag end, edit and delete change no
data.

## Model

| member | source | states |
|---|---|---|
| Timeline.GeneratePeriods | src/pages/Roadmap.tsx:300-326 | the loop emits exactly `PeriodCount` periods, period i being `PeriodAt(start, view, i)`; empty exactly when start >= end; first starts at the range start; ids 0, 1, ...; each is one step (3 or 1 months) long; neighbours meet with no gap or overlap; every start is before the range end; the last reaches at least the end |
| Timeline.AxisShape | src/pages/Roadmap.tsx:302-322 | any sequence equal period by period to `PeriodAt` over `PeriodCount` periods has those coverage, contiguity, id and label properties |
| Timeline.PeriodCountStops | src/pages/Roadmap.tsx:305-322 | `n` equals the ceiling count iff after `n` rounds the cursor is at or past the end and was before it at the start of round `n` (loop termination point) |
| Timeline.QuarterLabelRange | src/pages/Roadmap.tsx:313-314 | the quarter label is in 1..4, and is `Q<n>` exactly when the start month is in 3(n-1)..3n-1 |
| Timeline.MonthYearOf | src/pages/Roadmap.tsx:314-316 | month boundary k (0..11) of year y has month index k and year y, so month and year labels read back the calendar position |
| Timeline.YearAxis | src/pages/Roadmap.tsx:278-281 | the initial year range yields 4 periods Q1..Q4 (quarters) or 12 months 0..11 (months), each with that year as sub-label |
| Timeline.Navigate | src/pages/Roadmap.tsx:350-356 | both ends move by the same signed offset, so the range length is kept |
| Timeline.Offset | src/pages/Roadmap.tsx:351-354 | the offset is ±3 in the quarters view and ±1 in the months view, negative exactly for prev |
| Timeline.NavigateRoundTrip | src/pages/Roadmap.tsx:350-356 | prev then next, and next then prev, restore the range |
| Timeline.NavigateShiftsAxis | src/pages/Roadmap.tsx:300-326 | navigation keeps the period count; after next, period i starts where period i+1 started (and conversely for prev) |
| Milestones.Seed | src/pages/Roadmap.tsx:80-132 | the seed is one initiative with m1 (completed) and m2 (in progress, depending on m1) |
| Milestones.Decimal | src/pages/Roadmap.tsx:369 | the printed clock reading is a non-empty string of decimal digits, one digit exactly below 10, with no leading zero except for 0 itself |
| Milestones.DecimalRoundTrip | src/pages/Roadmap.tsx:369 | reading the printed digits back, most significant first, gives the clock reading |
| Milestones.DecimalInjective | src/pages/Roadmap.tsx:369 | different numbers print differently |
| Milestones.NewMilestoneId | src/pages/Roadmap.tsx:369 | the id is `m` followed by digits that spell the clock reading |
| Milestones.NewMilestoneIdInjective | src/pages/Roadmap.tsx:369 | two added milestones get the same id exactly when added at the same clock reading |
| Milestones.NewMilestone | src/pages/Roadmap.tsx:368-381 | a new milestone is titled "New Milestone" with description "Add description", not started, 0 progress, owner "Assign Owner", empty tasks/dependencies/comments/resources, the given dates and the clock id |
| Milestones.AppendToFirst | src/pages/Roadmap.tsx:383-387 | fails exactly for an empty collection; otherwise same length, initiative 0 keeps its id and name and gets the new milestone after its old ones, all other initiatives unchanged |
| Milestones.AppendAddsExactlyOne | src/pages/Roadmap.tsx:383-387 | the milestone count grows by one, and a milestone is in the new collection iff it is the new one or was in the old one |
| Milestones.AppendEach | src/pages/Roadmap.tsx:367-392 | repeated presses of Add (button at line 440) fail exactly when made on an empty collection, and otherwise keep the number of initiatives |
| Milestones.AppendEachInOrder | src/pages/Roadmap.tsx:367-392 | N presses of Add append the N milestones to initiative 0 in press order and leave the rest untouched |
| Milestones.SeedThenAdd | src/pages/Roadmap.tsx:80-132 | from the seed, one Add yields m1, m2 and the new milestone in that order |
| RoadmapPage.Roadmap.Valid | src/pages/Roadmap.tsx:283-284 | the page invariant (detail view open exactly while a milestone is selected, the selected milestone is in the collection); under it the rendered panel is exactly the selection |
| RoadmapPage.Roadmap.DetailPanel | src/pages/Roadmap.tsx:483-493 | the panel is rendered exactly when the detail view is open and a milestone is selected, and then shows the selected milestone |
| RoadmapPage.Roadmap.IsSelected | src/pages/Roadmap.tsx:469 | the selected milestone is highlighted, and nothing is highlighted with no selection |
| RoadmapPage.Roadmap.constructor | src/pages/Roadmap.tsx:277-285 | mounts with the seed, the year range, the quarters view, no selection, detail view closed, not dragging |
| RoadmapPage.Roadmap.TimePeriods | src/pages/Roadmap.tsx:300-326 | the rendered axis is the generator's output for the current range and view |
| RoadmapPage.Roadmap.SetView | src/pages/Roadmap.tsx:424-432 | the view buttons set the view and change nothing else |
| RoadmapPage.Roadmap.NavigateTimeline | src/pages/Roadmap.tsx:350-356 | the range becomes `Navigate` of the old range under the current view; view and everything else unchanged |
| RoadmapPage.Roadmap.DragStart | src/pages/Roadmap.tsx:328-330 | sets `isDragging`; initiatives, selection and the rest unchanged |
| RoadmapPage.Roadmap.DragEnd | src/pages/Roadmap.tsx:332-335 | clears `isDragging`; initiatives, selection and the rest unchanged |
| RoadmapPage.Roadmap.MilestoneClick | src/pages/Roadmap.tsx:337-340 | selects the clicked milestone and opens the panel showing it; initiatives and range unchanged; invariant kept |
| RoadmapPage.Roadmap.CloseDetail | src/pages/Roadmap.tsx:486-489 | closes the panel and clears the selection; initiatives and range unchanged |
| RoadmapPage.Roadmap.AddMilestone | src/pages/Roadmap.tsx:367-392 | fails with no change exactly when there is no initiative; otherwise the collection becomes `AppendToFirst` of the old one with the default milestone, which is selected and shown; range, view and drag flag unchanged |

## Left out

- `handleMilestoneEdit`, `handleMilestoneDelete` and `getMilestonePosition` (src/pages/Roadmap.tsx:342-348, 358-365): empty handlers and a constant; no edit, delete, reorder or position semantics are modelled.
- Month names, `yyyy` and `yyyy-MM-dd` formatting and ISO parsing of date-fns: labels are kept as a quarter number or a month index, years as integers, and the milestone dates are passed in already formatted.
- Day-of-month clamping of `addMonths`: not visible in the month abstraction, which is exact for the comparisons the generator makes.
- Timeline.NavigateRoundTrip: Prev then Next restores the month of the range end but not necessarily its day (Dec 31 comes back as Dec 30); the month abstraction does not see the day.
- The clock: `Date.now()` and `new Date()` are parameters.
- The dnd-kit pointer sensor (8-pixel activation distance), sortable transforms and the zoom/pan wrapper: library behaviour; only the two drag callbacks are modelled.
- The tooltip and loading state (src/pages/Roadmap.tsx:286-289): never read or changed.
- JSX rendering and styling, except the detail-panel condition (`Roadmap.DetailPanel`) and the selection highlight (`Roadmap.IsSelected`).
- The rest of the application (dashboard and KPI pages, routing, the authentication session check, the navigation bar): display data and calls into the hosted backend's SDK.
- RoadmapPage.Roadmap.MilestoneClick: requires the clicked milestone to be in the collection, as the page only calls it for rendered milestones (src/pages/Roadmap.tsx:464-468).
