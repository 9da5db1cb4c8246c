/** The state of the roadmap page and the handlers that change it. Each handler
    runs to completion on one user event; rendering reads the fields and derives
    the time axis and the detail panel from them. */
module RoadmapPage {
  import opened Timeline
  import opened Milestones

  class Roadmap {
    var initiatives: seq<Initiative>
    var timeRange: TimeRange
    var currentView: View
    var selectedMilestone: Option<Milestone>
    var showDetailView: bool
    var isDragging: bool

    /** Every handler keeps these: the detail view is open exactly while a
        milestone is selected, and the selected milestone is one the collection
        holds (the only producers of a selection are a click on a rendered
        milestone and the Add button). */
    ghost predicate Valid()
      reads this
      ensures Valid() ==> DetailPanel() == selectedMilestone
    {
      showDetailView == selectedMilestone.Some? &&
      (selectedMilestone.Some? ==> Contains(initiatives, selectedMilestone.value))
    }

    /** What the page renders as the detail panel: the selected milestone, if
        the detail view is open and one is selected. */
    function DetailPanel(): (r: Option<Milestone>)
      reads this
      ensures r.Some? <==> showDetailView && selectedMilestone.Some?
      ensures r.Some? ==> r == selectedMilestone
    {
      if showDetailView && selectedMilestone.Some? then selectedMilestone else None
    }

    /** The highlight of a rendered milestone: its id is the selected one's. */
    predicate IsSelected(m: Milestone)
      reads this
      ensures selectedMilestone == Some(m) ==> IsSelected(m)
      ensures selectedMilestone == None ==> !IsSelected(m)
    {
      selectedMilestone.Some? && selectedMilestone.value.id == m.id
    }

    /** Mounting the page in calendar year `year`: the seed collection, the range
        from the start to the end of that year, the quarters view, nothing
        selected and no drag in progress. */
    constructor (year: int)
      ensures Valid()
      ensures initiatives == Seed()
      ensures timeRange == TimeRange(year * 12, year * 12 + 12)
      ensures currentView == Quarters
      ensures selectedMilestone == None && !showDetailView && !isDragging
      ensures DetailPanel() == None
    {
      initiatives := Seed();
      timeRange := TimeRange(year * 12, year * 12 + 12);
      currentView := Quarters;
      selectedMilestone := None;
      showDetailView := false;
      isDragging := false;
    }

    /** The periods rendered on the axis (recomputed whenever the range or the
        view changes). */
    method TimePeriods() returns (periods: seq<TimePeriod>)
      ensures IsAxis(periods, timeRange, currentView)
      ensures |periods| == PeriodCount(timeRange, currentView)
      ensures periods != [] ==> periods[0].start == timeRange.start
      ensures forall i :: 0 < i < |periods| ==> periods[i].start == periods[i - 1].end
    {
      periods := GeneratePeriods(timeRange, currentView);
    }

    /** The Quarters and Months buttons. */
    method SetView(view: View)
      requires Valid()
      modifies this
      ensures Valid()
      ensures currentView == view
      ensures initiatives == old(initiatives) && timeRange == old(timeRange)
      ensures selectedMilestone == old(selectedMilestone)
      ensures showDetailView == old(showDetailView) && isDragging == old(isDragging)
    {
      currentView := view;
    }

    /** The prev/next arrows: the range moves by one step of the current view. */
    method NavigateTimeline(dir: Direction)
      requires Valid()
      modifies this
      ensures Valid()
      ensures timeRange == Navigate(old(timeRange), currentView, dir)
      ensures currentView == old(currentView) && initiatives == old(initiatives)
      ensures selectedMilestone == old(selectedMilestone)
      ensures showDetailView == old(showDetailView) && isDragging == old(isDragging)
    {
      var months: int := if currentView == Quarters then 3 else 1;
      timeRange := if dir == Prev
        then TimeRange(timeRange.start - months, timeRange.end - months)
        else TimeRange(timeRange.start + months, timeRange.end + months);
    }

    /** `handleDragStart`. */
    method DragStart()
      requires Valid()
      modifies this
      ensures Valid()
      ensures isDragging
      ensures initiatives == old(initiatives) && timeRange == old(timeRange)
      ensures currentView == old(currentView) && selectedMilestone == old(selectedMilestone)
      ensures showDetailView == old(showDetailView)
    {
      isDragging := true;
    }

    /** `handleDragEnd`: the drop is not written back to the collection. */
    method DragEnd()
      requires Valid()
      modifies this
      ensures Valid()
      ensures !isDragging
      ensures initiatives == old(initiatives) && timeRange == old(timeRange)
      ensures currentView == old(currentView) && selectedMilestone == old(selectedMilestone)
      ensures showDetailView == old(showDetailView)
    {
      isDragging := false;
    }

    /** `handleMilestoneClick` on a rendered milestone `m`. A click during a
        drag is handled the same way. */
    method MilestoneClick(m: Milestone)
      requires Valid()
      requires Contains(initiatives, m)
      modifies this
      ensures Valid()
      ensures selectedMilestone == Some(m) && showDetailView
      ensures DetailPanel() == Some(m) && IsSelected(m)
      ensures initiatives == old(initiatives) && timeRange == old(timeRange)
      ensures currentView == old(currentView) && isDragging == old(isDragging)
    {
      selectedMilestone := Some(m);
      showDetailView := true;
    }

    /** The close button of the detail panel. */
    method CloseDetail()
      requires Valid()
      modifies this
      ensures Valid()
      ensures selectedMilestone == None && !showDetailView
      ensures DetailPanel() == None
      ensures initiatives == old(initiatives) && timeRange == old(timeRange)
      ensures currentView == old(currentView) && isDragging == old(isDragging)
    {
      showDetailView := false;
      selectedMilestone := None;
    }

    /** `handleAddMilestone`, given the clock reading and the formatted dates of
        today and of a month from today. With no initiative the handler throws
        (`ok` is false) and nothing changes; otherwise the new milestone is
        appended to initiative 0, selected and shown. */
    method AddMilestone(now: nat, today: string, inAMonth: string) returns (ok: bool)
      requires Valid()
      modifies this
      ensures Valid()
      ensures ok <==> old(initiatives) != []
      ensures ok ==> initiatives == AppendToFirst(old(initiatives), NewMilestone(now, today, inAMonth)).value
      ensures ok ==> selectedMilestone == Some(NewMilestone(now, today, inAMonth)) && showDetailView
      ensures ok ==> DetailPanel() == Some(NewMilestone(now, today, inAMonth))
      ensures !ok ==> initiatives == old(initiatives) && selectedMilestone == old(selectedMilestone)
      ensures !ok ==> showDetailView == old(showDetailView)
      ensures timeRange == old(timeRange) && currentView == old(currentView)
      ensures isDragging == old(isDragging)
    {
      var newMilestone := NewMilestone(now, today, inAMonth);
      if initiatives == [] {
        return false;
      }
      var first := initiatives[0];
      var updated := initiatives[0 := first.(milestones := first.milestones + [newMilestone])];
      ghost var before := initiatives;
      initiatives := updated;
      selectedMilestone := Some(newMilestone);
      showDetailView := true;
      AppendAddsExactlyOne(before, newMilestone, newMilestone);
      ok := true;
    }
  }

  /** An example client, with no contract of its own: what a caller can rely
      on from the handlers' contracts alone: from the mounted page,
      Add selects and shows the new milestone after m1 and m2, and closing the
      panel clears the selection and keeps the collection. */
  method Scenario(year: int, now: nat, today: string, inAMonth: string)
  {
    var page := new Roadmap(year);
    var ok := page.AddMilestone(now, today, inAMonth);
    assert ok;
    var m := NewMilestone(now, today, inAMonth);
    assert page.initiatives[0].milestones == Seed()[0].milestones + [m];
    assert page.DetailPanel() == Some(m) && page.IsSelected(m);
    page.CloseDetail();
    assert page.DetailPanel() == None;
    assert page.initiatives[0].milestones == Seed()[0].milestones + [m];
    page.DragStart();
    page.DragEnd();
    assert !page.isDragging && page.initiatives[0].milestones[2] == m;
  }
}
