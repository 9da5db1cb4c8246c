/** The roadmap's data: initiatives, each owning an ordered list of milestones,
    the seed collection the page starts from, and the copy-then-replace update
    that the "Add Milestone" button performs. */
module Milestones {

  datatype Option<T> = None | Some(value: T)

  datatype Status = NotStarted | InProgress | Completed | AtRisk | Delayed

  datatype Task = Task(id: string, title: string, completed: bool)

  datatype Comment = Comment(id: string, author: string, text: string, timestamp: string)

  datatype Resource = Resource(id: string, name: string, role: string)

  /** Dates are the `yyyy-MM-dd` (or ISO 8601) strings the page stores. */
  datatype Milestone = Milestone(
    id: string,
    title: string,
    description: string,
    startDate: string,
    endDate: string,
    status: Status,
    owner: string,
    progress: int,
    tasks: seq<Task>,
    dependencies: seq<string>,
    comments: seq<Comment>,
    resources: seq<Resource>)

  datatype Initiative = Initiative(id: string, name: string, milestones: seq<Milestone>)

  /** The collection the page is mounted with: one initiative, "Product
      Development", holding m1 (completed) and m2 (in progress, depending on m1). */
  function Seed(): (r: seq<Initiative>)
    ensures |r| == 1 && |r[0].milestones| == 2
    ensures r[0].milestones[0].id == "m1" && r[0].milestones[0].status == Completed
    ensures r[0].milestones[1].id == "m2" && r[0].milestones[1].status == InProgress
    ensures r[0].milestones[1].dependencies == [r[0].milestones[0].id]
  {
    [Initiative("1", "Product Development", [
      Milestone("m1", "Requirements Gathering", "Collect and analyze project requirements",
        "2025-01-15", "2025-02-28", Completed, "John Doe", 100,
        [Task("t1", "Stakeholder interviews", true), Task("t2", "Document requirements", true)],
        [],
        [Comment("c1", "John Doe", "All requirements have been documented", "2025-02-28T10:00:00Z")],
        [Resource("r1", "John Doe", "Product Manager")]),
      Milestone("m2", "Design Phase", "Create detailed design specifications",
        "2025-03-01", "2025-04-15", InProgress, "Jane Smith", 60,
        [Task("t3", "UI/UX Design", true), Task("t4", "Technical Architecture", false)],
        ["m1"],
        [],
        [Resource("r2", "Jane Smith", "Lead Designer")])
    ])]
  }

  function DigitChar(d: int): (c: char)
    requires 0 <= d < 10
    ensures '0' <= c <= '9' && c as int - '0' as int == d
  {
    ('0' as int + d) as char
  }

  /** The decimal digits of `n`, most significant first and without leading
      zeros, as a JavaScript template literal prints a non-negative integer. */
  function Decimal(n: nat): (s: string)
    ensures |s| >= 1 && (|s| == 1 <==> n < 10)
    ensures forall k :: 0 <= k < |s| ==> '0' <= s[k] <= '9'
    ensures s[0] == '0' ==> n == 0
  {
    if n < 10 then [DigitChar(n)] else Decimal(n / 10) + [DigitChar(n % 10)]
  }

  /** The number a string of decimal digits spells, most significant first. */
  function DecimalValue(s: string): int
  {
    if s == [] then 0 else DecimalValue(s[..|s| - 1]) * 10 + (s[|s| - 1] as int - '0' as int)
  }

  /** Reading the printed digits back gives the number. */
  lemma {:induction false} DecimalRoundTrip(n: nat)
    ensures DecimalValue(Decimal(n)) == n
  {
    if n >= 10 {
      var s := Decimal(n);
      assert s[..|s| - 1] == Decimal(n / 10);
      DecimalRoundTrip(n / 10);
    }
  }

  /** Different numbers print differently. */
  lemma DecimalInjective(a: nat, b: nat)
    ensures Decimal(a) == Decimal(b) ==> a == b
  {
    DecimalRoundTrip(a);
    DecimalRoundTrip(b);
  }

  /** `m${Date.now()}`: the id is `m` followed by the clock reading `now`
      (milliseconds since the epoch), which the rest of the id spells. */
  function NewMilestoneId(now: nat): (id: string)
    ensures |id| >= 2 && id[0] == 'm'
    ensures DecimalValue(id[1..]) == now
  {
    DecimalRoundTrip(now);
    assert ("m" + Decimal(now))[1..] == Decimal(now);
    "m" + Decimal(now)
  }

  /** Milestones added at different milliseconds get different ids. */
  lemma NewMilestoneIdInjective(now1: nat, now2: nat)
    ensures NewMilestoneId(now1) == NewMilestoneId(now2) <==> now1 == now2
  {
  }

  /** The defaults every added milestone starts with. */
  predicate IsFreshDefault(m: Milestone)
  {
    m.title == "New Milestone" && m.description == "Add description" &&
    m.status == NotStarted && m.owner == "Assign Owner" && m.progress == 0 &&
    m.tasks == [] && m.dependencies == [] && m.comments == [] && m.resources == []
  }

  /** The milestone the Add button creates, given the clock reading and the
      formatted dates of today and of one month from today: the defaults, those
      dates, and an id taken from the clock. */
  function NewMilestone(now: nat, today: string, inAMonth: string): (m: Milestone)
    ensures IsFreshDefault(m)
    ensures m.id == NewMilestoneId(now)
    ensures m.startDate == today && m.endDate == inAMonth
  {
    Milestone(NewMilestoneId(now), "New Milestone", "Add description", today, inAMonth,
      NotStarted, "Assign Owner", 0, [], [], [], [])
  }

  /** The copy-then-replace step of `handleAddMilestone`: `m` goes to the end of
      initiative 0's list. With no initiative there is no initiative 0 and the
      handler throws before changing any state: `None`. */
  function AppendToFirst(inits: seq<Initiative>, m: Milestone): (r: Option<seq<Initiative>>)
    ensures r.None? <==> inits == []
    ensures r.Some? ==> |r.value| == |inits|
    ensures r.Some? ==> r.value[0].id == inits[0].id && r.value[0].name == inits[0].name
    ensures r.Some? ==> r.value[0].milestones == inits[0].milestones + [m]
    ensures r.Some? ==> forall i :: 1 <= i < |inits| ==> r.value[i] == inits[i]
  {
    if inits == [] then None
    else Some(inits[0 := inits[0].(milestones := inits[0].milestones + [m])])
  }

  /** `m` is one of the milestones of the collection. */
  predicate Contains(inits: seq<Initiative>, m: Milestone)
  {
    exists i :: 0 <= i < |inits| && m in inits[i].milestones
  }

  function MilestoneCount(inits: seq<Initiative>): nat
  {
    if inits == [] then 0 else |inits[0].milestones| + MilestoneCount(inits[1..])
  }

  /** Adding grows the collection by exactly one milestone, the new one: every
      milestone that was there stays, and nothing else appears. */
  lemma AppendAddsExactlyOne(inits: seq<Initiative>, m: Milestone, x: Milestone)
    requires inits != []
    ensures MilestoneCount(AppendToFirst(inits, m).value) == MilestoneCount(inits) + 1
    ensures Contains(AppendToFirst(inits, m).value, x) <==> x == m || Contains(inits, x)
  {
  }

  /** Pressing Add once per milestone of `ms`, in order. */
  /** It fails (the first press throws) exactly when presses are made on an
      empty collection, and otherwise keeps the number of initiatives. */
  function AppendEach(inits: seq<Initiative>, ms: seq<Milestone>): (r: Option<seq<Initiative>>)
    ensures r.None? <==> inits == [] && ms != []
    ensures r.Some? ==> |r.value| == |inits|
    decreases |ms|
  {
    if ms == [] then Some(inits)
    else match AppendToFirst(inits, ms[0])
      case None => None
      case Some(next) => AppendEach(next, ms[1..])
  }

  /** N presses append N milestones to initiative 0 in press order; the
      milestones already there and every other initiative are untouched. */
  lemma {:induction false} AppendEachInOrder(inits: seq<Initiative>, ms: seq<Milestone>)
    requires inits != []
    ensures AppendEach(inits, ms).Some?
    ensures var r := AppendEach(inits, ms).value;
            |r| == |inits| && r[0] == inits[0].(milestones := inits[0].milestones + ms) &&
            r[1..] == inits[1..]
    decreases |ms|
  {
    if ms != [] {
      var next := AppendToFirst(inits, ms[0]).value;
      AppendEachInOrder(next, ms[1..]);
      assert inits[0].milestones + [ms[0]] + ms[1..] == inits[0].milestones + ms;
      assert next[1..] == inits[1..];
    }
  }

  /** Mounting with the seed collection and pressing Add once: initiative
      "Product Development" then holds m1, m2 and the new milestone, in that
      order. */
  lemma SeedThenAdd(now: nat, today: string, inAMonth: string)
    ensures var r := AppendToFirst(Seed(), NewMilestone(now, today, inAMonth));
            r.Some? && |r.value| == 1 &&
            r.value[0].milestones == Seed()[0].milestones + [NewMilestone(now, today, inAMonth)]
  {
  }
}
