/** The recurring-goal tracker: a list of goals, each daily, weekly or
    monthly, marked done per period by storing the period's key in the
    goal's completions.  The list transitions are pure functions; the
    screen that holds the list and writes it to storage is a class. */
module Goals {
  import opened Wrappers
  import opened Seqs
  import opened Text
  import opened Calendar
  import opened PeriodKeys

  /** The storage key the goal list is written under. */
  const StorageKey: string := "goals.v1"

  /** A goal.  `completions` is the set of period keys the goal was marked
      done for (the keys of the source's `Record<string, true>`). */
  datatype Goal = Goal(
    id: string,
    title: string,
    frequency: Frequency,
    createdAt: string,
    completions: set<string>)

  /** The filter chips: every goal, or the goals of one frequency. */
  datatype GoalFilter = All | Only(frequency: Frequency)

  predicate Shown(filter: GoalFilter, g: Goal)
  {
    filter.All? || g.frequency == filter.frequency
  }

  /** Two goals that differ at most in their completions. */
  predicate SameGoal(a: Goal, b: Goal)
  {
    a.id == b.id && a.title == b.title && a.frequency == b.frequency && a.createdAt == b.createdAt
  }

  // ---- Filtering ----

  /** `filteredGoals`: the goals the filter shows, in list order.  "All"
      shows the list itself. */
  function Filtered(goals: seq<Goal>, filter: GoalFilter): (r: seq<Goal>)
    ensures filter.All? ==> r == goals
    ensures forall g :: g in r <==> g in goals && Shown(filter, g)
    ensures IsSubsequence(r, goals)
  {
    var p := (g: Goal) => Shown(filter, g);
    if filter.All? then FilterKeepsAll(goals, p); Filter(goals, p) else Filter(goals, p)
  }

  // ---- Completion ----

  /** The completions with `key` added when it was absent and removed when
      it was present. */
  function Flip(completions: set<string>, key: string): (r: set<string>)
    ensures key in r <==> key !in completions
    ensures forall k :: k != key ==> (k in r <==> k in completions)
  {
    if key in completions then completions - {key} else completions + {key}
  }

  /** One entry of `toggleComplete`'s map over the list. */
  function ToggledGoal(g: Goal, id: string, key: string): Goal
  {
    if g.id != id then g else g.(completions := Flip(g.completions, key))
  }

  /** `toggleComplete`'s new list: every goal with the toggled goal's id has
      the key flipped; everything else stays as it was, in place. */
  function Toggled(goals: seq<Goal>, id: string, key: string): (r: seq<Goal>)
    ensures |r| == |goals|
    ensures forall i :: 0 <= i < |r| ==> SameGoal(r[i], goals[i])
    ensures forall i :: 0 <= i < |r| && goals[i].id != id ==> r[i] == goals[i]
    ensures forall i :: 0 <= i < |r| && goals[i].id == id ==>
      (key in r[i].completions <==> key !in goals[i].completions)
    ensures forall i, k :: 0 <= i < |r| && k != key ==>
      (k in r[i].completions <==> k in goals[i].completions)
  {
    seq(|goals|, i requires 0 <= i < |goals| => ToggledGoal(goals[i], id, key))
  }

  /** `isDoneThisPeriod(g)` on the date `today`: the key of today's period
      for the goal's frequency is among its completions. */
  predicate IsDone(g: Goal, today: CalendarDate)
  {
    PeriodKey(g.frequency, today) in g.completions
  }

  // ---- Removal ----

  /** `removeGoal`'s new list: every goal with the id dropped, the others
      kept in order. */
  function WithoutGoal(goals: seq<Goal>, id: string): (r: seq<Goal>)
    ensures forall g :: g in r <==> g in goals && g.id != id
    ensures IsSubsequence(r, goals)
    ensures (forall g :: g in goals ==> g.id != id) ==> r == goals
  {
    var p := (g: Goal) => g.id != id;
    if forall g :: g in goals ==> g.id != id then
      FilterKeepsAll(goals, p);
      Filter(goals, p)
    else
      Filter(goals, p)
  }

  // ---- Adding ----

  /** `addGoal`'s new list: nothing when the trimmed title is empty (the
      screen alerts instead), otherwise a goal with the trimmed title, the
      chosen frequency and no completions in front of the list. */
  function NewGoalList(goals: seq<Goal>, title: string, frequency: Frequency, id: string, createdAt: string): (r: Option<seq<Goal>>)
    ensures r.None? <==> IsBlank(title)
    ensures r.Some? ==> |r.value| == |goals| + 1 && r.value[1..] == goals
    ensures r.Some? ==> r.value[0].id == id && r.value[0].createdAt == createdAt
    ensures r.Some? ==> r.value[0].frequency == frequency && r.value[0].completions == {}
    ensures r.Some? ==> r.value[0].title == Trim(title) && r.value[0].title != []
    ensures r.Some? ==> r.value[0].title[0] !in JsWhitespace && r.value[0].title[|r.value[0].title| - 1] !in JsWhitespace
  {
    var clean := Trim(title);
    if clean == [] then None else Some([Goal(id, clean, frequency, createdAt, {})] + goals)
  }

  // ---- Properties ----

  /** The filter shows each goal of the chosen frequency as many times as
      the list holds it, and no other goal. */
  lemma FilteredCounts(goals: seq<Goal>, filter: GoalFilter, g: Goal)
    ensures multiset(Filtered(goals, filter))[g] == if Shown(filter, g) then multiset(goals)[g] else 0
  {
    FilterCounts(goals, (h: Goal) => Shown(filter, h), g);
  }

  /** Removal drops every copy of the goals with the id and keeps every copy
      of the others. */
  lemma WithoutGoalCounts(goals: seq<Goal>, id: string, g: Goal)
    ensures multiset(WithoutGoal(goals, id))[g] == if g.id != id then multiset(goals)[g] else 0
  {
    FilterCounts(goals, (h: Goal) => h.id != id, g);
  }

  /** Toggling the same goal twice in one period restores the list. */
  lemma {:induction false} ToggleTwiceRestores(goals: seq<Goal>, id: string, key: string)
    ensures Toggled(Toggled(goals, id, key), id, key) == goals
  {
    var once := Toggled(goals, id, key);
    var twice := Toggled(once, id, key);
    forall i | 0 <= i < |goals|
      ensures twice[i] == goals[i]
    {
      if goals[i].id == id {
        assert twice[i].completions == goals[i].completions;
      }
    }
  }

  /** Toggling a goal id that is not in the list changes nothing. */
  lemma ToggleAbsentId(goals: seq<Goal>, id: string, key: string)
    requires forall g :: g in goals ==> g.id != id
    ensures Toggled(goals, id, key) == goals
  {
    var r := Toggled(goals, id, key);
    forall i | 0 <= i < |goals|
      ensures r[i] == goals[i]
    {
      assert goals[i] in goals;
    }
  }

  /** Toggling a goal on `today` flips whether it is done this period. */
  lemma ToggleFlipsDone(goals: seq<Goal>, goal: Goal, today: CalendarDate, i: int)
    requires 0 <= i < |goals| && goals[i].id == goal.id && goals[i].frequency == goal.frequency
    ensures IsDone(Toggled(goals, goal.id, PeriodKey(goal.frequency, today))[i], today) == !IsDone(goals[i], today)
  {
  }

  /** A goal done on one day of a period is done on every day of that
      period, and whether it is done on a day of another period is left
      alone by toggling it now. */
  lemma DoneForTheWholePeriod(g: Goal, a: CalendarDate, b: CalendarDate)
    requires SamePeriod(g.frequency, a, b)
    ensures IsDone(g, a) == IsDone(g, b)
  {
    PeriodKeyIdentifiesPeriod(g.frequency, a, b);
  }

  /** Toggling a goal on day `a` leaves whether it is done on a day `b` of
      another period unchanged. */
  lemma ToggleKeepsOtherPeriods(goals: seq<Goal>, goal: Goal, a: CalendarDate, b: CalendarDate, i: int)
    requires 0 <= i < |goals| && goals[i].frequency == goal.frequency
    requires !SamePeriod(goal.frequency, a, b)
    ensures IsDone(Toggled(goals, goal.id, PeriodKey(goal.frequency, a))[i], b) == IsDone(goals[i], b)
  {
    PeriodKeyIdentifiesPeriod(goal.frequency, a, b);
  }

  /** Removing twice is removing once. */
  lemma RemoveIdempotent(goals: seq<Goal>, id: string)
    ensures WithoutGoal(WithoutGoal(goals, id), id) == WithoutGoal(goals, id)
  {
  }

  /** A freshly added goal is not done in any period. */
  lemma NewGoalNotDone(goals: seq<Goal>, title: string, frequency: Frequency, id: string, createdAt: string, today: CalendarDate)
    requires !IsBlank(title)
    ensures var r := NewGoalList(goals, title, frequency, id, createdAt);
      r.Some? && !IsDone(r.value[0], today)
  {
  }

  // ---- The screen ----

  /** The goals screen: the list it shows, the value stored under
      `StorageKey`, and the add-goal form. */
  class GoalsScreen {
    var goals: seq<Goal>
    /** What storage holds under `StorageKey`; None when nothing was saved. */
    var stored: Option<seq<Goal>>
    var title: string
    var frequency: Frequency
    var filter: GoalFilter
    var modalOpen: bool

    /** The first render: an empty list, an empty form, every goal shown. */
    constructor(stored: Option<seq<Goal>>)
      ensures goals == [] && this.stored == stored
      ensures title == "" && frequency == Daily && filter == All && !modalOpen
    {
      goals := [];
      this.stored := stored;
      title := "";
      frequency := Daily;
      filter := All;
      modalOpen := false;
    }

    /** The load effect: a stored list replaces the shown one; when nothing
        is stored or reading fails (`readOk` false) the list stays. */
    method Load(readOk: bool)
      modifies this
      ensures goals == if readOk && old(stored).Some? then old(stored).value else old(goals)
      ensures stored == old(stored) && title == old(title) && frequency == old(frequency)
      ensures filter == old(filter) && modalOpen == old(modalOpen)
    {
      if readOk && stored.Some? {
        goals := stored.value;
      }
    }

    /** `saveGoals(next)`: the list is shown at once; the write is caught
        when it fails (`writeOk` false), leaving the stored list as it was. */
    method SaveGoals(next: seq<Goal>, writeOk: bool)
      modifies this
      ensures goals == next
      ensures stored == if writeOk then Some(next) else old(stored)
      ensures title == old(title) && frequency == old(frequency)
      ensures filter == old(filter) && modalOpen == old(modalOpen)
    {
      goals := next;
      if writeOk {
        stored := Some(next);
      }
    }

    /** `addGoal` with the form's title and frequency: a blank title
        changes nothing; otherwise the new goal goes in front, is saved,
        and the form is reset and closed. */
    method AddGoal(id: string, createdAt: string, writeOk: bool)
      modifies this
      ensures IsBlank(old(title)) ==>
        goals == old(goals) && stored == old(stored) && title == old(title)
        && frequency == old(frequency) && modalOpen == old(modalOpen)
      ensures !IsBlank(old(title)) ==>
        goals == [Goal(id, Trim(old(title)), old(frequency), createdAt, {})] + old(goals)
        && stored == (if writeOk then Some(goals) else old(stored))
        && title == "" && frequency == Daily && !modalOpen
      ensures filter == old(filter)
    {
      var next := NewGoalList(goals, title, frequency, id, createdAt);
      if next.Some? {
        SaveGoals(next.value, writeOk);
        title := "";
        frequency := Daily;
        modalOpen := false;
      }
    }

    /** `toggleComplete(goal)` on the date `today`: the key is the one of
        the given goal's frequency. */
    method ToggleComplete(goal: Goal, today: CalendarDate, writeOk: bool)
      modifies this
      ensures goals == Toggled(old(goals), goal.id, PeriodKey(goal.frequency, today))
      ensures stored == if writeOk then Some(goals) else old(stored)
      ensures title == old(title) && frequency == old(frequency)
      ensures filter == old(filter) && modalOpen == old(modalOpen)
    {
      SaveGoals(Toggled(goals, goal.id, PeriodKey(goal.frequency, today)), writeOk);
    }

    /** `removeGoal(goalId)`. */
    method RemoveGoal(goalId: string, writeOk: bool)
      modifies this
      ensures goals == WithoutGoal(old(goals), goalId)
      ensures stored == if writeOk then Some(goals) else old(stored)
      ensures title == old(title) && frequency == old(frequency)
      ensures filter == old(filter) && modalOpen == old(modalOpen)
    {
      SaveGoals(WithoutGoal(goals, goalId), writeOk);
    }

    /** The goals the list shows under the current filter. */
    function FilteredGoals(): (r: seq<Goal>)
      reads this
      ensures forall g :: g in r <==> g in goals && Shown(filter, g)
      ensures IsSubsequence(r, goals)
    {
      Filtered(goals, filter)
    }

    /** `isDoneThisPeriod(g)` on the date `today`. */
    predicate IsDoneThisPeriod(g: Goal, today: CalendarDate)
    {
      IsDone(g, today)
    }
  }
}
