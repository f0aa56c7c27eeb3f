/** Semester event generation for a lesson (create_events).

    When participants are added to a lesson, one Event is created for each of
    the fifteen semester weeks whose candidate date is neither a Sunday nor a
    holiday. The holiday service and the availability lookup are parameters;
    the year is an input (the source reads it from the clock). */
module LessonEvents {
  import opened Calendar
  import opened Slots

  const SEMESTER_WEEKS: nat := 15

  /** The actions of a many-to-many change signal; only post_add generates. */
  datatype M2MAction = PreAdd | PostAdd | PreRemove | PostRemove | PreClear | PostClear

  datatype EventType = LESSON | CLUB | CUSTOM | OFFICE

  /** The fields of a Lesson that the generator reads. */
  datatype Lesson = Lesson(
    name: string,
    teacher: ProfileId,
    location: string,
    weekday: Weekday,
    participants: seq<ProfileId>)

  /** An Event row. Its start time is a date at midnight; `describedHour` is
      the hour chosen by find_best_slot, which the source writes only into
      the event's description text. */
  datatype Event = Event(
    owner: ProfileId,
    name: string,
    location: string,
    startTime: Day,
    participants: set<ProfileId>,
    kind: EventType,
    describedHour: int)

  /** The Event table, which create_events appends to. */
  class EventStore {
    var events: seq<Event>

    constructor ()
      ensures events == []
    {
      events := [];
    }

    /** Event.objects.create: a new row with no participants and the default
        type LESSON; `id` is its position. */
    method Create(owner: ProfileId, name: string, location: string, startTime: Day, describedHour: int)
      returns (id: nat)
      modifies this
      ensures id == |old(events)|
      ensures events == old(events) + [Event(owner, name, location, startTime, {}, LESSON, describedHour)]
    {
      id := |events|;
      events := events + [Event(owner, name, location, startTime, {}, LESSON, describedHour)];
    }

    /** event.participants.add(...): adds to the participant set of one row. */
    method AddParticipants(id: nat, ps: set<ProfileId>)
      requires id < |events|
      modifies this
      ensures events == old(events)[id := old(events)[id].(participants := old(events)[id].participants + ps)]
    {
      events := events[id := events[id].(participants := events[id].participants + ps)];
    }
  }

  /** The date of week `week`: start + week weeks + (weekday number - 1) days.
      The "- 1" places MON lessons on the day before the anchor's weekday. */
  function CandidateDate(start: Day, weekday: Weekday, week: nat): Day
  {
    start + 7 * week + (WeekdayNumber(weekday) - 1)
  }

  /** Candidates of consecutive weeks are seven days apart, and every
      candidate falls on the anchor's weekday shifted by the weekday number
      minus one. */
  lemma CandidateDates(start: Day, weekday: Weekday, week: nat)
    ensures CandidateDate(start, weekday, week + 1) == CandidateDate(start, weekday, week) + 7
    ensures DayOfWeek(CandidateDate(start, weekday, week)) == (DayOfWeek(start) + WeekdayNumber(weekday) + 6) % 7
  {
    DayOfWeekShift(start, 7 * week + WeekdayNumber(weekday) - 1);
    assert (DayOfWeek(start) + 7 * week + WeekdayNumber(weekday) - 1) % 7
        == (DayOfWeek(start) + WeekdayNumber(weekday) + 6) % 7;
  }

  /** The anchor is fixed, so the Sunday test gives the same answer in every
      week: either every candidate is a Sunday or none is. */
  lemma SundayEveryWeekOrNever(start: Day, weekday: Weekday, week: nat)
    ensures IsWeekend(CandidateDate(start, weekday, week)) == IsWeekend(CandidateDate(start, weekday, 0))
  {
    DayOfWeekWeeks(CandidateDate(start, weekday, 0), week);
  }

  /** The inputs of one run of create_events: the lesson, the anchor date,
      the holiday service and the availability lookup. */
  datatype Generation = Generation(lesson: Lesson, start: Day, isHoliday: Day -> bool, busyAt: BusyOracle)

  function Candidate(g: Generation, week: nat): Day
  {
    CandidateDate(g.start, g.lesson.weekday, week)
  }

  /** A week produces no event when its candidate is a Sunday or a holiday. */
  predicate Skipped(g: Generation, week: nat)
  {
    IsWeekend(Candidate(g, week)) || g.isHoliday(Candidate(g, week))
  }

  /** The number of weeks among the first n that are not skipped. */
  function TeachingWeeks(g: Generation, n: nat): nat
  {
    if n == 0 then 0
    else TeachingWeeks(g, n - 1) + (if Skipped(g, n - 1) then 0 else 1)
  }

  /** The Event create_events writes for a lesson on `date`, once its
      participants are attached. */
  function LessonEvent(l: Lesson, date: Day, hour: int): Event
  {
    Event(l.teacher, "Lesson for " + l.name, l.location, date, (set p | p in l.participants), LESSON, hour)
  }

  /** What a run of the week loop has done so far: the events it created, the
      dates it asked the holiday service about, and the week at which
      find_best_slot raised, if it did (which ends the run). */
  datatype Run = Run(created: seq<Event>, holidayQueries: seq<Day>, failedAt: Option<nat>)

  /** The first n weeks of the loop of create_events. */
  function RunWeeks(g: Generation, n: nat): Run
  {
    if n == 0 then Run([], [], None)
    else
      var prev := RunWeeks(g, n - 1);
      var eventDate := Candidate(g, n - 1);
      if prev.failedAt.Some? || IsWeekend(eventDate) then prev
      else if g.isHoliday(eventDate) then prev.(holidayQueries := prev.holidayQueries + [eventDate])
      else match BestHour(g.lesson.participants, g.busyAt)
        case None =>
          prev.(holidayQueries := prev.holidayQueries + [eventDate], failedAt := Some(n - 1))
        case Some(hour) =>
          prev.(created := prev.created + [LessonEvent(g.lesson, eventDate, hour)],
                holidayQueries := prev.holidayQueries + [eventDate])
  }

  function StartTimes(es: seq<Event>): (ds: seq<Day>)
    ensures |ds| == |es| && forall i :: 0 <= i < |es| ==> ds[i] == es[i].startTime
  {
    seq(|es|, i requires 0 <= i < |es| => es[i].startTime)
  }

  /** Once find_best_slot has raised, later weeks change nothing. */
  lemma {:induction false} FailureEndsRun(g: Generation, n: nat, m: nat)
    requires n <= m
    requires RunWeeks(g, n).failedAt.Some?
    ensures RunWeeks(g, m) == RunWeeks(g, n)
    decreases m
  {
    if n < m {
      FailureEndsRun(g, n, m - 1);
    }
  }

  /** An event row as create_events writes it for the lesson of `g`: the
      lesson's teacher, name, location and whole participant set, the default
      type, the chosen hour only as its described hour, and a start date that
      is neither a Sunday nor a holiday. */
  predicate IsLessonEvent(g: Generation, e: Event)
  {
    && e.owner == g.lesson.teacher
    && e.name == "Lesson for " + g.lesson.name
    && e.location == g.lesson.location
    && e.participants == (set p | p in g.lesson.participants)
    && e.kind == LESSON
    && BestHour(g.lesson.participants, g.busyAt) == Some(e.describedHour)
    && !IsWeekend(e.startTime)
    && !g.isHoliday(e.startTime)
  }

  /** Every created event is such a row. */
  lemma {:induction false} EventsCopyLesson(g: Generation, n: nat)
    ensures forall i :: 0 <= i < |RunWeeks(g, n).created| ==> IsLessonEvent(g, RunWeeks(g, n).created[i])
  {
    if n > 0 {
      EventsCopyLesson(g, n - 1);
      var prev := RunWeeks(g, n - 1);
      var eventDate := Candidate(g, n - 1);
      var es := RunWeeks(g, n).created;
      if prev.failedAt.None? && !IsWeekend(eventDate) && !g.isHoliday(eventDate)
         && BestHour(g.lesson.participants, g.busyAt).Some?
      {
        var e := LessonEvent(g.lesson, eventDate, BestHour(g.lesson.participants, g.busyAt).value);
        assert es == prev.created + [e];
        assert IsLessonEvent(g, e);
        forall i | 0 <= i < |es| ensures IsLessonEvent(g, es[i]) {
          if i < |prev.created| {
            assert es[i] == prev.created[i];
          }
        }
      }
    }
  }

  /** Without a best hour no event is ever created. */
  lemma {:induction false} NoBestHourNoEvents(g: Generation, n: nat)
    requires BestHour(g.lesson.participants, g.busyAt).None?
    ensures RunWeeks(g, n).created == []
  {
    if n > 0 {
      NoBestHourNoEvents(g, n - 1);
    }
  }

  /** Every event of `es` starts on the candidate date of a week before n. */
  ghost predicate OnCandidateDates(g: Generation, es: seq<Event>, n: nat)
  {
    forall i :: 0 <= i < |es| ==> exists w :: 0 <= w < n && es[i].startTime == Candidate(g, w)
  }

  /** Start times strictly increase. */
  predicate StartTimesIncrease(es: seq<Event>)
  {
    forall i, j :: 0 <= i < j < |es| ==> es[i].startTime < es[j].startTime
  }

  /** Each event starts on the candidate date of some week before n, so there
      are at most n of them. */
  lemma {:induction false} EventsOnCandidateDates(g: Generation, n: nat)
    ensures |RunWeeks(g, n).created| <= n
    ensures OnCandidateDates(g, RunWeeks(g, n).created, n)
  {
    if n > 0 {
      EventsOnCandidateDates(g, n - 1);
      var prev := RunWeeks(g, n - 1).created;
      var es := RunWeeks(g, n).created;
      assert es == prev || es == prev + [es[|es| - 1]];
      assert es != prev ==> es[|es| - 1].startTime == Candidate(g, n - 1);
      forall i | 0 <= i < |es| ensures exists w :: 0 <= w < n && es[i].startTime == Candidate(g, w) {
        if i < |prev| {
          assert es[i] == prev[i];
          var w :| 0 <= w < n - 1 && prev[i].startTime == Candidate(g, w);
        } else {
          assert es[i].startTime == Candidate(g, n - 1);
        }
      }
    }
  }

  /** Events are created in week order: start times strictly increase. With
      EventsOnCandidateDates, no two events share a week. */
  lemma {:induction false} EventsInWeekOrder(g: Generation, n: nat)
    ensures StartTimesIncrease(RunWeeks(g, n).created)
  {
    if n > 0 {
      EventsInWeekOrder(g, n - 1);
      EventsOnCandidateDates(g, n - 1);
      var prev := RunWeeks(g, n - 1).created;
      var es := RunWeeks(g, n).created;
      var last := Candidate(g, n - 1);
      if es != prev {
        assert es == prev + [es[|es| - 1]] && es[|es| - 1].startTime == last;
        forall i | 0 <= i < |prev| ensures prev[i].startTime < last {
          var w :| 0 <= w < n - 1 && prev[i].startTime == Candidate(g, w);
        }
        forall i, j | 0 <= i < j < |es| ensures es[i].startTime < es[j].startTime {
          assert es[i] == prev[i];
          if j < |prev| {
            assert es[j] == prev[j];
          }
        }
      }
    }
  }

  /** When the run does not fail, it creates one event per week that is not
      skipped. */
  lemma {:induction false} EventCountIsTeachingWeeks(g: Generation, n: nat)
    requires RunWeeks(g, n).failedAt.None?
    ensures |RunWeeks(g, n).created| == TeachingWeeks(g, n)
  {
    if n > 0 {
      assert RunWeeks(g, n - 1).failedAt.None?;
      EventCountIsTeachingWeeks(g, n - 1);
    }
  }

  /** When the run does not fail, week w < n has an event on its candidate
      date exactly when it is not skipped. */
  lemma {:induction false} EventsExactlyOnTeachingWeeks(g: Generation, n: nat)
    requires RunWeeks(g, n).failedAt.None?
    ensures forall w :: 0 <= w < n ==>
              (Candidate(g, w) in StartTimes(RunWeeks(g, n).created) <==> !Skipped(g, w))
  {
    if n > 0 {
      var prevRun := RunWeeks(g, n - 1);
      assert prevRun.failedAt.None?;
      EventsExactlyOnTeachingWeeks(g, n - 1);
      EventsOnCandidateDates(g, n - 1);
      var prev := prevRun.created;
      var es := RunWeeks(g, n).created;
      var last := Candidate(g, n - 1);
      forall i | 0 <= i < |prev| ensures prev[i].startTime < last {
        var w :| 0 <= w < n - 1 && prev[i].startTime == Candidate(g, w);
      }
      assert last !in StartTimes(prev);
      if es != prev {
        assert StartTimes(es) == StartTimes(prev) + [last];
      }
    }
  }

  /** The holiday service is asked only about candidate dates that are not
      Sundays (the weekend test short-circuits), and, when the run does not
      fail, about every such date of the first n weeks. */
  lemma {:induction false} HolidayQueriesSkipSundays(g: Generation, n: nat)
    ensures forall i :: 0 <= i < |RunWeeks(g, n).holidayQueries| ==>
              && !IsWeekend(RunWeeks(g, n).holidayQueries[i])
              && exists w :: 0 <= w < n && RunWeeks(g, n).holidayQueries[i] == Candidate(g, w)
    ensures RunWeeks(g, n).failedAt.None? ==>
              forall w :: 0 <= w < n ==>
                (Candidate(g, w) in RunWeeks(g, n).holidayQueries <==> !IsWeekend(Candidate(g, w)))
  {
    if n > 0 {
      HolidayQueriesSkipSundays(g, n - 1);
      var prev := RunWeeks(g, n - 1).holidayQueries;
      var qs := RunWeeks(g, n).holidayQueries;
      var last := Candidate(g, n - 1);
      forall i | 0 <= i < |prev| ensures prev[i] < last {
        var w :| 0 <= w < n - 1 && prev[i] == Candidate(g, w);
      }
      assert last !in prev;
      if qs != prev {
        assert qs == prev + [last];
        forall i | 0 <= i < |qs|
          ensures !IsWeekend(qs[i]) && exists w :: 0 <= w < n && qs[i] == Candidate(g, w)
        {
          if i < |prev| {
            assert qs[i] == prev[i];
            var w :| 0 <= w < n - 1 && prev[i] == Candidate(g, w);
          } else {
            assert qs[i] == Candidate(g, n - 1);
          }
        }
      }
    }
  }

  /** The holiday service is asked about each date at most once, in week
      order: the queried dates strictly increase. */
  lemma {:induction false} HolidayQueriesInWeekOrder(g: Generation, n: nat)
    ensures forall i, j :: 0 <= i < j < |RunWeeks(g, n).holidayQueries| ==>
              RunWeeks(g, n).holidayQueries[i] < RunWeeks(g, n).holidayQueries[j]
  {
    if n > 0 {
      HolidayQueriesInWeekOrder(g, n - 1);
      HolidayQueriesSkipSundays(g, n - 1);
      var prev := RunWeeks(g, n - 1).holidayQueries;
      var qs := RunWeeks(g, n).holidayQueries;
      var last := Candidate(g, n - 1);
      if qs != prev {
        assert qs == prev + [last];
        forall i | 0 <= i < |prev| ensures prev[i] < last {
          var w :| 0 <= w < n - 1 && prev[i] == Candidate(g, w);
        }
        forall i, j | 0 <= i < j < |qs| ensures qs[i] < qs[j] {
          assert qs[i] == prev[i];
          if j < |prev| {
            assert qs[j] == prev[j];
          }
        }
      }
    }
  }

  /** find_best_slot raises during the run exactly when nobody is free at any
      hour and some week reaches it; it then raises at the first week that
      is not skipped, before any event was created. */
  lemma {:induction false} FailureAtFirstTeachingWeek(g: Generation, n: nat)
    ensures RunWeeks(g, n).failedAt.Some? <==>
              NoFreeHour(g.lesson.participants, g.busyAt) && exists w :: 0 <= w < n && !Skipped(g, w)
    ensures RunWeeks(g, n).failedAt.Some? ==>
              && RunWeeks(g, n).created == []
              && RunWeeks(g, n).failedAt.value < n
              && !Skipped(g, RunWeeks(g, n).failedAt.value)
              && forall w :: 0 <= w < RunWeeks(g, n).failedAt.value ==> Skipped(g, w)
  {
    if n > 0 {
      FailureAtFirstTeachingWeek(g, n - 1);
      var prev := RunWeeks(g, n - 1);
      if prev.failedAt.None? {
        if Skipped(g, n - 1) {
          if exists w :: 0 <= w < n && !Skipped(g, w) {
            var w :| 0 <= w < n && !Skipped(g, w);
            assert w < n - 1;
          }
        } else {
          assert !Skipped(g, n - 1);
          if BestHour(g.lesson.participants, g.busyAt).None? {
            NoBestHourNoEvents(g, n - 1);
          }
        }
      }
    }
  }

  /** If the first candidate is a Sunday, every candidate is, and the run
      creates nothing and never asks the holiday service. */
  lemma {:induction false} SundayAnchorCreatesNothing(g: Generation, n: nat)
    requires IsWeekend(Candidate(g, 0))
    ensures RunWeeks(g, n) == Run([], [], None)
  {
    if n > 0 {
      SundayAnchorCreatesNothing(g, n - 1);
      SundayEveryWeekOrNever(g.start, g.lesson.weekday, n - 1);
    }
  }

  /** The semester that create_events generates: fifteen weeks anchored at
      20 January of the given year. */
  function SemesterRun(l: Lesson, year: int, isHoliday: Day -> bool, busyAt: BusyOracle): Run
    requires MIN_YEAR <= year <= MAX_YEAR
  {
    RunWeeks(Generation(l, TwentiethOfJanuary(year), isHoliday, busyAt), SEMESTER_WEEKS)
  }

  /** One more week of the run, when it has not failed yet, by branch. */
  lemma RunWeeksStep(g: Generation, n: nat)
    requires RunWeeks(g, n).failedAt.None?
    ensures IsWeekend(Candidate(g, n)) ==> RunWeeks(g, n + 1) == RunWeeks(g, n)
    ensures !IsWeekend(Candidate(g, n)) && g.isHoliday(Candidate(g, n)) ==>
              RunWeeks(g, n + 1) == RunWeeks(g, n).(holidayQueries := RunWeeks(g, n).holidayQueries + [Candidate(g, n)])
    ensures !IsWeekend(Candidate(g, n)) && !g.isHoliday(Candidate(g, n)) ==>
              RunWeeks(g, n + 1).holidayQueries == RunWeeks(g, n).holidayQueries + [Candidate(g, n)]
    ensures !IsWeekend(Candidate(g, n)) && !g.isHoliday(Candidate(g, n)) && NoFreeHour(g.lesson.participants, g.busyAt) ==>
              RunWeeks(g, n + 1).failedAt == Some(n)
    ensures !IsWeekend(Candidate(g, n)) && !g.isHoliday(Candidate(g, n)) && !NoFreeHour(g.lesson.participants, g.busyAt) ==>
              && RunWeeks(g, n + 1).failedAt == None
              && RunWeeks(g, n + 1).created ==
                 RunWeeks(g, n).created + [LessonEvent(g.lesson, Candidate(g, n), BestHour(g.lesson.participants, g.busyAt).value)]
  {
  }

  /** The body of one teaching week: Event.objects.create followed by
      participants.add, which together append exactly the lesson's event. */
  method AddLessonEvent(store: EventStore, l: Lesson, date: Day, hour: int)
    modifies store
    ensures store.events == old(store.events) + [LessonEvent(l, date, hour)]
  {
    var id := store.Create(l.teacher, "Lesson for " + l.name, l.location, date, hour);
    store.AddParticipants(id, set p | p in l.participants);
    assert store.events[id] == LessonEvent(l, date, hour);
  }

  /** create_events, the handler of the lesson's participant-change signal.
      On post_add it walks the fifteen weeks: a Sunday candidate is skipped
      without asking the holiday service, a holiday is skipped, otherwise the
      best hour is chosen and an event is created on the candidate date and
      given all of the lesson's participants. If find_best_slot raises, the
      run stops there, before any event was created
      (FailureAtFirstTeachingWeek). Returns the
      dates the holiday service was asked about and the failing week. */
  method CreateEvents(store: EventStore, action: M2MAction, l: Lesson, year: int,
                      isHoliday: Day -> bool, busyAt: BusyOracle)
    returns (holidayQueries: seq<Day>, failedAt: Option<nat>)
    requires MIN_YEAR <= year <= MAX_YEAR
    modifies store
    ensures action != PostAdd ==> store.events == old(store.events) && holidayQueries == [] && failedAt == None
    ensures action == PostAdd ==>
      && store.events == old(store.events) + SemesterRun(l, year, isHoliday, busyAt).created
      && holidayQueries == SemesterRun(l, year, isHoliday, busyAt).holidayQueries
      && failedAt == SemesterRun(l, year, isHoliday, busyAt).failedAt
  {
    holidayQueries, failedAt := [], None;
    if action != PostAdd {
      return;
    }
    var semesterStart := TwentiethOfJanuary(year);
    var weekdayNumber := WeekdayNumber(l.weekday);
    ghost var g := Generation(l, semesterStart, isHoliday, busyAt);
    for week := 0 to SEMESTER_WEEKS
      invariant store.events == old(store.events) + RunWeeks(g, week).created
      invariant holidayQueries == RunWeeks(g, week).holidayQueries
      invariant RunWeeks(g, week).failedAt.None?
    {
      var eventDate := semesterStart + 7 * week + (weekdayNumber - 1);
      assert eventDate == Candidate(g, week);
      RunWeeksStep(g, week);
      if IsWeekend(eventDate) {
        continue;
      }
      holidayQueries := holidayQueries + [eventDate];
      if isHoliday(eventDate) {
        continue;
      }
      var bestSlot := FindBestSlot(eventDate, l.participants, busyAt);
      if bestSlot.None? {
        failedAt := Some(week);
        FailureEndsRun(g, week + 1, SEMESTER_WEEKS);
        return;
      }
      AddLessonEvent(store, l, eventDate, bestSlot.value);
    }
  }

  /** 20 January 2024 is a Saturday, so every Wednesday lesson of that year
      lands on a Sunday: the 2024 semester has no Wednesday events at all. */
  lemma WednesdayLessonsOf2024(l: Lesson, isHoliday: Day -> bool, busyAt: BusyOracle)
    requires l.weekday == WED
    ensures SemesterRun(l, 2024, isHoliday, busyAt) == Run([], [], None)
  {
    var g := Generation(l, TwentiethOfJanuary(2024), isHoliday, busyAt);
    assert DayOfWeek(g.start) == 5;
    DayOfWeekShift(g.start, 1);
    SundayAnchorCreatesNothing(g, SEMESTER_WEEKS);
  }

  lemma {:induction false} NoSkippedWeeks(g: Generation, n: nat)
    requires forall w :: 0 <= w < n ==> !Skipped(g, w)
    ensures TeachingWeeks(g, n) == n
  {
    if n > 0 {
      NoSkippedWeeks(g, n - 1);
    }
  }

  /** A Wednesday lesson in 2025 (20 January is a Monday, so its dates are
      Tuesdays), no holidays, two participants free at every hour: fifteen
      events, each described at 8 o'clock, the first hour of the tie. */
  lemma WednesdayLessonsOf2025AllFree(l: Lesson)
    requires l.weekday == WED && l.participants == [1, 2]
    ensures SemesterRun(l, 2025, (d: Day) => false, (p: ProfileId, h: int) => false).failedAt == None
    ensures |SemesterRun(l, 2025, (d: Day) => false, (p: ProfileId, h: int) => false).created| == SEMESTER_WEEKS
    ensures forall e :: e in SemesterRun(l, 2025, (d: Day) => false, (p: ProfileId, h: int) => false).created ==>
              e.describedHour == 8 && DayName(e.startTime) == TUE
  {
    var g := Generation(l, TwentiethOfJanuary(2025), (d: Day) => false, (p: ProfileId, h: int) => false);
    assert DayOfWeek(g.start) == 0;
    forall h ensures FreeCount(l.participants, g.busyAt, h) == 2 {
      assert l.participants[..1] == [1];
      assert l.participants[..1][..0] == [];
    }
    assert IsBestHour(l.participants, g.busyAt, 8);
    BestHourUnique(l.participants, g.busyAt, 8, BestHour(l.participants, g.busyAt).value);
    forall w | 0 <= w < SEMESTER_WEEKS
      ensures !Skipped(g, w) && DayOfWeek(Candidate(g, w)) == 1
    {
      CandidateDates(g.start, l.weekday, w);
    }
    FailureAtFirstTeachingWeek(g, SEMESTER_WEEKS);
    EventCountIsTeachingWeeks(g, SEMESTER_WEEKS);
    NoSkippedWeeks(g, SEMESTER_WEEKS);
    EventsCopyLesson(g, SEMESTER_WEEKS);
    EventsOnCandidateDates(g, SEMESTER_WEEKS);
    var es := RunWeeks(g, SEMESTER_WEEKS).created;
    forall e | e in es ensures e.describedHour == 8 && DayName(e.startTime) == TUE {
      var i :| 0 <= i < |es| && es[i] == e;
      var w :| 0 <= w < SEMESTER_WEEKS && es[i].startTime == Candidate(g, w);
    }
  }
}
