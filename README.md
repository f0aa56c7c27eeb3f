# Lesson event generator

This project models the scheduling core of the campus app's `core` package.
When participants are added to a `Lesson`, a signal handler creates one
`Event` per teaching week of a fifteen-week semester. For each event, a
search over the lesson's participants picks the hour at which the most of
them are free. The project models:

- **calendar.dfy** (`Calendar`): dates as proleptic Gregorian day numbers.
  They follow Python's `date.toordinal()`, so `date.weekday()` is
  `(d + 6) % 7`. It also holds the `MON`..`SUN` weekday mapping,
  `is_weekend` and `calculate_semester_start_date`.
- **slots.dfy** (`Slots`): `isProfileBusyInTime` as an abstract
  availability oracle, and `find_best_slot`. The method keeps the source's
  loops, the `defaultdict` tally and its insertion order, and `max` by
  count. It is proved against a specification function `BestHour`: the
  earliest hour of 8..17 with the most free participant slots, or `None`
  where Python's `max` raises on an empty tally.
- **events.dfy** (`LessonEvents`): the event table as a class whose rows
  are appended by `Event.objects.create` and updated by
  `participants.add`. It also holds `create_events` as a method over that
  class, proved against `RunWeeks`. `RunWeeks` is a specification function
  giving the events created, the dates passed to the holiday service, and
  the week at which `find_best_slot` raised, if it did.

Three points about the code shape the model:

- `calculate_semester_start_date` computes the first Monday on or after
  1 September, but `create_events` never calls it. Every run is anchored
  at 20 January of the current year (models.py:183). The model anchors at
  20 January too (`SemesterRun`). `CalculateSemesterStartDate` is
  modelled and proved on its own.
- `create_events` stores the bare candidate date as `start_time`
  (models.py:217). The chosen hour appears only in the description
  (models.py:209, :216). The model records that hour as the event's
  `describedHour`.
- `is_weekend` tests for Sunday only, although its comment also names
  Saturday. Saturdays are not skipped by the weekend test; only the
  holiday service can skip them.

Consequences of the code that the model proves:

- Candidate dates are `anchor + 7·week + (weekday number − 1)`.
- Because the anchor is fixed, a lesson's candidates are all Sundays or
  none is. In 2024, 20 January is a Saturday, so Wednesday lessons get no
  events at all.
- The best hour does not depend on the date. So `find_best_slot` either
  never raises or raises at the first week that is not skipped, before any
  event exists.

## Model

| member | source | states |
|---|---|---|
| Calendar.WeekdayNumberRoundTrip | core/models.py:187-196 | the weekday mapping sends MON..SUN to 0..6 and is a bijection: it and its inverse undo each other |
| Calendar.WeekendIsSundayOnly | core/models.py:176-177 | a date is a weekend exactly when it is a Sunday; a Saturday is never a weekend |
| Calendar.DayOfWeekShift | core/models.py:149 | adding k days to a date moves its weekday by k modulo 7 |
| Calendar.DayOfWeekWeeks | core/models.py:201 | adding whole weeks keeps the weekday |
| Calendar.OrdinalConsecutive | core/models.py:148 | the day numbering of calendar dates has no gaps: the next day within a month, across a month end and across a year end is the next number |
| Calendar.CalculateSemesterStartDate | core/models.py:145-153 | the result is a Monday, lies within the six days from 1 September, and no earlier day of that span is a Monday: it is the first Monday on or after 1 September |
| Slots.BusyIgnoresDate | core/models.py:137-142 | busyness of a participant depends only on the slot's time of day, not on its date |
| Slots.FreeCount | core/models.py:168-170 | the number of free participants at an hour never exceeds the number of participants |
| Slots.FreeCountZero | core/models.py:168-170 | no participant is free at an hour exactly when every participant is busy then |
| Slots.FreeCountPrefix | core/models.py:168-170 | counting over a prefix of the participants never gives more than counting over all of them |
| Slots.BestHourUnique | core/models.py:172 | at most one hour is the best hour (the first hour reaching the maximal count) |
| Slots.ArgMaxFromIsFirstMax | core/models.py:172 | scanning hours upward and replacing the leader only on a strictly larger count ends at the first hour with the maximal count |
| Slots.BestHour | core/models.py:160-174 | when defined, the result is an hour of 8..17 with a positive count, no hour has more, and every earlier hour has fewer; it is undefined exactly when nobody is free at any hour (the empty tally on which max raises) |
| Slots.TallyHour | core/models.py:168-170 | one pass over the participants at one hour adds the number of free participants to that hour's count, leaves every other hour alone, inserts the hour on its first increment only, and keeps the tally's keys ascending in insertion order |
| Slots.CountFreeSlots | core/models.py:161-170 | after the three-day, ten-hour, per-participant loops, the tally's keys are exactly the hours of 8..17 where someone is free, in ascending insertion order, each counting three times its free participants |
| Slots.FindBestSlot | core/models.py:160-174 | returns the best hour (most free slots, lowest hour on a tie) and fails exactly when nobody is free at any hour, in particular for a lesson without participants; the result equals BestHour |
| Slots.TieGoesToEarliestHour | core/models.py:172 | with one participant free only at 9 and another free only at 14, the tie is won by 9 |
| LessonEvents.EventStore.Create | core/models.py:212-218 | appends one row with the given owner, name, location and start date, no participants and the default type LESSON, and returns its position |
| LessonEvents.EventStore.AddParticipants | core/models.py:219 | adds the given participants to one row and changes nothing else |
| LessonEvents.AddLessonEvent | core/models.py:212-219 | creating the row and attaching the participants together append exactly the lesson's event to the table |
| LessonEvents.CandidateDates | core/models.py:199-201 | candidates of consecutive weeks are seven days apart, and each falls on the anchor's weekday shifted by the weekday number minus one |
| LessonEvents.SundayEveryWeekOrNever | core/models.py:199-205 | the Sunday test gives the same answer in every week of a run |
| LessonEvents.FailureEndsRun | core/models.py:208 | once find_best_slot has raised, later weeks change nothing |
| LessonEvents.EventsCopyLesson | core/models.py:204-219 | every created event carries the lesson's teacher, name, location and whole participant set, the type LESSON, the best hour as its described hour, and a date that is neither a Sunday nor a holiday |
| LessonEvents.NoBestHourNoEvents | core/models.py:208 | when no hour has a free participant, no event is ever created |
| LessonEvents.EventsOnCandidateDates | core/models.py:199-217 | every created event starts on the candidate date of one of the weeks walked, so there are at most as many events as weeks |
| LessonEvents.EventsInWeekOrder | core/models.py:199-217 | start dates of the created events strictly increase, so no two events share a week |
| LessonEvents.EventCountIsTeachingWeeks | core/models.py:199-219 | when the run does not fail, it creates exactly one event per week that is not skipped |
| LessonEvents.EventsExactlyOnTeachingWeeks | core/models.py:199-219 | when the run does not fail, a week has an event on its candidate date exactly when that date is neither a Sunday nor a holiday |
| LessonEvents.HolidayQueriesSkipSundays | core/models.py:204 | the holiday service is asked only about candidate dates, never about a Sunday; without a failure, it is asked about every candidate that is not a Sunday |
| Calendar.WeekdayNumber | core/models.py:187-196 | the number of a weekday code lies in 0..6 |
| Calendar.IsWeekend | core/models.py:176-177 | defines the weekend test: the date's weekday number is 6 |
| Slots.IsProfileBusyInTime | core/models.py:137-142 | defines busyness at a slot as the availability lookup of the participant at the slot's hour only |
| LessonEvents.CandidateDate | core/models.py:201 | defines week w's date as anchor + 7·w + (weekday number − 1) days |
| LessonEvents.RunWeeks | core/models.py:199-219 | defines the first n weeks of the loop: a Sunday candidate is skipped without a query, a holiday is skipped after its query, otherwise the query is recorded and either the run fails for good (no best hour) or the lesson's event is appended |
| LessonEvents.SemesterRun | core/models.py:183-184 | defines the semester as fifteen weeks of RunWeeks anchored at 20 January of the year |
| LessonEvents.HolidayQueriesInWeekOrder | core/models.py:199-204 | the holiday service is asked about each date at most once, in strictly increasing date order |
| LessonEvents.FailureAtFirstTeachingWeek | core/models.py:204-208 | the run fails exactly when nobody is free at any hour and some week is not skipped; it then fails at the first such week, with no event created |
| LessonEvents.SundayAnchorCreatesNothing | core/models.py:199-205 | if the first candidate is a Sunday, the run creates nothing and never asks the holiday service |
| LessonEvents.CreateEvents | core/models.py:180-219 | any action other than post_add changes nothing; post_add appends to the table exactly the events of the fifteen-week run anchored at 20 January of the year, and asks the holiday service and stops at a failure exactly as that run does |
| LessonEvents.WednesdayLessonsOf2024 | core/models.py:183-205 | in 2024 every candidate of a Wednesday lesson is a Sunday, so it gets no events and no holiday queries |
| LessonEvents.WednesdayLessonsOf2025AllFree | core/models.py:183-219 | a Wednesday lesson in 2025 with two always-free participants and no holidays gets fifteen events, all on Tuesdays and all described at 8 o'clock |

## Left out

- `is_holiday` calls a web service. It is an oracle `Day -> bool` that always answers. Network errors, a non-JSON reply and the service's answer codes other than 1 are not modelled. The model records which dates were asked about.
- `isProfileBusyInTime` queries the database for a lesson of the participant at the slot's time of day. It is an oracle `(participant, hour) -> bool`. The model keeps the fact that the query ignores the date.
- The current year comes from the clock (`timezone.now()` and `datetime.now()`). It is a parameter.
- The signal wiring (`@receiver`, the `sender` argument) is not modelled. `create_events` is a method that receives the action. The `pre_*` and `post_*` actions other than `post_add` are a closed enumeration.
- A weekday value outside MON..SUN, for which the mapping lookup returns nothing and the date arithmetic raises, is not modelled. The weekday is a closed enumeration, as the field's choices make it.
- The event's description text, and the call that replaces the hour on the lesson's time, are not modelled. Only the chosen hour is kept, as `describedHour`. The time-of-day part of `start_time` (midnight) is implied by the date.
- Event ids are positions in the table. The database's primary keys, the other models' fields, the user manager, views, serializers and URLs are not part of this model.
- Years outside 1..9999, which Python's datetime rejects, are excluded by precondition.
