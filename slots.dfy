/** Best-hour selection for one lesson occurrence (find_best_slot).

    The availability collaborator is a parameter: busyAt(p, h) holds when
    participant p is enrolled in some lesson whose time of day is h:00. The
    source asks it once per (day, hour, participant) of a three-day window
    but passes only the slot's time of day, so every day of the window adds
    the same amount to an hour's tally. */
module Slots {
  import opened Calendar

  datatype Option<T> = None | Some(value: T)

  type ProfileId = nat

  type BusyOracle = (ProfileId, int) -> bool

  /** The window: three days from the candidate date, hours range(8, 18). */
  const WINDOW_DAYS: nat := 3
  const FIRST_HOUR: int := 8
  const END_HOUR: int := 18

  /** One (date, hour) slot of the window; the source builds it as a datetime
      at hour:00 of that date. */
  datatype Slot = Slot(date: Day, hour: int)

  /** isProfileBusyInTime: a participant is busy at a slot when one of their
      lessons starts at the slot's time of day; the date plays no part. */
  function IsProfileBusyInTime(busyAt: BusyOracle, p: ProfileId, slot: Slot): bool
  {
    busyAt(p, slot.hour)
  }

  lemma BusyIgnoresDate(busyAt: BusyOracle, p: ProfileId, s: Slot, t: Slot)
    requires s.hour == t.hour
    ensures IsProfileBusyInTime(busyAt, p, s) == IsProfileBusyInTime(busyAt, p, t)
  {
  }

  /** How many of the participants are free at `hour`. */
  function FreeCount(ps: seq<ProfileId>, busyAt: BusyOracle, hour: int): (n: nat)
    ensures n <= |ps|
  {
    if ps == [] then 0
    else FreeCount(ps[..|ps| - 1], busyAt, hour) + (if busyAt(ps[|ps| - 1], hour) then 0 else 1)
  }

  /** Nobody is free at an hour exactly when every participant is busy then. */
  lemma {:induction false} FreeCountZero(ps: seq<ProfileId>, busyAt: BusyOracle, hour: int)
    ensures FreeCount(ps, busyAt, hour) == 0 <==> forall k :: 0 <= k < |ps| ==> busyAt(ps[k], hour)
  {
    if ps != [] {
      var init := ps[..|ps| - 1];
      FreeCountZero(init, busyAt, hour);
      assert forall k :: 0 <= k < |init| ==> init[k] == ps[k];
    }
  }

  /** A prefix has no more free participants than the whole list. */
  lemma {:induction false} FreeCountPrefix(ps: seq<ProfileId>, busyAt: BusyOracle, hour: int, k: nat)
    requires k <= |ps|
    ensures FreeCount(ps[..k], busyAt, hour) <= FreeCount(ps, busyAt, hour)
    decreases |ps|
  {
    if k < |ps| {
      var init := ps[..|ps| - 1];
      assert init[..k] == ps[..k];
      FreeCountPrefix(init, busyAt, hour, k);
    } else {
      assert ps[..k] == ps;
    }
  }

  /** The tally the source accumulates for `hour` over the whole window. */
  function SlotCount(ps: seq<ProfileId>, busyAt: BusyOracle, hour: int): nat
  {
    WINDOW_DAYS * FreeCount(ps, busyAt, hour)
  }

  /** No participant is free at any hour of the window. */
  predicate NoFreeHour(ps: seq<ProfileId>, busyAt: BusyOracle)
  {
    forall h :: FIRST_HOUR <= h < END_HOUR ==> FreeCount(ps, busyAt, h) == 0
  }

  /** `hour` is in the window, has a positive tally that no other hour beats,
      and every earlier hour has a strictly smaller tally. */
  predicate IsBestHour(ps: seq<ProfileId>, busyAt: BusyOracle, hour: int)
  {
    && FIRST_HOUR <= hour < END_HOUR
    && SlotCount(ps, busyAt, hour) > 0
    && (forall h :: FIRST_HOUR <= h < END_HOUR ==> SlotCount(ps, busyAt, h) <= SlotCount(ps, busyAt, hour))
    && (forall h :: FIRST_HOUR <= h < hour ==> SlotCount(ps, busyAt, h) < SlotCount(ps, busyAt, hour))
  }

  /** IsBestHour determines the hour. */
  lemma BestHourUnique(ps: seq<ProfileId>, busyAt: BusyOracle, h1: int, h2: int)
    requires IsBestHour(ps, busyAt, h1) && IsBestHour(ps, busyAt, h2)
    ensures h1 == h2
  {
  }

  /** Scans hours from `hour` up, keeping the first hour with the largest tally. */
  function ArgMaxFrom(ps: seq<ProfileId>, busyAt: BusyOracle, hour: int, best: int): int
    decreases END_HOUR - hour
  {
    if hour >= END_HOUR then best
    else
      var next := if SlotCount(ps, busyAt, hour) > SlotCount(ps, busyAt, best) then hour else best;
      ArgMaxFrom(ps, busyAt, hour + 1, next)
  }

  lemma {:induction false} ArgMaxFromIsFirstMax(ps: seq<ProfileId>, busyAt: BusyOracle, hour: int, best: int)
    requires FIRST_HOUR <= best < hour <= END_HOUR
    requires forall h :: FIRST_HOUR <= h < hour ==> SlotCount(ps, busyAt, h) <= SlotCount(ps, busyAt, best)
    requires forall h :: FIRST_HOUR <= h < best ==> SlotCount(ps, busyAt, h) < SlotCount(ps, busyAt, best)
    ensures var r := ArgMaxFrom(ps, busyAt, hour, best);
      && FIRST_HOUR <= r < END_HOUR
      && (forall h :: FIRST_HOUR <= h < END_HOUR ==> SlotCount(ps, busyAt, h) <= SlotCount(ps, busyAt, r))
      && (forall h :: FIRST_HOUR <= h < r ==> SlotCount(ps, busyAt, h) < SlotCount(ps, busyAt, r))
    decreases END_HOUR - hour
  {
    if hour < END_HOUR {
      var next := if SlotCount(ps, busyAt, hour) > SlotCount(ps, busyAt, best) then hour else best;
      ArgMaxFromIsFirstMax(ps, busyAt, hour + 1, next);
    }
  }

  /** The hour find_best_slot returns, or None where it raises (max() of an
      empty tally): the first hour of the window with the largest tally, when
      some participant is free at some hour. */
  function BestHour(ps: seq<ProfileId>, busyAt: BusyOracle): (r: Option<int>)
    ensures r.Some? ==> IsBestHour(ps, busyAt, r.value)
    ensures r.None? <==> NoFreeHour(ps, busyAt)
  {
    ArgMaxFromIsFirstMax(ps, busyAt, FIRST_HOUR + 1, FIRST_HOUR);
    var h := ArgMaxFrom(ps, busyAt, FIRST_HOUR + 1, FIRST_HOUR);
    if SlotCount(ps, busyAt, h) == 0 then
      forall h' | FIRST_HOUR <= h' < END_HOUR ensures FreeCount(ps, busyAt, h') == 0 {
        assert SlotCount(ps, busyAt, h') == 0;
      }
      None
    else
      assert FreeCount(ps, busyAt, h) > 0;
      Some(h)
  }

  function Get(m: map<int, nat>, key: int): nat
  {
    if key in m then m[key] else 0
  }

  predicate Ascending(s: seq<int>)
  {
    forall i, j :: 0 <= i < j < |s| ==> s[i] < s[j]
  }

  /** The shape of the tally dictionary: its keys are hours of the window,
      each entry is positive, and `keyOrder` lists the keys in insertion
      order, which is ascending. */
  ghost predicate WellFormedTally(slotsCount: map<int, nat>, keyOrder: seq<int>)
  {
    && (forall h :: h in slotsCount ==> FIRST_HOUR <= h < END_HOUR && slotsCount[h] > 0)
    && Ascending(keyOrder)
    && (forall h :: h in keyOrder <==> h in slotsCount)
  }

  /** The innermost loop of find_best_slot: every participant free at the
      slot adds one to the slot hour's entry of the defaultdict, creating the
      entry (at the end of the insertion order) on its first increment. */
  method TallyHour(slotsCount: map<int, nat>, keyOrder: seq<int>, participants: seq<ProfileId>,
                   busyAt: BusyOracle, slot: Slot)
    returns (counts: map<int, nat>, order: seq<int>)
    requires WellFormedTally(slotsCount, keyOrder)
    requires FIRST_HOUR <= slot.hour < END_HOUR
    requires slot.hour !in slotsCount && FreeCount(participants, busyAt, slot.hour) > 0 ==>
               forall h :: h in slotsCount ==> h < slot.hour
    ensures WellFormedTally(counts, order)
    ensures forall h :: h != slot.hour ==> Get(counts, h) == Get(slotsCount, h)
    ensures Get(counts, slot.hour) == Get(slotsCount, slot.hour) + FreeCount(participants, busyAt, slot.hour)
  {
    var hour := slot.hour;
    counts, order := slotsCount, keyOrder;
    for k := 0 to |participants|
      invariant WellFormedTally(counts, order)
      invariant forall h :: h != hour ==> Get(counts, h) == Get(slotsCount, h)
      invariant Get(counts, hour) == Get(slotsCount, hour) + FreeCount(participants[..k], busyAt, hour)
      invariant hour in counts ==> hour in slotsCount || FreeCount(participants[..k], busyAt, hour) > 0
    {
      assert participants[..k + 1][..k] == participants[..k];
      if !IsProfileBusyInTime(busyAt, participants[k], slot) {
        if hour in counts {
          counts := counts[hour := counts[hour] + 1];
        } else {
          FreeCountPrefix(participants, busyAt, hour, k + 1);
          assert hour !in slotsCount;
          forall m | 0 <= m < |order| ensures order[m] < hour {
            assert order[m] in order;
            assert Get(counts, order[m]) == Get(slotsCount, order[m]);
          }
          counts := counts[hour := 1];
          order := order + [hour];
        }
      }
    }
    assert participants[..|participants|] == participants;
  }

  /** The counting loops of find_best_slot: for each of the three days, each
      hour 8..17 and each participant, a free participant adds one to the
      hour's entry of a defaultdict. An entry exists only once it is
      incremented, and `keyOrder` is the dictionary's insertion order. */
  method CountFreeSlots(eventDate: Day, participants: seq<ProfileId>, busyAt: BusyOracle)
    returns (slotsCount: map<int, nat>, keyOrder: seq<int>)
    ensures forall h :: h in slotsCount <==> FIRST_HOUR <= h < END_HOUR && FreeCount(participants, busyAt, h) > 0
    ensures forall h :: h in slotsCount ==> slotsCount[h] == WINDOW_DAYS * FreeCount(participants, busyAt, h)
    ensures Ascending(keyOrder)
    ensures forall h :: h in keyOrder <==> h in slotsCount
  {
    slotsCount, keyOrder := map[], [];
    for i := 0 to WINDOW_DAYS
      invariant WellFormedTally(slotsCount, keyOrder)
      invariant forall h :: FIRST_HOUR <= h < END_HOUR ==>
                  Get(slotsCount, h) == i * FreeCount(participants, busyAt, h)
      invariant i == 0 ==> slotsCount == map[]
    {
      var currentDate := eventDate + i;
      for hour := FIRST_HOUR to END_HOUR
        invariant WellFormedTally(slotsCount, keyOrder)
        invariant forall h :: FIRST_HOUR <= h < hour ==>
                    Get(slotsCount, h) == (i + 1) * FreeCount(participants, busyAt, h)
        invariant forall h :: hour <= h < END_HOUR ==>
                    Get(slotsCount, h) == i * FreeCount(participants, busyAt, h)
        invariant i == 0 ==> forall h :: h in slotsCount ==> h < hour
      {
        var free := FreeCount(participants, busyAt, hour);
        assert i > 0 && free > 0 ==> i * free > 0;
        ghost var before := slotsCount;
        slotsCount, keyOrder := TallyHour(slotsCount, keyOrder, participants, busyAt, Slot(currentDate, hour));
        forall h | h in slotsCount && h != hour ensures h in before {
          assert Get(slotsCount, h) == Get(before, h);
        }
        assert (i + 1) * free == i * free + free;
      }
    }
  }

  /** find_best_slot: the hour of the window at which the most participants
      are free, summed over the three days; on a tie the earliest hour, which
      is the first maximal key of the tally in insertion order. None stands
      for the ValueError of max() on an empty tally, which happens exactly
      when nobody is free at any hour, in particular with no participants. */
  method FindBestSlot(eventDate: Day, participants: seq<ProfileId>, busyAt: BusyOracle)
    returns (best: Option<int>)
    ensures best.Some? ==> IsBestHour(participants, busyAt, best.value)
    ensures best.None? <==> NoFreeHour(participants, busyAt)
    ensures participants == [] ==> best.None?
    ensures best == BestHour(participants, busyAt)
  {
    var slotsCount, keyOrder := CountFreeSlots(eventDate, participants, busyAt);
    if |keyOrder| == 0 {
      forall h | FIRST_HOUR <= h < END_HOUR
        ensures FreeCount(participants, busyAt, h) == 0
      {
        assert h !in keyOrder;
      }
      return None;
    }
    forall m | 0 <= m < |keyOrder| ensures keyOrder[m] in slotsCount {
      assert keyOrder[m] in keyOrder;
    }
    var bestIndex := 0;
    for j := 1 to |keyOrder|
      invariant 0 <= bestIndex < j
      invariant forall m :: 0 <= m < j ==> slotsCount[keyOrder[m]] <= slotsCount[keyOrder[bestIndex]]
      invariant forall m :: 0 <= m < bestIndex ==> slotsCount[keyOrder[m]] < slotsCount[keyOrder[bestIndex]]
    {
      assert keyOrder[j] in keyOrder;
      if slotsCount[keyOrder[j]] > slotsCount[keyOrder[bestIndex]] {
        bestIndex := j;
      }
    }
    var hour := keyOrder[bestIndex];
    assert hour in keyOrder;
    forall h | FIRST_HOUR <= h < END_HOUR
      ensures SlotCount(participants, busyAt, h) <= SlotCount(participants, busyAt, hour)
      ensures h < hour ==> SlotCount(participants, busyAt, h) < SlotCount(participants, busyAt, hour)
    {
      if h in slotsCount {
        assert h in keyOrder;
        var m :| 0 <= m < |keyOrder| && keyOrder[m] == h;
        assert h < hour ==> m < bestIndex;
      }
    }
    assert IsBestHour(participants, busyAt, hour);
    best := Some(hour);
    BestHourUnique(participants, busyAt, hour, BestHour(participants, busyAt).value);
  }

  /** Two participants, one free only at 9 and one free only at 14: both hours
      tie at three, and the earlier hour wins. */
  lemma TieGoesToEarliestHour()
    ensures BestHour([1, 2], (p: ProfileId, h: int) => !((p == 1 && h == 9) || (p == 2 && h == 14))) == Some(9)
  {
    var busyAt := (p: ProfileId, h: int) => !((p == 1 && h == 9) || (p == 2 && h == 14));
    var ps: seq<ProfileId> := [1, 2];
    forall h ensures FreeCount(ps, busyAt, h) == (if h == 9 || h == 14 then 1 else 0) {
      assert ps[..1] == [1];
      assert ps[..1][..0] == [];
    }
    assert IsBestHour(ps, busyAt, 9);
    BestHourUnique(ps, busyAt, 9, BestHour(ps, busyAt).value);
  }
}
