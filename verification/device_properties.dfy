/**
 * What the timeline updates of `Devices` guarantee, and the places where
 * the C++ does not keep the timeline sorted or free of overlaps.
 */
module DeviceProperties {
  import opened MachineInts
  import opened Devices

  // ---------------------------------------------------------------------
  // deleteOutdatedEvents
  // ---------------------------------------------------------------------

  /** Purging twice with the same time changes nothing the second time. */
  lemma {:induction false} PurgeIdempotent(ev: seq<Event>, now: U64)
    ensures Purged(Purged(ev, now), now) == Purged(ev, now)
  {
    var r := Purged(ev, now);
    OutdatedCountUnique(r, now, 0);
  }

  /** Purging up to `t1` and then up to a later `t2` is purging up to `t2`. */
  lemma {:induction false} PurgeCompose(ev: seq<Event>, t1: U64, t2: U64)
    requires t1 <= t2
    ensures Purged(Purged(ev, t1), t2) == Purged(ev, t2)
    decreases |ev|
  {
    if ev == [] || ev[0].start >= t1 {
      PurgedStops(ev, t1);
    } else {
      PurgedSteps(ev, t1);
      PurgedSteps(ev, t2);
      PurgeCompose(ev[1..], t1, t2);
    }
  }

  /** A purge stops at an empty timeline or at an event that is not outdated. */
  lemma PurgedStops(ev: seq<Event>, now: U64)
    requires ev == [] || ev[0].start >= now
    ensures Purged(ev, now) == ev
  {
  }

  /** An outdated front event is dropped and the purge goes on with the rest. */
  lemma PurgedSteps(ev: seq<Event>, now: U64)
    requires ev != [] && ev[0].start < now
    ensures Purged(ev, now) == Purged(ev[1..], now)
  {
    assert ev[1..][OutdatedCount(ev[1..], now)..] == ev[1 + OutdatedCount(ev[1..], now)..];
  }


  // ---------------------------------------------------------------------
  // scheduleEvent: the empty and single-event timelines
  // ---------------------------------------------------------------------

  /** On an empty (fully purged) timeline the reservation becomes the only event. */
  lemma EmptyTimelineGetsLoneEvent(startTime: U64, execTime: U64)
    ensures Place([], startTime, execTime) == Slot(startTime, 0)
    ensures Scheduled([], startTime, execTime) == [Event(startTime, Add64(startTime, execTime))]
  {
  }

  /**
   * With one event that starts before `start + exec`, the requested start is
   * kept and the reservation goes in front of that event, whether or not
   * the two overlap.
   */
  lemma LoneEventGoesInFront(ev: seq<Event>, startTime: U64, execTime: U64)
    requires |ev| == 1 && ev[0].start < Add64(startTime, execTime)
    ensures Place(ev, startTime, execTime) == Slot(startTime, 0)
    ensures Scheduled(ev, startTime, execTime) == [Event(startTime, Add64(startTime, execTime)), ev[0]]
  {
  }

  /** A new device asked for 5 ticks at time 0 ends up with `[(0,5), (0,0)]` and answers 5. */
  lemma FreshDeviceExample()
    ensures Scheduled([Event(0, 0)], 0, 5) == [Event(0, 5), Event(0, 0)]
    ensures Add64(Place([Event(0, 0)], 0, 5).start, 5) == 5
  {
  }

  /**
   * A new device asked for 0 ticks at time 0 takes the branch that reads
   * past the end of the vector: the request is outside `ScheduleEvent`'s
   * precondition although a caller can make it.
   */
  lemma FreshDeviceZeroRequestUndefined()
    ensures !LoneEventDefined([Event(0, 0)], 0, 0)
  {
  }

  /** A lone event that starts after the requested window is still overlapped by the reservation placed in front of it. */
  lemma LoneEventOverlapExample()
    ensures Scheduled([Event(10, 20)], 0, 15) == [Event(0, 15), Event(10, 20)]
  {
  }

  // ---------------------------------------------------------------------
  // scheduleEvent: two or more events
  // ---------------------------------------------------------------------

  /**
   * With two or more events the reservation is appended at the end of the
   * vector, gap or no gap.
   */
  lemma TwoOrMoreAppends(ev: seq<Event>, startTime: U64, execTime: U64)
    requires |ev| >= 2
    ensures Place(ev, startTime, execTime).index == |ev|
    ensures Scheduled(ev, startTime, execTime) == ev + [Reservation(Place(ev, startTime, execTime), execTime)]
  {
  }

  /**
   * What the gap test at index `i` accepts. When event `i + 1` does not
   * start before event `i` ends, a passing test means more than `execTime`
   * free ticks between them. When it starts earlier, the distance wraps, and
   * the test passes as soon as event `i` ends before the requested start and
   * the overlap is less than 2^64 - `execTime`.
   */
  lemma GapTestMeaning(ev: seq<Event>, i: nat, startTime: U64, execTime: U64)
    requires i + 1 < |ev|
    ensures IsGap(ev, i, startTime, execTime) && ev[i].end <= ev[i + 1].start ==>
              ev[i].end + execTime < ev[i + 1].start
    ensures ev[i].end <= ev[i + 1].start ==>
              (IsGap(ev, i, startTime, execTime) <==> ev[i].end < startTime && ev[i + 1].start - ev[i].end > execTime)
    ensures ev[i + 1].start < ev[i].end ==>
              (IsGap(ev, i, startTime, execTime) <==>
                 ev[i].end < startTime && ev[i].end - ev[i + 1].start < U64_MODULUS - execTime)
  {
  }

  /**
   * First fit: when `i` is the first index whose gap test passes, the
   * reservation starts right after event `i`, no later than the requested
   * start; when the next event does not start before event `i` ends, the
   * reservation also ends no later than that next event starts.
   */
  lemma GapIsFirstFit(ev: seq<Event>, startTime: U64, execTime: U64, i: nat)
    requires |ev| >= 2
    requires IsGap(ev, i, startTime, execTime)
    requires forall k :: 0 <= k < i ==> !IsGap(ev, k, startTime, execTime)
    ensures Place(ev, startTime, execTime) == Slot(ev[i].end + 1, |ev|)
    ensures ev[i].end + 1 <= startTime
    ensures ev[i + 1].start >= ev[i].end ==>
              Reservation(Place(ev, startTime, execTime), execTime).end == ev[i].end + 1 + execTime <= ev[i + 1].start
  {
    PlaceAtGap(ev, startTime, execTime, i);
  }

  /**
   * The timeline `[(0,0), (10,20), (50,60)]` asked for 15 ticks at time 0:
   * no event ends before time 0, so no gap qualifies and the reservation
   * `(61, 76)` is appended after the last event.
   */
  lemma GapNotUsedForEarlyRequest()
    ensures Scheduled([Event(0, 0), Event(10, 20), Event(50, 60)], 0, 15)
         == [Event(0, 0), Event(10, 20), Event(50, 60), Event(61, 76)]
  {
    var ev := [Event(0, 0), Event(10, 20), Event(50, 60)];
    PlaceAfterLast(ev, 0, 15);
  }

  /** Every event starts no earlier than the one before it. */
  predicate SortedByStart(ev: seq<Event>) {
    forall j :: 0 < j < |ev| ==> ev[j - 1].start <= ev[j].start
  }

  /**
   * The same timeline asked for 15 ticks at time 30: the gap after `(10,20)`
   * qualifies, so the reservation is `(21, 36)`; it is appended at the end,
   * behind `(50, 60)`, so a timeline sorted by start stops being sorted.
   */
  lemma GapUsedForLateRequest()
    ensures SortedByStart([Event(0, 0), Event(10, 20), Event(50, 60)])
    ensures Scheduled([Event(0, 0), Event(10, 20), Event(50, 60)], 30, 15)
         == [Event(0, 0), Event(10, 20), Event(50, 60), Event(21, 36)]
    ensures var r := Scheduled([Event(0, 0), Event(10, 20), Event(50, 60)], 30, 15);
            r[2].start > r[3].start && !SortedByStart(r)
  {
    var ev := [Event(0, 0), Event(10, 20), Event(50, 60)];
    assert !IsGap(ev, 0, 30, 15);
    GapIsFirstFit(ev, 30, 15, 1);
  }

  /**
   * Whenever the first-fit scan finds a gap that starts before the last
   * event does, the appended reservation leaves the timeline unsorted by
   * start, however it was ordered before.
   */
  lemma UsedGapBreaksOrder(ev: seq<Event>, startTime: U64, execTime: U64, i: nat)
    requires |ev| >= 2
    requires FirstGap(ev, startTime, execTime) == Some(i)
    requires Add64(ev[i].end, 1) < ev[|ev| - 1].start
    ensures !SortedByStart(Scheduled(ev, startTime, execTime))
  {
    var r := Scheduled(ev, startTime, execTime);
    TwoOrMoreAppends(ev, startTime, execTime);
    assert r[|ev| - 1] == ev[|ev| - 1] && r[|ev|].start == Add64(ev[i].end, 1);
  }

  /**
   * The single-event branch also breaks the order: a lone event that starts
   * before the requested start is pushed behind the reservation placed at
   * the front.
   */
  lemma LoneEventBreaksOrder(ev: seq<Event>, startTime: U64, execTime: U64)
    requires |ev| == 1 && ev[0].start < startTime
    requires LoneEventDefined(ev, startTime, execTime)
    ensures !SortedByStart(Scheduled(ev, startTime, execTime))
  {
    LoneEventGoesInFront(ev, startTime, execTime);
  }

  /**
   * After the fresh-device example the vector is `[(0,5), (0,0)]`: the
   * second event starts before the first one ends. The gap test at index 0
   * computes `0 - 5` in `uint64_t`, which wraps to 2^64 - 5, so it passes
   * and the reservation starts after the first event's end, at `(6, 9)`.
   * Had the distance not wrapped, the test would fail and the reservation
   * would start after the last event's end, at `(1, 4)`, inside `(0, 5)`.
   */
  lemma WrappedGapExample()
    ensures var ev := [Event(0, 5), Event(0, 0)];
            ev[1].start < ev[0].end && Sub64(ev[1].start, ev[0].end) == U64_MODULUS - 5 &&
            IsGap(ev, 0, 10, 3) && NextFree(ev) == 1 &&
            Scheduled(ev, 10, 3) == [Event(0, 5), Event(0, 0), Event(6, 9)]
  {
    GapIsFirstFit([Event(0, 5), Event(0, 0)], 10, 3, 0);
  }
  /**
   * A wrapped distance alone does not open the gap: the current event must
   * also end before the requested start. On `[(0,5), (0,0)]` asked for one
   * tick at 3, event 0 ends at 5, so the test fails and the reservation
   * starts after the last event's end, at `(1, 2)`.
   */
  lemma WrappedDistanceNeedsEarlyEnd()
    ensures var ev := [Event(0, 5), Event(0, 0)];
            Sub64(ev[1].start, ev[0].end) == U64_MODULUS - 5 && !IsGap(ev, 0, 3, 1) &&
            Scheduled(ev, 3, 1) == [Event(0, 5), Event(0, 0), Event(1, 2)]
  {
    var ev := [Event(0, 5), Event(0, 0)];
    PlaceAfterLast(ev, 3, 1);
  }


  // ---------------------------------------------------------------------
  // scheduleEvent(start_time, exec_time, dlist)
  // ---------------------------------------------------------------------

  /** Unless the end wraps past 2^64, a joint reservation ends no earlier than the requested start + duration. */
  lemma JointFinishNotEarlier(startTime: U64, execTime: U64, own: seq<Event>, others: seq<seq<Event>>)
    requires own != []
    requires JointStart(startTime, own, others) + execTime < U64_MODULUS
    ensures Add64(JointStart(startTime, own, others), execTime) >= startTime + execTime
  {
  }

  /**
   * Device A next free at 12 and device B next free at 7, asked jointly for
   * 3 ticks from time 0: both get `(12, 15)`.
   */
  lemma JointExample()
    ensures JointStart(0, [Event(0, 0), Event(5, 11)], [[Event(0, 0), Event(2, 6)]]) == 12
  {
    var own := [Event(0, 0), Event(5, 11)];
    var others := [[Event(0, 0), Event(2, 6)]];
    assert JointCandidates(0, own, others) == [0, 12, 7];
  }
}
