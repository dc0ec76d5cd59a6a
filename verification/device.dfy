/**
 * The generic device of the timing model: a resource whose busy time is a
 * vector of `(start, end)` events. The vector is updated in place by
 * purging outdated events, by reserving one interval on the device alone,
 * and by reserving the same interval on the device and a list of others.
 *
 * The functions below say what each update computes; the class `Device`
 * carries out the update step by step as the C++ does and is proved to
 * agree with them.
 */
module Devices {
  import opened MachineInts

  /** One reserved interval of a timeline. */
  datatype Event = Event(start: U64, end: U64)

  datatype Option<T> = None | Some(value: T)

  // ---------------------------------------------------------------------
  // deleteOutdatedEvents
  // ---------------------------------------------------------------------

  /** The length of the leading run of events that start before `now`. */
  function OutdatedCount(ev: seq<Event>, now: U64): (k: nat)
    ensures k <= |ev|
    ensures forall j :: 0 <= j < k ==> ev[j].start < now
    ensures k < |ev| ==> ev[k].start >= now
  {
    if ev == [] || ev[0].start >= now then 0 else 1 + OutdatedCount(ev[1..], now)
  }

  /**
   * The timeline left by `deleteOutdatedEvents(now)`: the longest prefix of
   * events starting before `now` is dropped, the rest is kept in order.
   */
  function Purged(ev: seq<Event>, now: U64): (r: seq<Event>)
    ensures |r| <= |ev| && r == ev[|ev| - |r|..]
    ensures forall j :: 0 <= j < |ev| - |r| ==> ev[j].start < now
    ensures r == [] || r[0].start >= now
  {
    ev[OutdatedCount(ev, now)..]
  }

  /** Any prefix length that ends exactly at the first event starting at or after `now` is `OutdatedCount`. */
  lemma OutdatedCountUnique(ev: seq<Event>, now: U64, k: nat)
    requires k <= |ev|
    requires forall j :: 0 <= j < k ==> ev[j].start < now
    requires k < |ev| ==> ev[k].start >= now
    ensures k == OutdatedCount(ev, now)
  {
  }

  /** The timeline a reservation works on: purged first when `cleanEvents` is set. */
  function Pending(ev: seq<Event>, startTime: U64, cleanEvents: bool): (r: seq<Event>)
    ensures |r| <= |ev| && r == ev[|ev| - |r|..]
    ensures !cleanEvents ==> r == ev
    ensures cleanEvents ==> r == [] || r[0].start >= startTime
  {
    if cleanEvents then Purged(ev, startTime) else ev
  }

  // ---------------------------------------------------------------------
  // scheduleEvent(start_time, exec_time, cleanEvents)
  // ---------------------------------------------------------------------

  /**
   * The single-event branch is defined only when the lone event starts
   * before `start + exec` (computed modulo 2^64); otherwise the C++ reads the
   * element one past the end of the vector.
   */
  predicate LoneEventDefined(ev: seq<Event>, startTime: U64, execTime: U64) {
    |ev| == 1 ==> ev[0].start < Add64(startTime, execTime)
  }

  /**
   * The test of the first-fit scan at index `i`: event `i` ends before the
   * requested start and the distance to the next event's start, computed in
   * `uint64_t` and so wrapping when the next event starts earlier, exceeds
   * the duration.
   */
  predicate IsGap(ev: seq<Event>, i: int, startTime: U64, execTime: U64) {
    0 <= i && i + 1 < |ev| &&
    ev[i].end < startTime && Sub64(ev[i + 1].start, ev[i].end) > execTime
  }

  /** The first index, in vector order, at which the scan finds a gap. */
  function FirstGap(ev: seq<Event>, startTime: U64, execTime: U64): (r: Option<nat>)
    ensures r.Some? ==> IsGap(ev, r.value, startTime, execTime)
    ensures forall k :: 0 <= k < (if r.Some? then r.value else |ev|) ==> !IsGap(ev, k, startTime, execTime)
  {
    if |ev| < 2 then None
    else if IsGap(ev, 0, startTime, execTime) then Some(0)
    else
      match FirstGap(ev[1..], startTime, execTime)
      case None =>
        assert forall k :: 1 <= k < |ev| ==> IsGap(ev, k, startTime, execTime) == IsGap(ev[1..], k - 1, startTime, execTime);
        None
      case Some(i) =>
        assert forall k :: 1 <= k <= i + 1 ==> IsGap(ev, k, startTime, execTime) == IsGap(ev[1..], k - 1, startTime, execTime);
        Some(i + 1)
  }

  /** Where a reservation goes: its start time and its index in the vector. */
  datatype Slot = Slot(start: U64, index: nat)

  /** The slot `scheduleEvent` chooses on the timeline `ev`. */
  function Place(ev: seq<Event>, startTime: U64, execTime: U64): (p: Slot)
    requires LoneEventDefined(ev, startTime, execTime)
    ensures p.index <= |ev|
    ensures p.index == 0 || p.index == |ev|
  {
    if |ev| < 2 then Slot(startTime, 0)
    else
      match FirstGap(ev, startTime, execTime)
      case Some(i) => Slot(Add64(ev[i].end, 1), |ev|)
      case None => Slot(Add64(ev[|ev| - 1].end, 1), |ev|)
  }

  /**
   * Proof helper: unfolds `Place` for fewer than two events (the requested
   * start, at the front), so that `FindSlot` can close that branch.
   */
  lemma PlaceFewerThanTwo(ev: seq<Event>, startTime: U64, execTime: U64)
    requires |ev| < 2 && LoneEventDefined(ev, startTime, execTime)
    ensures Place(ev, startTime, execTime) == Slot(startTime, 0)
  {
  }

  /** When index `i` is the first that passes the gap test, the slot starts after event `i`, at the end. */
  lemma PlaceAtGap(ev: seq<Event>, startTime: U64, execTime: U64, i: nat)
    requires |ev| >= 2
    requires IsGap(ev, i, startTime, execTime)
    requires forall k :: 0 <= k < i ==> !IsGap(ev, k, startTime, execTime)
    ensures Place(ev, startTime, execTime) == Slot(Add64(ev[i].end, 1), |ev|)
  {
  }

  /** When no index passes the gap test, the slot starts after the last event, at the end. */
  lemma PlaceAfterLast(ev: seq<Event>, startTime: U64, execTime: U64)
    requires |ev| >= 2
    requires forall k :: 0 <= k < |ev| - 1 ==> !IsGap(ev, k, startTime, execTime)
    ensures Place(ev, startTime, execTime) == Slot(NextFree(ev), |ev|)
  {
  }

  /** The event a slot reserves for `execTime` ticks. */
  function Reservation(p: Slot, execTime: U64): Event {
    Event(p.start, Add64(p.start, execTime))
  }

  /** The timeline after `scheduleEvent` inserts its reservation into `ev`. */
  function Scheduled(ev: seq<Event>, startTime: U64, execTime: U64): (r: seq<Event>)
    requires LoneEventDefined(ev, startTime, execTime)
    ensures |r| == |ev| + 1
    ensures multiset(r) == multiset(ev) + multiset{Reservation(Place(ev, startTime, execTime), execTime)}
    ensures var p := Place(ev, startTime, execTime);
            r[..p.index] == ev[..p.index] && r[p.index + 1..] == ev[p.index..]
  {
    var p := Place(ev, startTime, execTime);
    assert ev == ev[..p.index] + ev[p.index..];
    ev[..p.index] + [Reservation(p, execTime)] + ev[p.index..]
  }

  /**
   * Proof helper: unfolds `Scheduled` into the insertion it performs, so that
   * `ScheduleEvent` can match it against its own update of `events`.
   */
  lemma ScheduledAt(ev: seq<Event>, startTime: U64, execTime: U64)
    requires LoneEventDefined(ev, startTime, execTime)
    ensures var p := Place(ev, startTime, execTime);
            Scheduled(ev, startTime, execTime) == ev[..p.index] + [Reservation(p, execTime)] + ev[p.index..]
  {
  }

  // ---------------------------------------------------------------------
  // scheduleEvent(start_time, exec_time, dlist)
  // ---------------------------------------------------------------------

  /** `last.end + 1`: the first tick after a non-empty timeline's last event. */
  function NextFree(ev: seq<Event>): (t: U64)
    requires ev != []
    ensures ev[|ev| - 1].end < U64_MODULUS - 1 ==> t == ev[|ev| - 1].end + 1 && t > ev[|ev| - 1].end
    ensures ev[|ev| - 1].end == U64_MODULUS - 1 ==> t == 0
  {
    Add64(ev[|ev| - 1].end, 1)
  }

  /** `t` is the next free tick of some non-empty timeline of `ts`. */
  predicate NextFreeOfSome(t: U64, ts: seq<seq<Event>>) {
    exists j :: 0 <= j < |ts| && ts[j] != [] && t == NextFree(ts[j])
  }

  /**
   * The candidate start times the joint reservation collects: the requested
   * start, the device's own next free tick, then the next free tick of each
   * listed timeline that is not empty, in list order.
   */
  function JointCandidates(startTime: U64, own: seq<Event>, others: seq<seq<Event>>): (c: seq<U64>)
    requires own != []
    ensures |c| >= 2 && c[0] == startTime && c[1] == NextFree(own)
    ensures forall j :: 0 <= j < |others| && others[j] != [] ==> NextFree(others[j]) in c
    ensures forall k :: 2 <= k < |c| ==> NextFreeOfSome(c[k], others)
  {
    if others == [] then [startTime, NextFree(own)]
    else
      var init := others[..|others| - 1];
      var c := JointCandidates(startTime, own, init);
      var last := others[|others| - 1];
      CandidatesExtend(c, init, others);
      if last != [] then
        var r := c + [NextFree(last)];
        assert r[|c|] == NextFree(others[|others| - 1]);
        r
      else c
  }

  /** Every candidate drawn from a prefix of `others` is drawn from `others`. */
  lemma CandidatesExtend(c: seq<U64>, init: seq<seq<Event>>, others: seq<seq<Event>>)
    requires init <= others
    requires forall k :: 2 <= k < |c| ==> NextFreeOfSome(c[k], init)
    ensures forall k :: 2 <= k < |c| ==> NextFreeOfSome(c[k], others)
  {
    forall k | 2 <= k < |c|
      ensures NextFreeOfSome(c[k], others)
    {
      var j :| 0 <= j < |init| && init[j] != [] && c[k] == NextFree(init[j]);
      assert others[j] == init[j] && others[j] != [];
      assert c[k] == NextFree(others[j]);
    }
  }

  /** The largest element of a non-empty sequence (`std::max_element`). */
  function MaxElement(xs: seq<U64>): (m: U64)
    requires xs != []
    ensures m in xs
    ensures forall x :: x in xs ==> x <= m
  {
    if |xs| == 1 then xs[0]
    else
      var rest := MaxElement(xs[1..]);
      assert forall x :: x in xs ==> x == xs[0] || x in xs[1..];
      if xs[0] >= rest then xs[0] else rest
  }

  /**
   * The start of a joint reservation: the latest of the requested start,
   * the device's own next free tick and the next free tick of every listed
   * timeline that is not empty.
   */
  function JointStart(startTime: U64, own: seq<Event>, others: seq<seq<Event>>): (st: U64)
    requires own != []
    ensures st >= startTime && st >= NextFree(own)
    ensures forall j :: 0 <= j < |others| && others[j] != [] ==> st >= NextFree(others[j])
    ensures st == startTime || st == NextFree(own) || NextFreeOfSome(st, others)
  {
    var c := JointCandidates(startTime, own, others);
    var st := MaxElement(c);
    assert c[0] in c && c[1] in c;
    assert exists k :: 0 <= k < |c| && c[k] == st;
    st
  }

  /** `n` copies of one event. */
  function Copies(e: Event, n: nat): (r: seq<Event>)
    ensures |r| == n
    ensures forall k :: 0 <= k < n ==> r[k] == e
  {
    if n == 0 then [] else Copies(e, n - 1) + [e]
  }

  // ---------------------------------------------------------------------
  // Device
  // ---------------------------------------------------------------------

  class Device {
    /** Unique id of the device. */
    const uid: U64
    /** The reserved intervals, in vector order. */
    var events: seq<Event>

    /** A new device is idle since time 0: its timeline holds the single event `(0, 0)`. */
    constructor (id: U64)
      ensures uid == id && events == [Event(0, 0)]
    {
      uid := id;
      events := [Event(0, 0)];
    }

    /** Drops the leading run of events that start before `nowTime`. */
    method DeleteOutdatedEvents(nowTime: U64)
      modifies this
      ensures events == Purged(old(events), nowTime)
    {
      var it := 0;
      while it < |events|
        invariant 0 <= it <= |events|
        invariant forall j :: 0 <= j < it ==> events[j].start < nowTime
      {
        if events[it].start >= nowTime {
          break;
        }
        it := it + 1;
      }
      OutdatedCountUnique(events, nowTime, it);
      events := events[it..];
    }

    /**
     * Reserves `execTime` ticks at or near `startTime`, after purging the
     * events that start before `startTime` when `cleanEvents` is set, and
     * returns the end of the reservation.
     */
    method ScheduleEvent(startTime: U64, execTime: U64, cleanEvents: bool) returns (finish: U64)
      requires LoneEventDefined(Pending(events, startTime, cleanEvents), startTime, execTime)
      modifies this
      ensures var ev := Pending(old(events), startTime, cleanEvents);
              events == Scheduled(ev, startTime, execTime) &&
              finish == Add64(Place(ev, startTime, execTime).start, execTime)
    {
      if cleanEvents {
        DeleteOutdatedEvents(startTime);
      }
      assert events == Pending(old(events), startTime, cleanEvents);
      var start, iter := FindSlot(startTime, execTime);
      ScheduledAt(events, startTime, execTime);
      events := events[..iter] + [Event(start, Add64(start, execTime))] + events[iter..];
      finish := Add64(start, execTime);
    }

    /**
     * The placement half of `scheduleEvent` on the current vector: the
     * start time and insertion position. With fewer than two events the
     * requested start and the front; with two or more, the first-fit scan
     * and then the end of the vector, gap or no gap.
     */
    method FindSlot(startTime: U64, execTime: U64) returns (start: U64, iter: nat)
      requires LoneEventDefined(events, startTime, execTime)
      ensures Slot(start, iter) == Place(events, startTime, execTime)
    {
      // The insertion position, taken at the front of the (purged) vector.
      iter := 0;
      start := startTime;
      if |events| == 1 {
        if !(events[0].start < Add64(start, execTime)) {
          // Here the C++ reads the element after the only one; the precondition excludes it.
          assert false;
        }
        PlaceFewerThanTwo(events, startTime, execTime);
      } else if |events| > 1 {
        var slotFound := false;
        ghost var gap := 0;
        while iter + 1 < |events|
          invariant 0 <= iter < |events|
          invariant start == startTime && !slotFound
          invariant forall k :: 0 <= k < iter ==> !IsGap(events, k, startTime, execTime)
        {
          if events[iter].end < start && Sub64(events[iter + 1].start, events[iter].end) > execTime {
            start := Add64(events[iter].end, 1);
            gap := iter;
            iter := iter + 1;
            slotFound := true;
            break;
          }
          iter := iter + 1;
        }
        if slotFound {
          PlaceAtGap(events, startTime, execTime, gap);
        } else {
          start := Add64(events[|events| - 1].end, 1);
          PlaceAfterLast(events, startTime, execTime);
        }
        // The vector is appended to whether or not a gap was found.
        iter := |events|;
      } else {
        PlaceFewerThanTwo(events, startTime, execTime);
      }
    }

    /**
     * Collects the start times a joint reservation must respect: the
     * requested start, this device's next free tick and that of every
     * device of `dlist` whose timeline is not empty.
     */
    method StartCandidates(startTime: U64, dlist: seq<Device>) returns (candidates: seq<U64>)
      requires events != []
      ensures candidates == JointCandidates(startTime, events, Timelines(dlist))
    {
      candidates := [startTime, NextFree(events)];
      for i := 0 to |dlist|
        invariant candidates == JointCandidates(startTime, events, Timelines(dlist[..i]))
      {
        assert dlist[..i + 1][..i] == dlist[..i];
        var e := dlist[i].events;
        ghost var before := Timelines(dlist[..i]);
        assert Timelines(dlist[..i + 1]) == before + [e];
        assert (before + [e])[..|before|] == before;
        if e != [] {
          candidates := candidates + [NextFree(e)];
        }
      }
      assert dlist[..|dlist|] == dlist;
    }

    /**
     * Reserves the same `execTime` ticks on this device and on every device
     * of `dlist`, starting no earlier than any of their timelines allows, and
     * returns the end of the reservation. A device listed `n` times (this one
     * included) receives the reservation `n` more times.
     */
    method ScheduleJointEvent(startTime: U64, execTime: U64, dlist: seq<Device>) returns (finish: U64)
      requires events != []
      modifies this, set d | d in dlist
      ensures var st := JointStart(startTime, old(events), old(Timelines(dlist)));
              finish == Add64(st, execTime) &&
              forall d :: d in [this] + dlist ==>
                d.events == old(d.events) + Copies(Event(st, Add64(st, execTime)), multiset([this] + dlist)[d])
    {
      var candidates := StartCandidates(startTime, dlist);
      var startT := MaxElement(candidates);
      ghost var st := JointStart(startTime, old(events), old(Timelines(dlist)));
      assert startT == st;
      var reserved := Event(startT, Add64(execTime, startT));
      assert reserved == Event(st, Add64(st, execTime));
      // This device first, then each listed device in order.
      AppendToEach([this] + dlist, reserved);
      finish := Add64(startT, execTime);
    }
  }

  /** Appends `e` to the timeline of each device of `ds`, in list order. */
  method AppendToEach(ds: seq<Device>, e: Event)
    modifies set d | d in ds
    ensures forall d :: d in ds ==> d.events == old(d.events) + Copies(e, multiset(ds)[d])
  {
    for i := 0 to |ds|
      invariant forall d :: d in ds ==> d.events == old(d.events) + Copies(e, multiset(ds[..i])[d])
    {
      assert ds[..i + 1] == ds[..i] + [ds[i]];
      ghost var counted := multiset(ds[..i]);
      assert multiset(ds[..i + 1]) == counted + multiset{ds[i]};
      assert Copies(e, counted[ds[i]] + 1) == Copies(e, counted[ds[i]]) + [e];
      ds[i].events := ds[i].events + [e];
      assert forall d :: d in ds && d != ds[i] ==> multiset(ds[..i + 1])[d] == counted[d];
    }
    assert ds[..|ds|] == ds;
  }

  /** The timelines of a list of devices, in list order. */
  function Timelines(ds: seq<Device>): (r: seq<seq<Event>>)
    reads set d | d in ds
    ensures |r| == |ds|
    ensures forall j :: 0 <= j < |ds| ==> r[j] == ds[j].events
  {
    if ds == [] then [] else Timelines(ds[..|ds| - 1]) + [ds[|ds| - 1].events]
  }
}
