/**
 * `useStatistics`: the number of events, the number of coaches and the
 * registrations summed over every time slot of every event.
 */
module Statistics {
  import opened Wrappers

  /** A slot as the events endpoint returns it; `bookedSlots` may be absent. */
  datatype SlotRecord = SlotRecord(bookedSlots: Option<int>)

  /** An event; `timeSlots` is None when it is absent or not an array. */
  datatype EventRecord = EventRecord(timeSlots: Option<seq<SlotRecord>>)

  /** What `apiGet` gives: it threw, or a body with `success` and `data`. */
  datatype ApiResponse<T> = ApiThrew | Api(success: bool, data: Option<seq<T>>)

  datatype Stats = Stats(activeEvents: nat, totalCoaches: nat, totalRegistrations: int, loading: bool)

  const Failed := Stats(0, 0, 0, false)

  /** `slot.bookedSlots || 0`. */
  function Booked(slot: SlotRecord): int
  {
    slot.bookedSlots.GetOr(0)
  }

  /** The registrations of a list of slots, summed from the front. */
  function SlotsSum(slots: seq<SlotRecord>): int
  {
    if |slots| == 0 then 0 else SlotsSum(slots[..|slots| - 1]) + Booked(slots[|slots| - 1])
  }

  /** An event's registrations: nothing for one without a slot list. */
  function EventRegistrations(e: EventRecord): int
  {
    if e.timeSlots.Some? then SlotsSum(e.timeSlots.value) else 0
  }

  function EventsSum(events: seq<EventRecord>): int
  {
    if |events| == 0 then 0 else EventsSum(events[..|events| - 1]) + EventRegistrations(events[|events| - 1])
  }

  /** The length of a response's list, None when reading it would throw. */
  function Count<T>(r: ApiResponse<T>): Option<nat>
  {
    match r
    case ApiThrew => None
    case Api(success, data) => if !success then Some(0) else if data.None? then None else Some(|data.value|)
  }

  /** What the hook ends with: zeros when a call throws or a successful
   *  body has no data; otherwise the two counts (0 for an unsuccessful
   *  body) and the registrations of the events, when that body succeeded. */
  function Expected(events: ApiResponse<EventRecord>, coaches: ApiResponse<object>): Stats
  {
    if Count(events).None? || Count(coaches).None? then Failed
    else Stats(Count(events).value, Count(coaches).value,
               if events.success then EventsSum(events.data.value) else 0, false)
  }

  lemma {:induction false} SlotsSumAppend(a: seq<SlotRecord>, b: seq<SlotRecord>)
    ensures SlotsSum(a + b) == SlotsSum(a) + SlotsSum(b)
    decreases |b|
  {
    if |b| == 0 {
      assert a + b == a;
    } else {
      assert (a + b)[..|a + b| - 1] == a + b[..|b| - 1];
      SlotsSumAppend(a, b[..|b| - 1]);
    }
  }

  /** The sum does not depend on which events come first. */
  lemma {:induction false} EventsSumAppend(a: seq<EventRecord>, b: seq<EventRecord>)
    ensures EventsSum(a + b) == EventsSum(a) + EventsSum(b)
    decreases |b|
  {
    if |b| == 0 {
      assert a + b == a;
    } else {
      assert (a + b)[..|a + b| - 1] == a + b[..|b| - 1];
      EventsSumAppend(a, b[..|b| - 1]);
    }
  }

  /** With no negative counts stored the total is not negative. */
  lemma {:induction false} SlotsSumNonNegative(slots: seq<SlotRecord>)
    requires forall i :: 0 <= i < |slots| ==> Booked(slots[i]) >= 0
    ensures SlotsSum(slots) >= 0
    decreases |slots|
  {
    if |slots| > 0 {
      SlotsSumNonNegative(slots[..|slots| - 1]);
    }
  }

  /** No slot of any event stores a negative count. */
  predicate NoNegativeCounts(events: seq<EventRecord>)
  {
    forall i, j :: 0 <= i < |events| && events[i].timeSlots.Some? && 0 <= j < |events[i].timeSlots.value| ==>
      Booked(events[i].timeSlots.value[j]) >= 0
  }

  /** With no negative count stored, the registrations of the events are
   *  not negative; events without slots add 0. */
  lemma {:induction false} EventsSumNonNegative(events: seq<EventRecord>)
    requires NoNegativeCounts(events)
    ensures EventsSum(events) >= 0
    decreases |events|
  {
    if |events| > 0 {
      var last := events[|events| - 1];
      EventsSumNonNegative(events[..|events| - 1]);
      if last.timeSlots.Some? {
        SlotsSumNonNegative(last.timeSlots.value);
      }
    }
  }

  /** Slots without a count and events without slots add nothing. */
  lemma MissingCountsAsZero(slots: seq<SlotRecord>, before: seq<EventRecord>)
    ensures SlotsSum(slots + [SlotRecord(None)]) == SlotsSum(slots)
    ensures EventsSum(before + [EventRecord(None)]) == EventsSum(before)
  {
    assert (slots + [SlotRecord(None)])[..|slots|] == slots;
    assert (before + [EventRecord(None)])[..|before|] == before;
  }

  /** The hook's total is never negative when the events endpoint stores
   *  no negative count. */
  lemma TotalNonNegative(events: ApiResponse<EventRecord>, coaches: ApiResponse<object>)
    requires events.Api? && events.data.Some? ==> NoNegativeCounts(events.data.value)
    ensures Expected(events, coaches).totalRegistrations >= 0
  {
    if Count(events).Some? && Count(coaches).Some? && events.success {
      EventsSumNonNegative(events.data.value);
    }
  }

  /** `fetchStatistics`: the two calls, then the nested `forEach` over the
   *  events' slots. */
  method FetchStatistics(events: ApiResponse<EventRecord>, coaches: ApiResponse<object>) returns (stats: Stats)
    ensures stats == Expected(events, coaches)
    ensures !stats.loading
  {
    if Count(events).None? || Count(coaches).None? {
      return Failed;
    }
    var activeEvents := Count(events).value;
    var totalCoaches := Count(coaches).value;
    var totalRegistrations := 0;
    if events.success {
      var list := events.data.value;
      var i := 0;
      while i < |list|
        invariant 0 <= i <= |list|
        invariant totalRegistrations == EventsSum(list[..i])
      {
        var e := list[i];
        assert list[..i + 1][..i] == list[..i];
        if e.timeSlots.Some? {
          var slots := e.timeSlots.value;
          var j := 0;
          var eventTotal := 0;
          while j < |slots|
            invariant 0 <= j <= |slots|
            invariant eventTotal == SlotsSum(slots[..j])
          {
            assert slots[..j + 1][..j] == slots[..j];
            eventTotal := eventTotal + Booked(slots[j]);
            j := j + 1;
          }
          assert slots[..j] == slots;
          totalRegistrations := totalRegistrations + eventTotal;
        }
        i := i + 1;
      }
      assert list[..i] == list;
    }
    stats := Stats(activeEvents, totalCoaches, totalRegistrations, false);
  }
}
