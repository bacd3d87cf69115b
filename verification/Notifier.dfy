/** `Notifier` of sparkscope/notifications.py, step by step, against the functions of Notifications. */
module Notifier {
  import opened Notifications
  import opened NotificationLaws

  /** What `enqueue` adds: a pending row for each channel that has none for the event. */
  function Enqueued(rows: map<Slot, Delivery>, event: EventId, device: string, channels: set<nat>): map<Slot, Delivery>
  {
    rows + map c | c in channels && Slot(event, c) !in rows :: Slot(event, c) := NewDelivery(device)
  }

  /** A row claimed and, if that commits an attempt, sent and recorded. */
  function Handled(db: Store, s: Slot, now: real, error: bool, clock: real): (after: Store)
    requires s in db.deliveries
    ensures after.deliveries.Keys == db.deliveries.Keys
  {
    var claimed := Claimed(db, s, now);
    if Judge(db, s, now).Attempt? then Recorded(claimed, s, error, clock) else claimed
  }

  /** Handling the due list: claim each row, and record the outcome of each attempt. */
  function Worked(db: Store, due: seq<Slot>, now: real, errors: seq<bool>, clocks: seq<real>): Store
    requires |errors| >= |due| && |clocks| >= |due|
    requires forall s :: s in due ==> s in db.deliveries
    ensures Worked(db, due, now, errors, clocks).deliveries.Keys == db.deliveries.Keys
  {
    if due == [] then db
    else
      var n := |due| - 1;
      var before := Worked(db, due[..n], now, errors, clocks);
      assert due[n] in due;
      Handled(before, due[n], now, errors[n], clocks[n])
  }

  /** One more called slot set, row by row. */
  lemma {:induction false} RowsStep(rows: map<Slot, Delivery>, events: map<nat, FleetEvent>, before: set<Slot>,
                                    after: set<Slot>, event: EventId, device: string, audience: set<nat>)
    requires forall s :: s in after <==> s in before || (s.event == event && s.channel in audience)
    requires forall s: Slot :: s.event == event ==> s !in before && PayloadDevice(events, s) == device
    ensures rows + (map s | s in after && s !in rows :: NewDelivery(PayloadDevice(events, s)))
            == Enqueued(rows + map s | s in before && s !in rows :: NewDelivery(PayloadDevice(events, s)),
                        event, device, audience)
  {
  }

  lemma {:induction false} EventSlots(events: map<nat, FleetEvent>, done: map<nat, set<nat>>, e: nat,
                                      audience: set<nat>)
    requires e in events && e !in done
    ensures var (before, after) := (Slots(done, map[]), Slots(done[e := audience], map[]));
            && (forall s :: s in after <==> s in before || (s.event == Alarm(e) && s.channel in audience))
            && (forall s: Slot :: s.event == Alarm(e) ==> s !in before && PayloadDevice(events, s) == events[e].device)
  {
  }

  lemma {:induction false} DecideEvent(db: Store, done: map<nat, set<nat>>, e: nat, audience: set<nat>)
    requires e in db.events && e !in done
    ensures var before := Decided(db, done, map[]);
            Decided(db, done[e := audience], map[])
            == before.(events := before.events[e := before.events[e].(processed := true)],
                       deliveries := Enqueued(before.deliveries, Alarm(e), db.events[e].device, audience))
  {
    var before, after := Decided(db, done, map[]), Decided(db, done[e := audience], map[]);
    assert after.events == before.events[e := before.events[e].(processed := true)];
    EventSlots(db.events, done, e, audience);
    RowsStep(db.deliveries, db.events, Slots(done, map[]), Slots(done[e := audience], map[]),
             Alarm(e), db.events[e].device, audience);
  }

  lemma {:induction false} WindowSlots(events: map<nat, FleetEvent>, alarms: map<nat, set<nat>>, done: map<nat,
                                       set<nat>>, w: nat, audience: set<nat>)
    requires w !in done
    ensures var (before, after) := (Slots(alarms, done), Slots(alarms, done[w := audience]));
            && (forall s :: s in after <==> s in before || (s.event == Summary(w) && s.channel in audience))
            && (forall s: Slot :: s.event == Summary(w) ==> s !in before && PayloadDevice(events, s) == "")
  {
  }

  lemma {:induction false} DecideWindow(db: Store, alarms: map<nat, set<nat>>, done: map<nat, set<nat>>, w: nat,
                                        audience: set<nat>)
    requires w in db.windows && w !in done
    ensures var before := Decided(db, alarms, done);
            Decided(db, alarms, done[w := audience])
            == before.(windows := before.windows[w := before.windows[w].(summarized := true)],
                       deliveries := Enqueued(before.deliveries, Summary(w), "", audience))
  {
    var before, after := Decided(db, alarms, done), Decided(db, alarms, done[w := audience]);
    assert after.windows == before.windows[w := before.windows[w].(summarized := true)];
    WindowSlots(db.events, alarms, done, w, audience);
    RowsStep(db.deliveries, db.events, Slots(alarms, done), Slots(alarms, done[w := audience]), Summary(w), "", audience);
  }

  lemma {:induction false} DecideNothing(db: Store)
    ensures Decided(db, map[], map[]) == db
  {
    var after := Decided(db, map[], map[]);
    assert after.deliveries == db.deliveries;
    assert after.events == db.events;
    assert after.windows == db.windows;
  }

  /** Each event once, by time and id. */
  predicate InOrder(db: Store, order: seq<nat>)
  {
    forall i, j :: 0 <= i < j < |order| ==>
      order[i] != order[j] && order[i] in db.events && order[j] in db.events && Precedes(db, order[i], order[j])
  }

  /** `order_by(FleetEvent.ts, FleetEvent.id).limit(200)` over the unprocessed events. */
  method OldestUnprocessed(db: Store) returns (order: seq<nat>, batch: set<nat>)
    ensures IsBatch(db, batch)
    ensures forall e :: e in order <==> e in batch
    ensures InOrder(db, order)
  {
    order, batch := [], {};
    var todo := set e | e in db.events && Unprocessed(db, e);
    while todo != {} && |order| < 200
      invariant forall e :: Unprocessed(db, e) <==> e in batch || e in todo
      invariant batch !! todo && |batch| == |order| <= 200
      invariant forall e :: e in order <==> e in batch
      invariant InOrder(db, order)
      invariant forall b, e :: b in batch && e in todo ==> Precedes(db, b, e)
      decreases 200 - |order|
    {
      var first := First(db, todo);
      order := order + [first];
      batch, todo := batch + {first}, todo - {first};
    }
  }

  method First(db: Store, todo: set<nat>) returns (first: nat)
    requires todo != {} && forall e :: e in todo ==> e in db.events
    ensures first in todo && forall e :: e in todo && e != first ==> Precedes(db, first, e)
  {
    first :| first in todo;
    var rest := todo - {first};
    while rest != {}
      invariant first in todo && rest <= todo
      invariant forall e :: e in todo && e !in rest && e != first ==> Precedes(db, first, e)
      decreases rest
    {
      var e :| e in rest;
      rest := rest - {e};
      if Precedes(db, e, first) {
        first := e;
      }
    }
  }

  /** `order_by(NotificationDelivery.next_attempt).limit(10)` over the due rows. */
  method DueRows(db: Store, now: real) returns (due: seq<Slot>)
    ensures IsDueList(db, due, now)
  {
    due := [];
    var todo := set s | s in db.deliveries && Due(db, s, now);
    while todo != {} && |due| < 10
      invariant forall s :: Due(db, s, now) <==> s in due || s in todo
      invariant forall s :: s in due ==> s !in todo
      invariant |due| <= 10
      invariant forall i :: 0 <= i < |due| ==> Due(db, due[i], now)
      invariant forall i, j :: 0 <= i < j < |due| ==>
                  due[i] != due[j] && db.deliveries[due[i]].nextAttempt <= db.deliveries[due[j]].nextAttempt
      invariant forall i, s :: 0 <= i < |due| && s in todo ==> db.deliveries[due[i]].nextAttempt <= db.deliveries[s].nextAttempt
      decreases 10 - |due|
    {
      var next := Earliest(db, todo);
      due := due + [next];
      todo := todo - {next};
    }
  }

  method Earliest(db: Store, todo: set<Slot>) returns (first: Slot)
    requires todo != {} && forall s :: s in todo ==> s in db.deliveries
    ensures first in todo
    ensures forall s :: s in todo ==> db.deliveries[first].nextAttempt <= db.deliveries[s].nextAttempt
  {
    first :| first in todo;
    var rest := todo - {first};
    while rest != {}
      invariant first in todo && rest <= todo
      invariant forall s :: s in todo && s !in rest ==> db.deliveries[first].nextAttempt <= db.deliveries[s].nextAttempt
      decreases rest
    {
      var s :| s in rest;
      rest := rest - {s};
      if db.deliveries[s].nextAttempt < db.deliveries[first].nextAttempt {
        first := s;
      }
    }
  }

  class Notifier {
    var channels: map<nat, Channel>
    var windows: map<nat, Window>
    var devices: map<string, Device>
    var unresolved: map<nat, string>
    var events: map<nat, FleetEvent>
    var deliveries: map<Slot, Delivery>

    function View(): Store
      reads this
    {
      Store(channels, windows, devices, unresolved, events, deliveries)
    }

    constructor (db: Store)
      ensures View() == db
    {
      channels, windows, devices := db.channels, db.windows, db.devices;
      unresolved, events, deliveries := db.unresolved, db.events, db.deliveries;
    }

    /** `enqueue`. */
    method Enqueue(event: EventId, device: string, audience: set<nat>)
      modifies this`deliveries
      ensures deliveries == Enqueued(old(deliveries), event, device, audience)
    {
      var todo := audience;
      while todo != {}
        invariant todo <= audience
        invariant forall s :: s in deliveries <==> s in old(deliveries)
                                                   || (s.event == event && s.channel in audience && s.channel !in todo)
        invariant forall s :: s in deliveries ==>
                    deliveries[s] == if s in old(deliveries) then old(deliveries)[s] else NewDelivery(device)
        decreases todo
      {
        var channel :| channel in todo;
        todo := todo - {channel};
        if Slot(event, channel) !in deliveries {
          deliveries := deliveries[Slot(event, channel) := NewDelivery(device)];
        }
      }
    }

    /** The first transaction of `tick`. */
    method Decide(now: real) returns (batch: set<nat>)
      modifies this
      ensures IsBatch(old(View()), batch)
      ensures View() == Notifications.Tick(old(View()), batch, now)
      ensures forall s :: s in deliveries <==> s in old(deliveries) || Adds(old(View()), batch, now, s)
    {
      var db := View();
      var order;
      order, batch := OldestUnprocessed(db);
      DecideEvents(db, order, batch, now);
      DecideWindows(db, Audiences(db, batch, now), now);
      forall s
        ensures s in deliveries <==> s in db.deliveries || Adds(db, batch, now, s)
      {
        TickAdds(db, batch, now, s);
      }
    }

    /** The loop over events. */
    method DecideEvents(db: Store, order: seq<nat>, ghost batch: set<nat>, now: real)
      requires View() == db
      requires forall e :: e in order <==> e in batch
      requires forall e :: e in batch ==> e in db.events
      requires forall i, j :: 0 <= i < j < |order| ==> order[i] != order[j]
      modifies this
      ensures View() == Decided(db, Audiences(db, batch, now), map[])
    {
      ghost var done: map<nat, set<nat>> := map[];
      DecideNothing(db);
      for n := 0 to |order|
        invariant forall e :: e in done <==> e in order[..n]
        invariant forall e :: e in done ==> e in db.events && done[e] == Audience(db, e, now)
        invariant View() == Decided(db, done, map[])
      {
        var e := order[n];
        assert e in order && e !in done;
        DecideOne(db, done, e, now);
        done := done[e := Audience(db, e, now)];
      }
      assert done == Audiences(db, batch, now);
    }

    /** One turn of the loop over events. */
    method DecideOne(db: Store, ghost done: map<nat, set<nat>>, e: nat, now: real)
      requires e in db.events && e !in done && View() == Decided(db, done, map[])
      modifies this
      ensures View() == Decided(db, done[e := Audience(db, e, now)], map[])
    {
      var audience := Audience(db, e, now);
      DecideEvent(db, done, e, audience);
      events := events[e := events[e].(processed := true)];
      Enqueue(Alarm(e), db.events[e].device, audience);
    }

    /** The loop over windows. */
    method DecideWindows(db: Store, ghost alarms: map<nat, set<nat>>, now: real)
      requires View() == Decided(db, alarms, map[])
      modifies this
      ensures View() == Decided(db, alarms, Summaries(db, now))
    {
      ghost var done: map<nat, set<nat>> := map[];
      var todo := db.windows.Keys;
      while todo != {}
        invariant forall w :: w in todo ==> w in db.windows && w !in done
        invariant forall w :: w in db.windows && w !in todo && NeedsSummary(db, w, now) ==> w in done
        invariant forall w :: w in done ==> w in db.windows && NeedsSummary(db, w, now) && done[w] == SummaryAudience(db, w, now)
        invariant View() == Decided(db, alarms, done)
        decreases todo
      {
        var w :| w in todo;
        todo := todo - {w};
        if !NeedsSummary(db, w, now) {
          continue;
        }
        SummarizeOne(db, alarms, done, w, now);
        done := done[w := SummaryAudience(db, w, now)];
      }
      assert done == Summaries(db, now);
    }

    /** One turn of the loop over windows. */
    method SummarizeOne(db: Store, ghost alarms: map<nat, set<nat>>, ghost done: map<nat, set<nat>>, w: nat, now: real)
      requires w in db.windows && w !in done && View() == Decided(db, alarms, done)
      modifies this
      ensures View() == Decided(db, alarms, done[w := SummaryAudience(db, w, now)])
    {
      var audience := SummaryAudience(db, w, now);
      DecideWindow(db, alarms, done, w, audience);
      Enqueue(Summary(w), "", audience);
      windows := windows[w := windows[w].(summarized := true)];
    }

    /** The claiming transaction; the result says whether to send. */
    method Claim(s: Slot, now: real) returns (attempt: bool)
      requires s in deliveries
      modifies this`deliveries
      ensures View() == Claimed(old(View()), s, now)
      ensures attempt <==> Judge(old(View()), s, now).Attempt?
      ensures attempt <==>
                (&& s.channel in channels && channels[s.channel].enabled && old(deliveries)[s].attempts < 5
                 && !UnderWindow(old(View()), old(deliveries)[s].device, now))
    {
      ClaimDecides(View(), s, now);
      var row := deliveries[s];
      attempt := false;
      if s.channel !in channels || !channels[s.channel].enabled {
        row := row.(status := Cancelled);
      } else if row.attempts >= 5 {
        row := row.(status := Failed);
      } else if row.device in devices && CoveredAt(View(), row.device, now) {
        row := row.(status := Suppressed);
      } else {
        row := row.(attempts := row.attempts + 1, nextAttempt := now + 60.0);
        attempt := true;
      }
      deliveries := deliveries[s := row];
    }

    /** The recording transaction. */
    method Record(s: Slot, error: bool, clock: real)
      requires s in deliveries
      modifies this`deliveries
      ensures View() == Recorded(old(View()), s, error, clock)
    {
      var row := deliveries[s];
      row := row.(error := error);
      row := row.(status := if !error then Sent else if row.attempts >= 5 then Failed else Pending);
      row := row.(nextAttempt := clock + Backoff(row.attempts) as real);
      deliveries := deliveries[s := row];
    }

    /** One turn of the loop over due rows. */
    method Handle(s: Slot, now: real, error: bool, clock: real)
      requires s in deliveries
      modifies this`deliveries
      ensures View() == Handled(old(View()), s, now, error, clock)
    {
      var attempt := Claim(s, now);
      if attempt {
        Record(s, error, clock);
      }
    }

    /** `tick` without a crash: `errors` and `clocks` are what sending and the clock bring for each due row. */
    method Tick(now: real, errors: seq<bool>, clocks: seq<real>) returns (batch: set<nat>, due: seq<Slot>)
      requires |errors| >= 10 && |clocks| >= 10
      modifies this
      ensures IsBatch(old(View()), batch)
      ensures var decided := Notifications.Tick(old(View()), batch, now);
              IsDueList(decided, due, now) && (forall s :: s in due ==> s in decided.deliveries)
              && View() == Worked(decided, due, now, errors, clocks)
    {
      batch := Decide(now);
      var decided := View();
      due := DueRows(decided, now);
      WorkOff(decided, due, now, errors, clocks);
    }

    /** The loop over due rows. */
    method WorkOff(ghost decided: Store, due: seq<Slot>, now: real, errors: seq<bool>, clocks: seq<real>)
      requires View() == decided && |errors| >= |due| && |clocks| >= |due|
      requires forall s :: s in due ==> s in deliveries
      modifies this
      ensures View() == Worked(decided, due, now, errors, clocks)
    {
      for n := 0 to |due|
        invariant View() == Worked(decided, due[..n], now, errors, clocks)
      {
        assert due[..n + 1][..n] == due[..n];
        Handle(due[n], now, errors[n], clocks[n]);
      }
      assert due[..|due|] == due;
    }
  }
}
