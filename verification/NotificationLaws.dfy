/** What the notification queue decides, read off the tables, and what therefore holds of every run. */
module NotificationLaws {
  import opened Options
  import opened Notifications
  import opened NotificationRuns

  // ---------------------------------------------------------------- who is told

  /** The scope names the device, its group and its cluster, or leaves them open. */
  predicate InScope(scope: Scope, device: Device)
  {
    && (scope.devices != {} ==> device.id in scope.devices)
    && (scope.group != "" ==> scope.group == device.group)
    && (scope.cluster != "" ==> device.cluster == Some(scope.cluster))
  }

  /** The device is stored, and at that time a stored window is open that it falls under. */
  predicate UnderWindow(db: Store, device: string, t: real)
  {
    && device in db.devices
    && exists n :: n in db.windows && db.windows[n].start <= t && t < db.windows[n].end
                   && InScope(db.windows[n].scope, db.devices[device])
  }

  /** The channel hears of the event: an alarm, not under a window when it happened, on a stored and enabled channel that was
      enabled by then, where a channel that does not say when counts as enabled just now. */
  predicate Hears(db: Store, e: nat, c: nat, now: real)
  {
    && e in db.events
    && (db.events[e].kind == "alarm.open" || db.events[e].kind == "alarm.escalate" || db.events[e].kind == "alarm.resolve")
    && c in db.channels && db.channels[c].enabled
    && db.events[e].ts >= (if db.channels[c].enabledSince == None then now else db.channels[c].enabledSince.value)
    && !UnderWindow(db, db.events[e].device, db.events[e].ts)
  }

  /** The channel hears how a window went: it has ended and was not reported, and some alert is still unresolved on a device
      that it covered and that no window covers now. */
  predicate HearsSummary(db: Store, n: nat, c: nat, now: real)
  {
    && n in db.windows && db.windows[n].end <= now && !db.windows[n].summarized
    && c in db.channels && db.channels[c].enabled
    && exists a :: a in db.unresolved && db.unresolved[a] in db.devices
                   && InScope(db.windows[n].scope, db.devices[db.unresolved[a]])
                   && !UnderWindow(db, db.unresolved[a], now)
  }

  lemma {:induction false} UnderWindowIff(db: Store, device: string, t: real)
    ensures CoveredAt(db, device, t) <==> UnderWindow(db, device, t)
  {
    if CoveredAt(db, device, t) {
      var n :| n in db.windows && db.windows[n].start <= t < db.windows[n].end
               && Matches(db.windows[n].scope, Lookup(db.devices, device));
      assert InScope(db.windows[n].scope, db.devices[device]);
    }
    if UnderWindow(db, device, t) {
      var n :| n in db.windows && db.windows[n].start <= t && t < db.windows[n].end
               && InScope(db.windows[n].scope, db.devices[device]);
      assert Matches(db.windows[n].scope, Lookup(db.devices, device));
    }
  }

  lemma {:induction false} AudienceIff(db: Store, e: nat, c: nat, now: real)
    requires e in db.events
    ensures c in Audience(db, e, now) <==> Hears(db, e, c, now)
  {
    UnderWindowIff(db, db.events[e].device, db.events[e].ts);
  }

  lemma {:induction false} OutstandingIff(db: Store, n: nat, now: real)
    requires n in db.windows
    ensures Outstanding(db, n, now)
            <==> exists a :: a in db.unresolved && db.unresolved[a] in db.devices
                             && InScope(db.windows[n].scope, db.devices[db.unresolved[a]])
                             && !UnderWindow(db, db.unresolved[a], now)
  {
    forall a | a in db.unresolved
      ensures CoveredAt(db, db.unresolved[a], now) <==> UnderWindow(db, db.unresolved[a], now)
      ensures Matches(db.windows[n].scope, Lookup(db.devices, db.unresolved[a]))
              <==> db.unresolved[a] in db.devices && InScope(db.windows[n].scope, db.devices[db.unresolved[a]])
    {
      UnderWindowIff(db, db.unresolved[a], now);
    }
  }

  lemma {:induction false} SummaryIff(db: Store, n: nat, c: nat, now: real)
    ensures (n in Summaries(db, now) && c in Summaries(db, now)[n]) <==> HearsSummary(db, n, c, now)
  {
    if n in db.windows {
      OutstandingIff(db, n, now);
    }
  }

  /** The slot is for a channel that hears of an event of the batch, or of an ended window. */
  predicate Adds(db: Store, batch: set<nat>, now: real, s: Slot)
  {
    match s.event
    case Alarm(e) => e in batch && Hears(db, e, s.channel, now)
    case Summary(n) => HearsSummary(db, n, s.channel, now)
    case Test(_) => false
  }

  lemma {:induction false} CalledIff(db: Store, batch: set<nat>, now: real, s: Slot)
    ensures Called(Audiences(db, batch, now), Summaries(db, now), s) <==> Adds(db, batch, now, s)
  {
    match s.event
    case Alarm(e) =>
      if e in db.events {
        AudienceIff(db, e, s.channel, now);
      }
    case Summary(n) => SummaryIff(db, n, s.channel, now);
    case Test(_) =>
  }

  /** The deliveries that a tick's first transaction adds: one for each such slot, pending and due at once; rows that were
      there stay as they were. */
  lemma {:induction false} TickAdds(db: Store, batch: set<nat>, now: real, s: Slot)
    ensures var after := Tick(db, batch, now).deliveries;
            && (s in after <==> s in db.deliveries || Adds(db, batch, now, s))
            && (s in after ==>
                  after[s] == if s in db.deliveries then db.deliveries[s]
                              else Delivery(if s.event.Alarm? then db.events[s.event.event].device else "",
                                            Pending, 0, 0.0, false))
  {
    CalledIff(db, batch, now, s);
  }

  /** In a run none of them has ever existed. */
  lemma {:induction false} TickCreates(w: World, batch: set<nat>, now: real, s: Slot)
    requires Inv(w) && IsBatch(w.db, batch)
    ensures Adds(w.db, batch, now, s) <==> s in Tick(w.db, batch, now).deliveries && s !in w.db.deliveries
    ensures Adds(w.db, batch, now, s) ==> Count(w.created, s) == 0
  {
    DecideCreates(w, batch, now, s);
    CalledIff(w.db, batch, now, s);
  }

  /** A tick processes exactly its batch, and reports exactly the windows that have ended and were not reported. */
  lemma {:induction false} TickMarks(db: Store, batch: set<nat>, now: real)
    requires IsBatch(db, batch)
    ensures var after := Tick(db, batch, now);
            && after.events.Keys == db.events.Keys && after.windows.Keys == db.windows.Keys
            && (forall e :: e in db.events ==>
                  after.events[e] == db.events[e].(processed := db.events[e].processed || e in batch))
            && (forall n :: n in db.windows ==>
                  after.windows[n] == db.windows[n].(summarized := db.windows[n].summarized || db.windows[n].end <= now))
            && after.channels == db.channels && after.devices == db.devices && after.unresolved == db.unresolved
  {
    forall e | e in batch
      ensures e in db.events
    {
      assert Unprocessed(db, e);
    }
  }

  // ---------------------------------------------------------------- each event once

  /** The tick that first processes an event creates one delivery for each channel that hears of it, and no other delivery for
      that event is created in any later step. */
  lemma {:induction false} EventDecidedOnce(w: World, step: Step, e: nat, c: nat)
    requires Inv(w) && Enabled(w, step) && e in w.usedEvents
    ensures var (w', s) := (Exec(w, step), Slot(Alarm(e), c));
            && (Unprocessed(w'.db, e) <==> e !in w'.audience)
            && (e in w'.audience <==> e in w.audience || (step.Decide? && e in step.batch))
            && (e in w.audience ==> Count(w'.created, s) == Count(w.created, s))
            && (e !in w.audience ==> s !in w.db.deliveries && Count(w.created, s) == 0)
            && (e !in w.audience && e in w'.audience ==>
                  && (s in w'.db.deliveries <==> Hears(w.db, e, c, step.now))
                  && Count(w'.created, s) == if Hears(w.db, e, c, step.now) then 1 else 0)
  {
    var w' := Exec(w, step);
    StepKeepsInv(w, step);
    assert Unprocessed(w.db, e) <==> e !in w.audience;
    assert Unprocessed(w'.db, e) <==> e !in w'.audience;
    assert Slot(Alarm(e), c) in w.db.deliveries ==> RowOk(w, Slot(Alarm(e), c));
    EventStep(w, step, e, c);
  }

  lemma {:induction false} EventStep(w: World, step: Step, e: nat, c: nat)
    requires Inv(w) && Enabled(w, step) && e in w.usedEvents && (Unprocessed(w.db, e) <==> e !in w.audience)
    ensures var (w', s) := (Exec(w, step), Slot(Alarm(e), c));
            && (e in w'.audience <==> e in w.audience || (step.Decide? && e in step.batch))
            && (e !in w.audience ==> Count(w.created, s) == 0)
            && Count(w'.created, s)
               == Count(w.created, s)
                  + (if e !in w.audience && step.Decide? && e in step.batch && Hears(w.db, e, c, step.now) then 1 else 0)
            && (step.Decide? && e in step.batch ==>
                  (s in w'.db.deliveries <==> s in w.db.deliveries || Hears(w.db, e, c, step.now)))
  {
    assert Count(w.created, Slot(Alarm(e), c)) <= 1;
    if step.Decide? {
      EventInTick(w, step.batch, step.now, e, c);
    } else {
      EventElsewhere(w, step, e, c);
    }
  }

  lemma {:induction false} EventInTick(w: World, batch: set<nat>, now: real, e: nat, c: nat)
    requires Inv(w) && Enabled(w, Decide(batch, now)) && e in w.usedEvents && (Unprocessed(w.db, e) <==> e !in w.audience)
    ensures var (w', s) := (Exec(w, Decide(batch, now)), Slot(Alarm(e), c));
            && (e in w'.audience <==> e in w.audience || e in batch)
            && (e in batch ==> e !in w.audience)
            && Count(w'.created, s) == Count(w.created, s) + (if e in batch && Hears(w.db, e, c, now) then 1 else 0)
            && (e in batch ==> (s in w'.db.deliveries <==> s in w.db.deliveries || Hears(w.db, e, c, now)))
  {
    var w', s := Exec(w, Decide(batch, now)), Slot(Alarm(e), c);
    TickCreates(w, batch, now, s);
    BumpedCount(w.created, NewSlots(w.db, w'.db), s);
    assert e in batch ==> Unprocessed(w.db, e);
    assert s in w.db.deliveries ==> RowOk(w, s);
  }

  lemma {:induction false} EventElsewhere(w: World, step: Step, e: nat, c: nat)
    requires Inv(w) && Enabled(w, step) && !step.Decide?
    ensures var (w', s) := (Exec(w, step), Slot(Alarm(e), c));
            w'.audience == w.audience && Count(w'.created, s) == Count(w.created, s)
  {
    if step.AddTest? {
      BumpedCount(w.created, {Slot(Test(step.n), step.channel)}, Slot(Alarm(e), c));
    }
  }

  /** A window's summary goes out once, in the tick that reports the window, to each channel that hears of it. */
  lemma {:induction false} SummaryDecidedOnce(w: World, step: Step, n: nat, c: nat)
    requires Inv(w) && Enabled(w, step) && n in w.usedWindows
    ensures var (w', s) := (Exec(w, step), Slot(Summary(n), c));
            && Count(w'.created, s)
               == Count(w.created, s) + (if step.Decide? && HearsSummary(w.db, n, c, step.now) then 1 else 0)
            && (step.Decide? && HearsSummary(w.db, n, c, step.now) ==> Count(w.created, s) == 0 && s in w'.db.deliveries)
            && (n in w.db.windows && n in w'.db.windows ==>
                  (w'.db.windows[n].summarized
                   <==> w.db.windows[n].summarized || (step.Decide? && w.db.windows[n].end <= step.now)))
  {
    if step.Decide? {
      SummaryInTick(w, step.batch, step.now, n, c);
    } else {
      SummaryElsewhere(w, step, n, c);
    }
  }

  lemma {:induction false} SummaryInTick(w: World, batch: set<nat>, now: real, n: nat, c: nat)
    requires Inv(w) && Enabled(w, Decide(batch, now))
    ensures var (w', s) := (Exec(w, Decide(batch, now)), Slot(Summary(n), c));
            && Count(w'.created, s) == Count(w.created, s) + (if HearsSummary(w.db, n, c, now) then 1 else 0)
            && (HearsSummary(w.db, n, c, now) ==> Count(w.created, s) == 0 && s in w'.db.deliveries)
            && (n in w.db.windows && n in w'.db.windows ==>
                  (w'.db.windows[n].summarized <==> w.db.windows[n].summarized || w.db.windows[n].end <= now))
  {
    var w', s := Exec(w, Decide(batch, now)), Slot(Summary(n), c);
    TickCreates(w, batch, now, s);
    TickMarks(w.db, batch, now);
    BumpedCount(w.created, NewSlots(w.db, w'.db), s);
    assert s in w.db.deliveries ==> RowOk(w, s);
  }

  lemma {:induction false} SummaryElsewhere(w: World, step: Step, n: nat, c: nat)
    requires Inv(w) && Enabled(w, step) && !step.Decide? && n in w.usedWindows
    ensures var (w', s) := (Exec(w, step), Slot(Summary(n), c));
            && Count(w'.created, s) == Count(w.created, s)
            && (n in w.db.windows && n in w'.db.windows ==> w'.db.windows[n].summarized == w.db.windows[n].summarized)
  {
    if step.AddTest? {
      BumpedCount(w.created, {Slot(Test(step.n), step.channel)}, Slot(Summary(n), c));
    }
  }

  /** Step `n` of the run decides the event. */
  ghost predicate DecidedAt(steps: seq<Step>, n: int, e: nat)
  {
    0 <= n < |steps| && IsRun(steps[..n]) && steps[n].Decide? && e in steps[n].batch
  }

  /** That tick created a delivery exactly if the channel heard of the event then. */
  ghost predicate DecidedSo(steps: seq<Step>, n: int, e: nat, c: nat, created: nat)
  {
    DecidedAt(steps, n, e) && created == if Hears(After(steps[..n]).db, e, c, steps[n].now) then 1 else 0
  }

  lemma {:induction false} DecidedEarlier(front: seq<Step>, last: Step, e: nat, c: nat, created: nat)
    requires exists n :: DecidedSo(front, n, e, c, created)
    ensures exists n :: DecidedSo(front + [last], n, e, c, created)
  {
    var n :| DecidedSo(front, n, e, c, created);
    assert (front + [last])[..n] == front[..n] && (front + [last])[n] == front[n];
    assert DecidedSo(front + [last], n, e, c, created);
  }

  lemma {:induction false} DecidedLast(front: seq<Step>, last: Step, e: nat, c: nat, created: nat)
    requires IsRun(front) && last.Decide? && e in last.batch
    requires created == if Hears(After(front).db, e, c, last.now) then 1 else 0
    ensures exists n :: DecidedSo(front + [last], n, e, c, created)
  {
    assert (front + [last])[..|front|] == front && (front + [last])[|front|] == last;
    assert DecidedSo(front + [last], |front|, e, c, created);
  }

  lemma {:induction false} FreshUndecided(w: World, e: nat, c: nat)
    requires Inv(w) && e !in w.usedEvents
    ensures e !in w.audience && Count(w.created, Slot(Alarm(e), c)) == 0
  {
    assert Count(w.created, Slot(Alarm(e), c)) <= 1;
  }

  /** An event that has just been stored has not been decided. */
  lemma {:induction false} NewlyUsed(w: World, step: Step, e: nat, c: nat)
    requires Inv(w) && Enabled(w, step) && e !in w.usedEvents && e in Exec(w, step).usedEvents
    ensures e !in Exec(w, step).audience && Count(Exec(w, step).created, Slot(Alarm(e), c)) == 0
  {
    FreshUndecided(w, e, c);
  }

  lemma {:induction false} Accounted(steps: seq<Step>, e: nat, c: nat, w: World, created: nat)
    requires IsRun(steps) && w == After(steps) && created == Count(w.created, Slot(Alarm(e), c)) && e in w.usedEvents
    ensures e !in w.audience ==> created == 0
    ensures e in w.audience ==> exists n :: DecidedSo(steps, n, e, c, created)
  {
    if steps != [] {
      var front, last := steps[..|steps| - 1], steps[|steps| - 1];
      var before := After(front);
      assert steps == front + [last];
      RunKeepsInv(front);
      if e in before.usedEvents {
        EventDecidedOnce(before, last, e, c);
        Accounted(front, e, c, before, Count(before.created, Slot(Alarm(e), c)));
        if e in before.audience {
          DecidedEarlier(front, last, e, c, created);
        } else if e in w.audience {
          DecidedLast(front, last, e, c, created);
        }
      } else {
        NewlyUsed(before, last, e, c);
      }
    }
  }

  /** In every run an event is stored and unprocessed, or some tick decided it; a decided event has had exactly one delivery
      for each channel that heard of it at that tick, and an undecided one none. */
  lemma {:induction false} EveryEventAccountedFor(steps: seq<Step>, e: nat, c: nat)
    requires IsRun(steps) && e in After(steps).usedEvents
    ensures var (w, created) := (After(steps), Count(After(steps).created, Slot(Alarm(e), c)));
            || (e in w.db.events && !w.db.events[e].processed && created == 0)
            || (&& (e in w.db.events ==> w.db.events[e].processed)
                && exists n :: DecidedAt(steps, n, e)
                               && created == if Hears(After(steps[..n]).db, e, c, steps[n].now) then 1 else 0)
  {
    var w, created := After(steps), Count(After(steps).created, Slot(Alarm(e), c));
    RunKeepsInv(steps);
    assert Unprocessed(w.db, e) <==> e !in w.audience;
    Accounted(steps, e, c, w, created);
    if e in w.audience {
      var n :| DecidedSo(steps, n, e, c, created);
      assert DecidedAt(steps, n, e);
    }
  }

  // ---------------------------------------------------------------- order

  lemma {:induction false} SubsetSize<T>(a: set<T>, b: set<T>)
    requires a <= b
    ensures |a| <= |b|
  {
    if a != {} {
      var x :| x in a;
      SubsetSize(a - {x}, b - {x});
    }
  }

  /** No event is overtaken: the next tick decides an unprocessed event exactly if fewer than 200 unprocessed events are older,
      or as old with a smaller id. */
  lemma {:induction false} OldestDecidedFirst(db: Store, batch: set<nat>, e: nat)
    requires IsBatch(db, batch)
    ensures var before := set b | b in db.events && !db.events[b].processed && e in db.events
                                  && (db.events[b].ts < db.events[e].ts || (db.events[b].ts == db.events[e].ts && b < e));
            e in batch <==> e in db.events && !db.events[e].processed && |before| < 200
  {
    var before := set b | b in db.events && !db.events[b].processed && e in db.events
                          && (db.events[b].ts < db.events[e].ts || (db.events[b].ts == db.events[e].ts && b < e));
    if e in batch {
      assert Unprocessed(db, e);
      forall b | b in before
        ensures b in batch - {e}
      {
        assert Unprocessed(db, b);
      }
      SubsetSize(before, batch - {e});
    } else if e in db.events && !db.events[e].processed {
      assert Unprocessed(db, e);
      forall b | b in batch
        ensures b in before
      {
        assert Unprocessed(db, b) && Precedes(db, b, e);
      }
      SubsetSize(batch, before);
    }
  }

  /** No due delivery is overtaken either: one with fewer than ten due ones at or before its time is worked on in this tick. */
  lemma {:induction false} EarliestDueFirst(db: Store, due: seq<Slot>, now: real, s: Slot)
    requires IsDueList(db, due, now)
    ensures |due| <= 10
    ensures s in due ==> s in db.deliveries && db.deliveries[s].status == Pending && db.deliveries[s].nextAttempt <= now
    ensures var others := set r | r in db.deliveries && r != s && s in db.deliveries && db.deliveries[r].status == Pending
                                  && db.deliveries[r].nextAttempt <= db.deliveries[s].nextAttempt;
            s in db.deliveries && db.deliveries[s].status == Pending && db.deliveries[s].nextAttempt <= now && |others| < 10
            ==> s in due
  {
    if s in due {
      var i :| 0 <= i < |due| && due[i] == s;
      assert Due(db, due[i], now);
    } else if s in db.deliveries && db.deliveries[s].status == Pending && db.deliveries[s].nextAttempt <= now {
      assert Due(db, s, now);
      var others := set r | r in db.deliveries && r != s && s in db.deliveries && db.deliveries[r].status == Pending
                            && db.deliveries[r].nextAttempt <= db.deliveries[s].nextAttempt;
      var chosen := set r | r in due;
      forall r | r in chosen
        ensures r in others
      {
        var i :| 0 <= i < |due| && due[i] == r;
        assert Due(db, due[i], now);
      }
      DistinctSize(due);
      SubsetSize(chosen, others);
    }
  }

  lemma {:induction false} DistinctSize(due: seq<Slot>)
    requires forall i, j :: 0 <= i < j < |due| ==> due[i] != due[j]
    ensures |set r | r in due| == |due|
  {
    if due != [] {
      var n := |due| - 1;
      DistinctSize(due[..n]);
      assert due[n] !in due[..n];
      assert (set r | r in due) == (set r | r in due[..n]) + {due[n]};
    }
  }

  // ---------------------------------------------------------------- attempts

  /** What claiming a delivery does: cancels it if its channel is gone or off, fails it after five attempts, suppresses it
      while its device is under a window, and otherwise commits one more attempt and holds it back for a minute. */
  lemma {:induction false} ClaimDecides(db: Store, s: Slot, now: real)
    requires s in db.deliveries
    ensures var (row, after) := (db.deliveries[s], Claimed(db, s, now));
            var off := !(s.channel in db.channels && db.channels[s.channel].enabled);
            var spent, hidden := row.attempts >= 5, UnderWindow(db, row.device, now);
            && (off ==> after == db.(deliveries := db.deliveries[s := row.(status := Cancelled)]))
            && (!off && spent ==> after == db.(deliveries := db.deliveries[s := row.(status := Failed)]))
            && (!off && !spent && hidden ==> after == db.(deliveries := db.deliveries[s := row.(status := Suppressed)]))
            && (!off && !spent && !hidden ==>
                  after == db.(deliveries := db.deliveries[s :=
                    row.(attempts := row.attempts + 1, nextAttempt := now + 60.0)]))
            && (Judge(db, s, now).Attempt? <==> !off && !spent && !hidden)
  {
    UnderWindowIff(db, db.deliveries[s].device, now);
  }

  /** A claim leads to sending exactly if the channel is on, attempts are left and no window hides the device. */
  lemma {:induction false} SendsIff(w: World)
    requires Enabled(w, Claim)
    ensures var (s, row, w') := (w.phase.due[0], w.db.deliveries[w.phase.due[0]], Exec(w, Claim));
            && (w'.phase.Sending? <==>
                  (&& s.channel in w.db.channels && w.db.channels[s.channel].enabled && row.attempts < 5
                   && !UnderWindow(w.db, row.device, w.phase.now)))
            && (w'.phase.Sending? ==> w'.phase.slot == s && w'.db.deliveries[s].attempts == row.attempts + 1)
  {
    ClaimDecides(w.db, w.phase.due[0], w.phase.now);
  }

  /** What recording an outcome does: sent without an error, failed with one after five attempts, pending again otherwise. */
  lemma {:induction false} RecordDecides(db: Store, s: Slot, error: bool, clock: real)
    requires s in db.deliveries
    ensures var (row, after) := (db.deliveries[s], Recorded(db, s, error, clock));
            && s in after.deliveries
            && var row' := after.deliveries[s];
            && after == db.(deliveries := db.deliveries[s := row'])
            && row'.device == row.device && row'.attempts == row.attempts && row'.error == error
            && (row'.status == Sent <==> !error)
            && (row'.status == Failed <==> error && row.attempts >= 5)
            && (row'.status == Pending <==> error && row.attempts < 5)
            && clock + 30.0 <= row'.nextAttempt && row'.nextAttempt <= clock + 900.0
            && row'.nextAttempt == clock + Backoff(row.attempts) as real
  {
    BackoffRange(db.deliveries[s].attempts);
  }

  lemma {:induction false} BackoffRange(n: nat)
    ensures 30 <= Backoff(n) <= 900
  {
    if n > 1 {
      BackoffRange(n - 1);
      BackoffDoubles(n - 1);
    }
  }

  // ---------------------------------------------------------------- retention and early ends

  /** Retention deletes exactly the processed events, the settled deliveries and the reported windows from before the
      cutoff. */
  lemma {:induction false} RetentionDeletes(db: Store, cutoff: real)
    ensures var after := Maintained(db, cutoff);
            && (forall e :: e in after.events <==>
                  (e in db.events && (db.events[e].ts >= cutoff || !db.events[e].processed)))
            && (forall s :: s in after.deliveries <==>
                  (s in db.deliveries && (db.deliveries[s].nextAttempt >= cutoff || db.deliveries[s].status == Pending)))
            && (forall n :: n in after.windows <==>
                  (n in db.windows && (db.windows[n].end >= cutoff || !db.windows[n].summarized)))
            && (forall e :: e in after.events ==> after.events[e] == db.events[e])
            && (forall s :: s in after.deliveries ==> after.deliveries[s] == db.deliveries[s])
            && (forall n :: n in after.windows ==> after.windows[n] == db.windows[n])
            && after.channels == db.channels && after.devices == db.devices && after.unresolved == db.unresolved
  {
  }

  /** Ending a window by hand: it covers no later time and every time it covered before still; one that never began is
      deleted, and the others stay as they were. */
  lemma {:induction false} EndedCovers(windows: map<nat, Window>, id: nat, clock: real, t: real)
    ensures var after := Ended(windows, id, clock);
            && (forall n :: n != id ==> Lookup(after, n) == Lookup(windows, n))
            && (id in after <==> id in windows && windows[id].start <= clock)
            && (id in after ==>
                  && after[id] == windows[id].(end := after[id].end)
                  && (after[id].start <= t < after[id].end <==> windows[id].start <= t < windows[id].end && t < clock)
                  && (after[id].end <= clock))
  {
  }
}
