/** Every run of the notification queue, with a crash allowed between any two transactions. */
module NotificationRuns {
  import opened Options
  import opened Notifications

  /** Where the single notifier task is: between ticks, about to select due rows, working through them, about to send, or
      about to record. */
  datatype Phase =
    | Idle
    | Selecting(now: real)
    | Handling(due: seq<Slot>, now: real)
    | Sending(slot: Slot, rest: seq<Slot>, now: real)
    | Recording(slot: Slot, error: bool, rest: seq<Slot>, now: real)

  /** The tables, the notifier, and the past: ids ever used, how often each slot was created, claimed and sent, and the
      audience each decided event was given. */
  datatype World = World(
    db: Store,
    phase: Phase,
    usedEvents: set<nat>,
    usedWindows: set<nat>,
    usedTests: set<nat>,
    created: map<Slot, nat>,
    claims: map<Slot, nat>,
    sends: map<Slot, nat>,
    audience: map<nat, set<nat>>)

  const Initial := World(Store(map[], map[], map[], map[], map[], map[]), Idle, {}, {}, {}, map[], map[], map[], map[])

  function Count(m: map<Slot, nat>, s: Slot): nat
  {
    if s in m then m[s] else 0
  }

  datatype Step =
    // the rest of the application
    | SetChannel(channel: nat, value: Option<Channel>)
    | SetDevice(id: string, device: Option<Device>)
    | SetUnresolved(unresolved: map<nat, string>)
    | AddEvent(event: nat, row: FleetEvent)
    | AddWindow(window: nat, added: Window)
    | EndWindow(window: nat, clock: real)
    | AddTest(n: nat, channel: nat, clock: real)
    | Maintain(cutoff: real)
    // the notifier
    | Decide(batch: set<nat>, now: real)
    | Select(due: seq<Slot>)
    | Claim
    | Send(invoked: bool, ok: bool)
    | Record(clock: real)
    | Finish
    | Crash

  predicate Fresh(w: World, step: Step)
  {
    match step
    case AddEvent(e, row) => e !in w.usedEvents && !row.processed
    case AddWindow(n, row) => n !in w.usedWindows && !row.summarized
    case AddTest(n, _, _) => n !in w.usedTests
    case _ => true
  }

  ghost predicate Enabled(w: World, step: Step)
  {
    && Fresh(w, step)
    && match step
       case Decide(batch, now) => w.phase.Idle? && IsBatch(w.db, batch)
       case Select(due) => w.phase.Selecting? && IsDueList(w.db, due, w.phase.now)
       case Claim => w.phase.Handling? && w.phase.due != [] && w.phase.due[0] in w.db.deliveries
       case Send(invoked, ok) => w.phase.Sending? && (ok ==> invoked)
       case Record(_) => w.phase.Recording? && w.phase.slot in w.db.deliveries
       case Finish => w.phase.Handling? && w.phase.due == []
       case _ => true
  }

  /** `end_window`: a window that has not started is deleted, any other ends now at the latest. */
  function Ended(windows: map<nat, Window>, id: nat, clock: real): map<nat, Window>
  {
    if id !in windows then windows
    else if windows[id].start > clock then windows - {id}
    else if clock < windows[id].end then windows[id := windows[id].(end := clock)]
    else windows
  }

  function NewSlots(before: Store, after: Store): set<Slot>
  {
    after.deliveries.Keys - before.deliveries.Keys
  }

  function Bumped(m: map<Slot, nat>, slots: set<Slot>): map<Slot, nat>
  {
    m + map s | s in slots :: Count(m, s) + 1
  }

  function Exec(w: World, step: Step): World
    requires step.Select? ==> w.phase.Selecting?
    requires step.Claim? ==> w.phase.Handling? && w.phase.due != [] && w.phase.due[0] in w.db.deliveries
    requires step.Send? ==> w.phase.Sending?
    requires step.Record? ==> w.phase.Recording? && w.phase.slot in w.db.deliveries
  {
    match step
    case SetChannel(c, value) => w.(db := w.db.(channels := Update(w.db.channels, c, value)))
    case SetDevice(id, device) => w.(db := w.db.(devices := Update(w.db.devices, id, device)))
    case SetUnresolved(unresolved) => w.(db := w.db.(unresolved := unresolved))
    case AddEvent(e, row) => w.(db := w.db.(events := w.db.events[e := row]), usedEvents := w.usedEvents + {e})
    case AddWindow(n, row) =>
      w.(db := w.db.(windows := w.db.windows[n := row]), usedWindows := w.usedWindows + {n})
    case EndWindow(n, clock) => w.(db := w.db.(windows := Ended(w.db.windows, n, clock)))
    case AddTest(n, c, clock) =>
      w.(db := w.db.(deliveries := w.db.deliveries[Slot(Test(n), c) := Delivery("", Pending, 0, clock, false)]),
         usedTests := w.usedTests + {n},
         created := Bumped(w.created, {Slot(Test(n), c)}))
    case Maintain(cutoff) => w.(db := Maintained(w.db, cutoff))
    case Decide(batch, now) =>
      var db := Tick(w.db, batch, now);
      w.(db := db,
         phase := Selecting(now),
         created := Bumped(w.created, NewSlots(w.db, db)),
         audience := w.audience + Audiences(w.db, batch, now))
    case Select(due) => w.(phase := Handling(due, w.phase.now))
    case Claim =>
      var s := w.phase.due[0];
      w.(db := Claimed(w.db, s, w.phase.now),
         claims := Bumped(w.claims, {s}),
         phase := if Judge(w.db, s, w.phase.now).Attempt? then Sending(s, w.phase.due[1..], w.phase.now)
                  else Handling(w.phase.due[1..], w.phase.now))
    case Send(invoked, ok) =>
      w.(sends := if invoked then Bumped(w.sends, {w.phase.slot}) else w.sends,
         phase := Recording(w.phase.slot, !ok, w.phase.rest, w.phase.now))
    case Record(clock) =>
      w.(db := Recorded(w.db, w.phase.slot, w.phase.error, clock), phase := Handling(w.phase.rest, w.phase.now))
    case Finish => w.(phase := Idle)
    case Crash => w.(phase := Idle)
  }

  // ---------------------------------------------------------------- invariant

  predicate InFlight(p: Phase, s: Slot)
  {
    match p
    case Idle => false
    case Selecting(_) => false
    case Handling(due, _) => s in due
    case Sending(slot, rest, _) => s == slot || s in rest
    case Recording(slot, _, rest, _) => s == slot || s in rest
  }

  predicate DistinctWork(p: Phase)
  {
    match p
    case Idle => true
    case Selecting(_) => true
    case Handling(due, _) => Distinct(due)
    case Sending(slot, rest, _) => Distinct(rest) && slot !in rest
    case Recording(slot, _, rest, _) => Distinct(rest) && slot !in rest
  }

  predicate Distinct(slots: seq<Slot>)
  {
    forall i, j :: 0 <= i < j < |slots| ==> slots[i] != slots[j]
  }

  /** The counting laws of one stored row. */
  predicate RowOk(w: World, s: Slot)
    requires s in w.db.deliveries
  {
    var row := w.db.deliveries[s];
    && row.attempts <= 5
    && Count(w.created, s) == 1
    && Count(w.sends, s) + (if w.phase.Sending? && w.phase.slot == s then 1 else 0) <= row.attempts
    && (row.status == Pending ==> Count(w.claims, s) == row.attempts)
    && Count(w.claims, s) <= row.attempts + 1
    && (row.status == Sent ==> Count(w.sends, s) >= 1)
  }

  /** What the notifier holds is stored and pending. */
  ghost predicate WorkOk(w: World)
  {
    && DistinctWork(w.phase)
    && (forall s :: InFlight(w.phase, s) ==> s in w.db.deliveries && w.db.deliveries[s].status == Pending)
    && (w.phase.Recording? && !w.phase.error ==> Count(w.sends, w.phase.slot) >= 1)
  }

  ghost predicate CountOk(w: World)
  {
    && (forall s :: s in w.db.deliveries ==> RowOk(w, s))
    && (forall s :: Count(w.created, s) <= 1 && Count(w.sends, s) <= 5 && Count(w.claims, s) <= 6)
    && (forall s :: Count(w.created, s) == 0 ==> Count(w.sends, s) == 0 && Count(w.claims, s) == 0)
  }

  /** Nothing exists for an event, window or test that has not been decided, summarised or asked for. */
  ghost predicate OriginOk(w: World)
  {
    && (forall s :: Count(w.created, s) > 0 && s.event.Test? ==> s.event.n in w.usedTests)
    && (forall s :: Count(w.created, s) > 0 && s.event.Summary? ==>
          s.event.window in w.usedWindows
          && (s.event.window in w.db.windows ==> w.db.windows[s.event.window].summarized))
    && (forall n :: n in w.db.windows ==> n in w.usedWindows)
  }

  /** An event is stored and unprocessed, or decided; a decided event has exactly its audience's deliveries. */
  ghost predicate DecisionOk(w: World)
  {
    && (forall e :: e in w.db.events ==> e in w.usedEvents)
    && (forall e :: e in w.audience ==> e in w.usedEvents)
    && (forall e :: e in w.usedEvents ==> (Unprocessed(w.db, e) <==> e !in w.audience))
    && (forall s: Slot :: s.event.Alarm? ==>
          (Count(w.created, s) == 1 <==> s.event.event in w.audience && s.channel in w.audience[s.event.event]))
  }

  ghost predicate Inv(w: World)
  {
    WorkOk(w) && CountOk(w) && OriginOk(w) && DecisionOk(w)
  }

  // ---------------------------------------------------------------- preservation

  /** Steps that create nothing and leave events and windows alone keep what is decided. */
  lemma {:induction false} SameDecisions(w: World, w': World)
    requires OriginOk(w) && DecisionOk(w)
    requires w'.created == w.created && w'.audience == w.audience && w'.usedEvents == w.usedEvents
    requires w'.usedTests == w.usedTests && w'.usedWindows == w.usedWindows
    requires w'.db.windows == w.db.windows && w'.db.events == w.db.events
    ensures OriginOk(w') && DecisionOk(w')
  {
    assert forall e :: Unprocessed(w'.db, e) <==> Unprocessed(w.db, e);
  }

  lemma {:induction false} BumpedCount(m: map<Slot, nat>, slots: set<Slot>, s: Slot)
    ensures Count(Bumped(m, slots), s) == Count(m, s) + if s in slots then 1 else 0
  {
  }

  /** Deciding creates exactly the called slots, none of which ever existed. */
  lemma {:induction false} DecideCreates(w: World, batch: set<nat>, now: real, s: Slot)
    requires Inv(w) && IsBatch(w.db, batch)
    ensures var (db, called) := (Tick(w.db, batch, now), Called(Audiences(w.db, batch, now), Summaries(w.db, now), s));
            && (s in NewSlots(w.db, db) <==> called)
            && (called ==> Count(w.created, s) == 0 && db.deliveries[s] == NewDelivery(PayloadDevice(w.db.events, s)))
            && (s in w.db.deliveries ==> s in db.deliveries && db.deliveries[s] == w.db.deliveries[s])
  {
    if Called(Audiences(w.db, batch, now), Summaries(w.db, now), s) {
      match s.event {
        case Alarm(e) => assert Unprocessed(w.db, e);
        case Summary(n) => assert NeedsSummary(w.db, n, now);
      }
      assert Count(w.created, s) == 0;
      assert s in w.db.deliveries ==> RowOk(w, s);
    }
  }

  lemma {:induction false} DecideKeepsInv(w: World, batch: set<nat>, now: real)
    requires Inv(w) && Enabled(w, Decide(batch, now))
    ensures Inv(Exec(w, Decide(batch, now)))
  {
    DecideKeepsCounts(w, batch, now);
    DecideKeepsOrigins(w, batch, now);
    DecideKeepsDecisions(w, batch, now);
    assert WorkOk(Exec(w, Decide(batch, now)));
  }

  lemma {:induction false} DecideKeepsOrigins(w: World, batch: set<nat>, now: real)
    requires Inv(w) && Enabled(w, Decide(batch, now))
    ensures OriginOk(Exec(w, Decide(batch, now)))
  {
    var w' := Exec(w, Decide(batch, now));
    forall s
      ensures Count(w'.created, s)
              == Count(w.created, s) + if Called(Audiences(w.db, batch, now), Summaries(w.db, now), s) then 1 else 0
    {
      DecideCreates(w, batch, now, s);
      BumpedCount(w.created, NewSlots(w.db, w'.db), s);
    }
  }

  lemma {:induction false} SelectKeepsInv(w: World, due: seq<Slot>)
    requires Inv(w) && Enabled(w, Select(due))
    ensures Inv(Exec(w, Select(due)))
  {
    var w' := Exec(w, Select(due));
    forall s | InFlight(w'.phase, s)
      ensures s in w'.db.deliveries && w'.db.deliveries[s].status == Pending
    {
      var i :| 0 <= i < |due| && due[i] == s;
      assert Due(w.db, due[i], w.phase.now);
    }
    forall t | t in w'.db.deliveries
      ensures RowOk(w', t)
    {
      assert RowOk(w, t);
    }
    SameDecisions(w, w');
  }

  lemma {:induction false} DecideKeepsRow(w: World, batch: set<nat>, now: real, s: Slot)
    requires Inv(w) && Enabled(w, Decide(batch, now))
    ensures var w' := Exec(w, Decide(batch, now));
            && (s in w'.db.deliveries ==> RowOk(w', s))
            && Count(w.created, s) <= Count(w'.created, s) <= 1
  {
    var w' := Exec(w, Decide(batch, now));
    DecideCreates(w, batch, now, s);
    BumpedCount(w.created, NewSlots(w.db, w'.db), s);
    RowCarried(w, w', s);
  }

  /** A row that was there stays good, and a row that never existed starts good. */
  lemma {:induction false} RowCarried(w: World, w': World, s: Slot)
    requires CountOk(w) && w'.sends == w.sends && w'.claims == w.claims && !w'.phase.Sending?
    requires s in w.db.deliveries ==> s in w'.db.deliveries && w'.db.deliveries[s] == w.db.deliveries[s]
    requires s in w'.db.deliveries && s !in w.db.deliveries ==>
               Count(w.created, s) == 0 && w'.db.deliveries[s].status == Pending && w'.db.deliveries[s].attempts == 0
    requires Count(w'.created, s)
             == Count(w.created, s) + if s in w'.db.deliveries && s !in w.db.deliveries then 1 else 0
    ensures s in w'.db.deliveries ==> RowOk(w', s)
    ensures Count(w'.created, s) <= 1
  {
    assert s in w.db.deliveries ==> RowOk(w, s);
  }

  lemma {:induction false} DecideKeepsCounts(w: World, batch: set<nat>, now: real)
    requires Inv(w) && Enabled(w, Decide(batch, now))
    ensures CountOk(Exec(w, Decide(batch, now)))
  {
    var w' := Exec(w, Decide(batch, now));
    forall s
      ensures s in w'.db.deliveries ==> RowOk(w', s)
      ensures Count(w.created, s) <= Count(w'.created, s) <= 1
    {
      DecideKeepsRow(w, batch, now, s);
    }
  }

  lemma {:induction false} DecideKeepsAudience(w: World, batch: set<nat>, now: real, s: Slot)
    requires Inv(w) && Enabled(w, Decide(batch, now)) && s.event.Alarm?
    ensures var w' := Exec(w, Decide(batch, now));
            Count(w'.created, s) == 1 <==> s.event.event in w'.audience && s.channel in w'.audience[s.event.event]
  {
    var w' := Exec(w, Decide(batch, now));
    DecideCreates(w, batch, now, s);
    BumpedCount(w.created, NewSlots(w.db, w'.db), s);
    if s.event.event in batch {
      assert Unprocessed(w.db, s.event.event);
    }
  }

  lemma {:induction false} DecideKeepsDecisions(w: World, batch: set<nat>, now: real)
    requires Inv(w) && Enabled(w, Decide(batch, now))
    ensures DecisionOk(Exec(w, Decide(batch, now)))
  {
    var w' := Exec(w, Decide(batch, now));
    forall e | e in batch
      ensures e in w.db.events && e in w.usedEvents
    {
      assert Unprocessed(w.db, e);
    }
    forall s: Slot | s.event.Alarm?
      ensures Count(w'.created, s) == 1 <==> s.event.event in w'.audience && s.channel in w'.audience[s.event.event]
    {
      DecideKeepsAudience(w, batch, now, s);
    }
    forall e | e in w'.usedEvents
      ensures Unprocessed(w'.db, e) <==> e !in w'.audience
    {
      assert Unprocessed(w.db, e) <==> e !in w.audience;
    }
  }

  /** Claiming leaves every row good, and all but the claimed one as they were. */
  lemma {:induction false} ClaimKeepsRow(w: World, t: Slot)
    requires Inv(w) && Enabled(w, Claim)
    ensures var w' := Exec(w, Claim);
            && Count(w'.claims, t) == Count(w.claims, t) + (if t == w.phase.due[0] then 1 else 0)
            && (t in w'.db.deliveries <==> t in w.db.deliveries)
            && (t in w'.db.deliveries ==> RowOk(w', t))
            && (t in w'.db.deliveries && t != w.phase.due[0] ==> w'.db.deliveries[t] == w.db.deliveries[t])
  {
    var s := w.phase.due[0];
    BumpedCount(w.claims, {s}, t);
    ClaimedRow(w.db, s, w.phase.now, t);
    if t == s {
      ClaimKeepsOwnRow(w);
    } else {
      assert t in w.db.deliveries ==> RowOk(w, t);
    }
  }

  lemma {:induction false} ClaimKeepsOwnRow(w: World)
    requires Inv(w) && Enabled(w, Claim)
    ensures RowOk(Exec(w, Claim), w.phase.due[0])
  {
    var s := w.phase.due[0];
    BumpedCount(w.claims, {s}, s);
    assert InFlight(w.phase, s);
    assert RowOk(w, s);
  }

  lemma {:induction false} ClaimedRow(db: Store, s: Slot, now: real, t: Slot)
    requires s in db.deliveries
    ensures var db' := Claimed(db, s, now);
            && (t in db'.deliveries <==> t in db.deliveries)
            && (t in db.deliveries && t != s ==> db'.deliveries[t] == db.deliveries[t])
  {
  }

  lemma {:induction false} Tail(due: seq<Slot>)
    requires due != [] && Distinct(due)
    ensures Distinct(due[1..]) && due[0] !in due[1..] && forall t :: t in due[1..] ==> t in due
  {
  }

  lemma {:induction false} ClaimKeepsWork(w: World)
    requires Inv(w) && Enabled(w, Claim)
    ensures WorkOk(Exec(w, Claim))
  {
    var w' := Exec(w, Claim);
    Tail(w.phase.due);
    forall t | InFlight(w'.phase, t)
      ensures t in w'.db.deliveries && w'.db.deliveries[t].status == Pending
    {
      assert InFlight(w.phase, t);
      ClaimedRow(w.db, w.phase.due[0], w.phase.now, t);
    }
  }

  lemma {:induction false} ClaimKeepsInv(w: World)
    requires Inv(w) && Enabled(w, Claim)
    ensures Inv(Exec(w, Claim))
  {
    var w' := Exec(w, Claim);
    var s := w.phase.due[0];
    ClaimKeepsWork(w);
    assert InFlight(w.phase, s);
    forall t
      ensures Count(w'.claims, t) == Count(w.claims, t) + if t == s then 1 else 0
      ensures t in w'.db.deliveries ==> RowOk(w', t)
    {
      ClaimKeepsRow(w, t);
    }
    ClaimKeepsCounts(w, w', s);
    SameDecisions(w, w');
  }

  lemma {:induction false} ClaimKeepsCounts(w: World, w': World, s: Slot)
    requires CountOk(w) && s in w.db.deliveries && w.db.deliveries[s].status == Pending
    requires w'.created == w.created && w'.sends == w.sends
    requires forall t :: Count(w'.claims, t) == Count(w.claims, t) + if t == s then 1 else 0
    requires forall t :: t in w'.db.deliveries ==> RowOk(w', t)
    ensures CountOk(w')
  {
    assert RowOk(w, s);
  }

  lemma {:induction false} SendKeepsRow(w: World, invoked: bool, ok: bool, t: Slot)
    requires Inv(w) && Enabled(w, Send(invoked, ok))
    ensures var w' := Exec(w, Send(invoked, ok));
            && Count(w'.sends, t) == Count(w.sends, t) + (if t == w.phase.slot && invoked then 1 else 0)
            && (t in w'.db.deliveries ==> RowOk(w', t))
  {
    BumpedCount(w.sends, {w.phase.slot}, t);
    assert t in w.db.deliveries ==> RowOk(w, t);
  }

  lemma {:induction false} SendKeepsInv(w: World, invoked: bool, ok: bool)
    requires Inv(w) && Enabled(w, Send(invoked, ok))
    ensures Inv(Exec(w, Send(invoked, ok)))
  {
    var w' := Exec(w, Send(invoked, ok));
    var s := w.phase.slot;
    assert InFlight(w.phase, s);
    assert RowOk(w, s);
    forall t
      ensures Count(w'.sends, t) == Count(w.sends, t) + if t == s && invoked then 1 else 0
      ensures t in w'.db.deliveries ==> RowOk(w', t)
    {
      SendKeepsRow(w, invoked, ok, t);
    }
    forall t | InFlight(w'.phase, t)
      ensures t in w'.db.deliveries && w'.db.deliveries[t].status == Pending
    {
      assert InFlight(w.phase, t);
    }
    SameDecisions(w, w');
  }

  lemma {:induction false} RecordKeepsInv(w: World, clock: real)
    requires Inv(w) && Enabled(w, Record(clock))
    ensures Inv(Exec(w, Record(clock)))
  {
    var w' := Exec(w, Record(clock));
    var s := w.phase.slot;
    assert InFlight(w.phase, s);
    forall t | t in w'.db.deliveries
      ensures RowOk(w', t)
    {
      assert RowOk(w, t);
    }
    forall t | InFlight(w'.phase, t)
      ensures t in w'.db.deliveries && w'.db.deliveries[t].status == Pending
    {
      assert InFlight(w.phase, t) && t != s;
    }
    SameDecisions(w, w');
  }

  /** Stopping, whether at the end of the list or by a crash, forgets the work in hand and nothing else. */
  lemma {:induction false} StopKeepsInv(w: World, step: Step)
    requires Inv(w) && (step.Finish? || step.Crash?)
    ensures Inv(Exec(w, step))
  {
    var w' := Exec(w, step);
    forall t | t in w'.db.deliveries
      ensures RowOk(w', t)
    {
      assert RowOk(w, t);
    }
    SameDecisions(w, w');
  }

  /** Retention deletes only rows that are done with. */
  lemma {:induction false} MaintainKeepsInv(w: World, cutoff: real)
    requires Inv(w)
    ensures Inv(Exec(w, Maintain(cutoff)))
  {
    var w' := Exec(w, Maintain(cutoff));
    forall t | t in w'.db.deliveries
      ensures RowOk(w', t)
    {
      assert RowOk(w, t);
    }
    assert forall e :: Unprocessed(w'.db, e) <==> Unprocessed(w.db, e);
  }

  /** A test's slot was never used. */
  lemma {:induction false} UnusedTest(w: World, s: Slot)
    requires Inv(w) && s.event.Test? && s.event.n !in w.usedTests
    ensures Count(w.created, s) == 0 && s !in w.db.deliveries && (w.phase.Sending? ==> w.phase.slot != s)
  {
    assert s in w.db.deliveries ==> RowOk(w, s);
    assert w.phase.Sending? ==> InFlight(w.phase, w.phase.slot);
  }

  lemma {:induction false} TestKeepsCounts(w: World, n: nat, channel: nat, clock: real) returns (w': World, s: Slot)
    requires Inv(w) && n !in w.usedTests
    ensures w' == Exec(w, AddTest(n, channel, clock)) && s == Slot(Test(n), channel)
    ensures CountOk(w') && s !in w.db.deliveries
    ensures forall t :: Count(w'.created, t) == Count(w.created, t) + if t == s then 1 else 0
  {
    w', s := Exec(w, AddTest(n, channel, clock)), Slot(Test(n), channel);
    UnusedTest(w, s);
    assert w'.created == Bumped(w.created, {s});
    assert w'.db.deliveries == w.db.deliveries[s := Delivery("", Pending, 0, clock, false)];
    TestCounted(w, w', s);
  }

  lemma {:induction false} TestCounted(w: World, w': World, s: Slot)
    requires CountOk(w) && Count(w.created, s) == 0 && s !in w.db.deliveries && s in w'.db.deliveries
    requires w'.phase == w.phase && w'.sends == w.sends && w'.claims == w.claims
    requires w.phase.Sending? ==> w.phase.slot != s
    requires w'.created == Bumped(w.created, {s})
    requires w'.db.deliveries == w.db.deliveries[s := w'.db.deliveries[s]]
    requires w'.db.deliveries[s].status == Pending && w'.db.deliveries[s].attempts == 0
    ensures CountOk(w')
    ensures forall t :: Count(w'.created, t) == Count(w.created, t) + if t == s then 1 else 0
  {
    forall t
      ensures Count(w'.created, t) == Count(w.created, t) + if t == s then 1 else 0
    {
      BumpedCount(w.created, {s}, t);
    }
    NewRowCounts(w, w', s);
  }

  lemma {:induction false} NewRowCounts(w: World, w': World, s: Slot)
    requires CountOk(w) && Count(w.created, s) == 0 && s !in w.db.deliveries
    requires w'.phase == w.phase && w'.sends == w.sends && w'.claims == w.claims
    requires w.phase.Sending? ==> w.phase.slot != s
    requires forall t :: Count(w'.created, t) == Count(w.created, t) + if t == s then 1 else 0
    requires w'.db.deliveries.Keys == w.db.deliveries.Keys + {s}
    requires forall t :: t in w.db.deliveries ==> w'.db.deliveries[t] == w.db.deliveries[t]
    requires w'.db.deliveries[s].status == Pending && w'.db.deliveries[s].attempts == 0
    ensures CountOk(w')
  {
    forall t | t in w'.db.deliveries
      ensures RowOk(w', t)
    {
      assert t != s ==> RowOk(w, t);
    }
  }

  lemma {:induction false} TestKeepsInv(w: World, n: nat, channel: nat, clock: real)
    requires Inv(w) && n !in w.usedTests
    ensures Inv(Exec(w, AddTest(n, channel, clock)))
  {
    var w', s := TestKeepsCounts(w, n, channel, clock);
    TestKeepsDecisions(w, w', s);
    assert WorkOk(w');
  }

  lemma {:induction false} TestKeepsDecisions(w: World, w': World, s: Slot)
    requires OriginOk(w) && DecisionOk(w) && s.event.Test?
    requires forall t :: Count(w'.created, t) == Count(w.created, t) + if t == s then 1 else 0
    requires w'.audience == w.audience && w'.usedEvents == w.usedEvents && w'.usedTests == w.usedTests + {s.event.n}
    requires w'.usedWindows == w.usedWindows && w'.db.windows == w.db.windows && w'.db.events == w.db.events
    ensures OriginOk(w') && DecisionOk(w')
  {
    assert forall e :: Unprocessed(w'.db, e) <==> Unprocessed(w.db, e);
  }

  lemma {:induction false} AddEventKeepsInv(w: World, e: nat, row: FleetEvent)
    requires Inv(w) && Fresh(w, AddEvent(e, row))
    ensures Inv(Exec(w, AddEvent(e, row)))
  {
    var w' := Exec(w, AddEvent(e, row));
    forall t | t in w'.db.deliveries
      ensures RowOk(w', t)
    {
      assert RowOk(w, t);
    }
    assert forall d :: d != e ==> (Unprocessed(w'.db, d) <==> Unprocessed(w.db, d));
  }

  /** Channels, devices, alerts and windows may change under the queue at any time. */
  lemma {:induction false} SettingsKeepInv(w: World, step: Step)
    requires Inv(w) && Fresh(w, step)
    requires step.SetChannel? || step.SetDevice? || step.SetUnresolved? || step.AddWindow? || step.EndWindow?
    ensures Inv(Exec(w, step))
  {
    SameQueue(w, Exec(w, step));
  }

  lemma {:induction false} SameQueue(w: World, w': World)
    requires Inv(w)
    requires w' == w.(db := w'.db, usedWindows := w'.usedWindows)
    requires w'.db.deliveries == w.db.deliveries && w'.db.events == w.db.events
    requires w.usedWindows <= w'.usedWindows && forall n :: n in w'.db.windows ==> n in w'.usedWindows
    requires forall n :: n in w'.db.windows && n in w.usedWindows ==>
               n in w.db.windows && w'.db.windows[n].summarized == w.db.windows[n].summarized
    ensures Inv(w')
  {
    forall t | t in w'.db.deliveries
      ensures RowOk(w', t)
    {
      assert RowOk(w, t);
    }
    assert forall e :: Unprocessed(w'.db, e) <==> Unprocessed(w.db, e);
  }

  lemma {:induction false} StepKeepsInv(w: World, step: Step)
    requires Inv(w) && Enabled(w, step)
    ensures Inv(Exec(w, step))
  {
    match step
    case AddEvent(e, row) => AddEventKeepsInv(w, e, row);
    case AddTest(n, channel, clock) => TestKeepsInv(w, n, channel, clock);
    case Maintain(cutoff) => MaintainKeepsInv(w, cutoff);
    case Decide(batch, now) => DecideKeepsInv(w, batch, now);
    case Select(due) => SelectKeepsInv(w, due);
    case Claim => ClaimKeepsInv(w);
    case Send(invoked, ok) => SendKeepsInv(w, invoked, ok);
    case Record(clock) => RecordKeepsInv(w, clock);
    case Finish => StopKeepsInv(w, step);
    case Crash => StopKeepsInv(w, step);
    case _ => SettingsKeepInv(w, step);
  }

  ghost predicate IsRun(steps: seq<Step>)
    decreases |steps|, 0
  {
    steps == [] || (IsRun(steps[..|steps| - 1]) && Enabled(After(steps[..|steps| - 1]), steps[|steps| - 1]))
  }

  ghost function After(steps: seq<Step>): World
    requires IsRun(steps)
    decreases |steps|, 1
  {
    if steps == [] then Initial else Exec(After(steps[..|steps| - 1]), steps[|steps| - 1])
  }

  lemma {:induction false} RunKeepsInv(steps: seq<Step>)
    requires IsRun(steps)
    ensures Inv(After(steps))
  {
    if steps != [] {
      RunKeepsInv(steps[..|steps| - 1]);
      StepKeepsInv(After(steps[..|steps| - 1]), steps[|steps| - 1]);
    }
  }

  // ---------------------------------------------------------------- main results

  /** In every run, crashes included: no slot is created twice, sent more than five times, or handled more than six;
      a stored row was sent at most once per committed attempt, a row marked sent was sent, and a pending row has used
      one attempt per handling, so the sixth handling ends it. */
  lemma {:induction false} DeliveryBounded(steps: seq<Step>, s: Slot)
    requires IsRun(steps)
    ensures Count(After(steps).created, s) <= 1
    ensures Count(After(steps).sends, s) <= 5 && Count(After(steps).claims, s) <= 6
    ensures s in After(steps).db.deliveries ==>
              var row := After(steps).db.deliveries[s];
              && Count(After(steps).sends, s) <= row.attempts <= 5
              && (row.status == Sent ==> Count(After(steps).sends, s) >= 1)
              && (row.status == Pending ==> Count(After(steps).claims, s) == row.attempts)
  {
    RunKeepsInv(steps);
    assert s in After(steps).db.deliveries ==> RowOk(After(steps), s);
  }

  /** Handlings a row may still need. */
  function Measure(row: Delivery): int
  {
    if row.status == Pending then 6 - row.attempts else 0
  }

  /** The row's measure has not risen; settled, the row is as it was; pending, it is still there. */
  predicate Progressed(before: Delivery, after: map<Slot, Delivery>, s: Slot)
  {
    && (before.status == Pending ==> s in after)
    && (s in after ==>
          && 0 <= Measure(after[s]) <= Measure(before)
          && (before.status != Pending ==> after[s] == before))
  }

  /** No step ever raises a row's measure, each handling lowers it, a settled row never changes again, and a pending row
      is never deleted. */
  lemma {:induction false} RowsProgress(w: World, step: Step, s: Slot)
    requires Inv(w) && Enabled(w, step) && s in w.db.deliveries
    ensures Progressed(w.db.deliveries[s], Exec(w, step).db.deliveries, s)
    ensures step.Claim? && w.phase.due[0] == s ==>
              s in Exec(w, step).db.deliveries && Measure(Exec(w, step).db.deliveries[s]) < Measure(w.db.deliveries[s])
  {
    assert RowOk(w, s);
    match step
    case Decide(batch, now) => DecideCreates(w, batch, now, s);
    case AddTest(n, channel, clock) => UnusedTest(w, Slot(Test(n), channel));
    case Claim => ClaimProgress(w, s);
    case Record(clock) => RecordProgress(w, clock, s);
    case _ =>
  }

  lemma {:induction false} RecordProgress(w: World, clock: real, s: Slot)
    requires Inv(w) && Enabled(w, Record(clock)) && s in w.db.deliveries
    ensures Progressed(w.db.deliveries[s], Exec(w, Record(clock)).db.deliveries, s)
  {
    assert RowOk(w, s);
    assert InFlight(w.phase, w.phase.slot);
  }

  lemma {:induction false} ClaimProgress(w: World, s: Slot)
    requires Inv(w) && Enabled(w, Claim) && s in w.db.deliveries
    ensures var after := Exec(w, Claim).db.deliveries;
            && s in after && Progressed(w.db.deliveries[s], after, s)
            && (w.phase.due[0] == s ==> Measure(after[s]) < Measure(w.db.deliveries[s]))
  {
    assert RowOk(w, s);
    assert InFlight(w.phase, w.phase.due[0]);
  }
}
