/** The durable notification queue (sparkscope/notifications.py): its transactions as functions on the tables. */
module Notifications {
  import opened Options

  /** Delivery event ids: a fleet event, `maintenance-<window>`, or `test-<n>`. */
  datatype EventId = Alarm(event: nat) | Summary(window: nat) | Test(n: nat)

  /** The unique constraint `uq_notification_event_channel`. */
  datatype Slot = Slot(event: EventId, channel: nat)

  /** Empty fields of a scope match everything. */
  datatype Scope = Scope(devices: set<string>, group: string, cluster: string)

  datatype Device = Device(id: string, group: string, cluster: Option<string>)

  datatype Channel = Channel(enabled: bool, enabledSince: Option<real>)

  datatype Window = Window(scope: Scope, start: real, end: real, summarized: bool)

  datatype FleetEvent = FleetEvent(kind: string, device: string, ts: real, processed: bool)

  datatype Status = Pending | Sent | Failed | Cancelled | Suppressed

  /** `device` is the payload's `device_id`, empty when the payload has none. */
  datatype Delivery = Delivery(device: string, status: Status, attempts: nat, nextAttempt: real, error: bool)

  /** `unresolved` maps the ids of unresolved alerts to their devices. */
  datatype Store = Store(
    channels: map<nat, Channel>,
    windows: map<nat, Window>,
    devices: map<string, Device>,
    unresolved: map<nat, string>,
    events: map<nat, FleetEvent>,
    deliveries: map<Slot, Delivery>)

  // ---------------------------------------------------------------- matching

  function Matches(scope: Scope, device: Option<Device>): bool
  {
    match device
    case None => false
    case Some(d) =>
      && (scope.devices == {} || d.id in scope.devices)
      && (scope.group == "" || d.group == scope.group)
      && (scope.cluster == "" || d.cluster == Some(scope.cluster))
  }

  predicate IsAlarm(e: FleetEvent)
  {
    e.kind in {"alarm.open", "alarm.escalate", "alarm.resolve"}
  }

  /** Some window was open over the event, or is open now, on a device it matches. */
  predicate CoveredAt(db: Store, device: string, t: real)
  {
    exists w :: w in db.windows && db.windows[w].start <= t < db.windows[w].end
                && Matches(db.windows[w].scope, Lookup(db.devices, device))
  }

  predicate Eligible(c: Channel, ts: real, now: real)
  {
    c.enabled && ts >= if c.enabledSince.Some? then c.enabledSince.value else now
  }

  // ---------------------------------------------------------------- deciding

  predicate Unprocessed(db: Store, e: nat)
  {
    e in db.events && !db.events[e].processed
  }

  predicate Precedes(db: Store, a: nat, b: nat)
    requires a in db.events && b in db.events
  {
    db.events[a].ts < db.events[b].ts || (db.events[a].ts == db.events[b].ts && a < b)
  }

  /** The first 200 unprocessed events by time and id. */
  ghost predicate IsBatch(db: Store, batch: set<nat>)
  {
    && (forall e :: e in batch ==> Unprocessed(db, e))
    && |batch| <= 200
    && (forall e, b :: Unprocessed(db, e) && e !in batch && b in batch ==> Precedes(db, b, e))
    && (forall e :: Unprocessed(db, e) && e !in batch ==> |batch| == 200)
  }

  /** Unresolved alerts an ended window must still report: matched by it, and under no window now. */
  predicate Outstanding(db: Store, w: nat, now: real)
    requires w in db.windows
  {
    exists a :: a in db.unresolved
                && Matches(db.windows[w].scope, Lookup(db.devices, db.unresolved[a]))
                && !CoveredAt(db, db.unresolved[a], now)
  }

  predicate NeedsSummary(db: Store, w: nat, now: real)
  {
    w in db.windows && db.windows[w].end <= now && !db.windows[w].summarized
  }

  /** The channels an event is delivered to: none unless it is an alarm outside every matching window. */
  function Audience(db: Store, e: nat, now: real): set<nat>
    requires e in db.events
  {
    var event := db.events[e];
    if !IsAlarm(event) || CoveredAt(db, event.device, event.ts) then {}
    else set c | c in db.channels && Eligible(db.channels[c], event.ts, now)
  }

  /** The channels a window's summary is delivered to. */
  function SummaryAudience(db: Store, w: nat, now: real): set<nat>
    requires w in db.windows
  {
    if !Outstanding(db, w, now) then {} else set c | c in db.channels && db.channels[c].enabled
  }

  /** The audience of each event of the batch. */
  function Audiences(db: Store, batch: set<nat>, now: real): map<nat, set<nat>>
  {
    map e | e in batch && e in db.events :: Audience(db, e, now)
  }

  /** The audience of each window that has ended and was not summarised yet. */
  function Summaries(db: Store, now: real): map<nat, set<nat>>
  {
    map w | w in db.windows && NeedsSummary(db, w, now) :: SummaryAudience(db, w, now)
  }

  /** The slots that audiences call for. */
  function Slots(alarms: map<nat, set<nat>>, summaries: map<nat, set<nat>>): (slots: set<Slot>)
    ensures forall s :: s in slots <==> Called(alarms, summaries, s)
  {
    (set e, c | e in alarms && c in alarms[e] :: Slot(Alarm(e), c))
    + (set w, c | w in summaries && c in summaries[w] :: Slot(Summary(w), c))
  }

  predicate Called(alarms: map<nat, set<nat>>, summaries: map<nat, set<nat>>, s: Slot)
  {
    match s.event
    case Alarm(e) => e in alarms && s.channel in alarms[e]
    case Summary(w) => w in summaries && s.channel in summaries[w]
    case Test(_) => false
  }

  function PayloadDevice(events: map<nat, FleetEvent>, s: Slot): string
  {
    if s.event.Alarm? && s.event.event in events then events[s.event.event].device else ""
  }

  function NewDelivery(device: string): Delivery
  {
    Delivery(device, Pending, 0, 0.0, false)
  }

  /** The first transaction of `tick`, given the audiences. */
  function Decided(db: Store, alarms: map<nat, set<nat>>, summaries: map<nat, set<nat>>): Store
  {
    db.(deliveries := db.deliveries
                      + map s | s in Slots(alarms, summaries) && s !in db.deliveries
                          :: NewDelivery(PayloadDevice(db.events, s)),
        events := map e | e in db.events :: if e in alarms then db.events[e].(processed := true) else db.events[e],
        windows := map w | w in db.windows :: if w in summaries then db.windows[w].(summarized := true) else db.windows[w])
  }

  function Tick(db: Store, batch: set<nat>, now: real): Store
  {
    Decided(db, Audiences(db, batch, now), Summaries(db, now))
  }

  // ---------------------------------------------------------------- delivering

  predicate Due(db: Store, s: Slot, now: real)
  {
    s in db.deliveries && db.deliveries[s].status == Pending && db.deliveries[s].nextAttempt <= now
  }

  /** At most ten due rows, earliest first. */
  ghost predicate IsDueList(db: Store, due: seq<Slot>, now: real)
  {
    && |due| <= 10
    && (forall i :: 0 <= i < |due| ==> Due(db, due[i], now))
    && (forall i, j :: 0 <= i < j < |due| ==>
          due[i] != due[j] && db.deliveries[due[i]].nextAttempt <= db.deliveries[due[j]].nextAttempt)
    && (forall s :: Due(db, s, now) && s !in due ==> |due| == 10)
    && (forall i, s :: 0 <= i < |due| && Due(db, s, now) && s !in due ==>
          db.deliveries[due[i]].nextAttempt <= db.deliveries[s].nextAttempt)
  }

  datatype Verdict = Cancel | GiveUp | Suppress | Attempt

  /** What the claiming transaction finds. */
  function Judge(db: Store, s: Slot, now: real): Verdict
    requires s in db.deliveries
  {
    var row := db.deliveries[s];
    if s.channel !in db.channels || !db.channels[s.channel].enabled then Cancel
    else if row.attempts >= 5 then GiveUp
    else if row.device in db.devices && CoveredAt(db, row.device, now) then Suppress
    else Attempt
  }

  /** The claiming transaction: the attempt is committed before any I/O. */
  function Claimed(db: Store, s: Slot, now: real): Store
    requires s in db.deliveries
  {
    var row := db.deliveries[s];
    db.(deliveries := db.deliveries[s :=
      match Judge(db, s, now)
      case Cancel => row.(status := Cancelled)
      case GiveUp => row.(status := Failed)
      case Suppress => row.(status := Suppressed)
      case Attempt => row.(attempts := row.attempts + 1, nextAttempt := now + 60.0)])
  }

  function Power2(n: nat): nat
  {
    if n == 0 then 1 else 2 * Power2(n - 1)
  }

  /** Seconds until the next attempt. */
  function Backoff(attempts: nat): int
  {
    var n := 30 * Power2(if attempts == 0 then 0 else attempts - 1);
    if n < 900 then n else 900
  }

  /** The wait starts at half a minute and doubles with each further attempt, up to a quarter of an hour. */
  lemma {:induction false} BackoffDoubles(n: nat)
    ensures Backoff(0) == Backoff(1) == 30
    ensures n >= 1 ==> Backoff(n) <= 900 && Backoff(n + 1) == if 2 * Backoff(n) < 900 then 2 * Backoff(n) else 900
  {
    if n >= 1 {
      assert Power2(n) == 2 * Power2(n - 1);
    }
  }

  /** The transaction that records the outcome of sending. */
  function Recorded(db: Store, s: Slot, error: bool, clock: real): Store
    requires s in db.deliveries
  {
    var row := db.deliveries[s];
    db.(deliveries := db.deliveries[s := row.(
      error := error,
      status := if !error then Sent else if row.attempts >= 5 then Failed else Pending,
      nextAttempt := clock + Backoff(row.attempts) as real)])
  }

  /** The notification tables' part of retention. */
  function Maintained(db: Store, cutoff: real): Store
  {
    db.(events := map e | e in db.events && !(db.events[e].ts < cutoff && db.events[e].processed) :: db.events[e],
        deliveries := map s | s in db.deliveries
                              && !(db.deliveries[s].nextAttempt < cutoff && db.deliveries[s].status != Pending)
                        :: db.deliveries[s],
        windows := map w | w in db.windows && !(db.windows[w].end < cutoff && db.windows[w].summarized) :: db.windows[w])
  }
}
