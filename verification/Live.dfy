/** The live feed: snapshots and patches sent by sparkscope/api.py, folded by frontend/src/App.tsx. */
module Live {
  import opened Options

  /** A device's public record; `body` stands for every field but id and name. */
  datatype Device = Device(id: string, name: string, body: string)

  datatype Alert = Alert(id: string, resolved: bool, body: string)

  /** What the server reads before each message: visible devices and unresolved alerts. */
  datatype Fleet = Fleet(devices: seq<Device>, alerts: seq<Alert>)

  datatype Message = Message(snapshot: bool, devices: seq<Device>, removed: set<string>, alerts: seq<Alert>)

  datatype Replica = Replica(devices: seq<Device>, alerts: seq<Alert>)

  // ---------------------------------------------------------------- device lists

  predicate DistinctIds(devices: seq<Device>)
  {
    forall i, j :: 0 <= i < j < |devices| ==> devices[i].id != devices[j].id
  }

  /** `{d["id"]: d for d in devices}`. */
  function ById(devices: seq<Device>): map<string, Device>
  {
    if devices == [] then map[]
    else
      var last := devices[|devices| - 1];
      ById(devices[..|devices| - 1])[last.id := last]
  }

  lemma {:induction false} ByIdMeaning(devices: seq<Device>, id: string)
    requires DistinctIds(devices)
    ensures id in ById(devices) <==> exists d :: d in devices && d.id == id
    ensures id in ById(devices) ==> ById(devices)[id] in devices && ById(devices)[id].id == id
  {
    if devices != [] {
      var front, last := devices[..|devices| - 1], devices[|devices| - 1];
      ByIdMeaning(front, id);
      assert forall d :: d in devices <==> d in front || d == last;
    }
  }

  lemma {:induction false} SameId(devices: seq<Device>, a: Device, b: Device)
    requires DistinctIds(devices) && a in devices && b in devices && a.id == b.id
    ensures a == b
  {
  }

  /** With distinct ids, the map holds exactly the listed devices. */
  lemma {:induction false} ByIdLookup(devices: seq<Device>, id: string, d: Device)
    requires DistinctIds(devices)
    ensures Lookup(ById(devices), id) == Some(d) <==> d in devices && d.id == id
  {
    ByIdMeaning(devices, id);
    if d in devices && d.id == id {
      SameId(devices, d, ById(devices)[id]);
    }
  }

  lemma {:induction false} SameMembersSameMap(a: seq<Device>, b: seq<Device>)
    requires DistinctIds(a) && DistinctIds(b) && forall d :: d in a <==> d in b
    ensures ById(a) == ById(b)
  {
    forall id
      ensures Lookup(ById(a), id) == Lookup(ById(b), id)
    {
      ByIdMeaning(a, id);
      ByIdMeaning(b, id);
      if id in ById(a) {
        ByIdLookup(b, id, ById(a)[id]);
      }
    }
    SameLookups(ById(a), ById(b));
  }

  // ---------------------------------------------------------------- server

  /** `[d for d in devices if previous.get(d["id"]) != d]`. */
  function Changed(devices: seq<Device>, previous: map<string, Device>): (r: seq<Device>)
    ensures forall d :: d in r <==> d in devices && Lookup(previous, d.id) != Some(d)
    ensures DistinctIds(devices) ==> DistinctIds(r)
  {
    if devices == [] then []
    else
      var last := devices[|devices| - 1];
      var front := Changed(devices[..|devices| - 1], previous);
      assert forall d :: d in devices <==> d in devices[..|devices| - 1] || d == last;
      if Lookup(previous, last.id) != Some(last) then front + [last] else front
  }

  function Payload(previous: map<string, Device>, first: bool, fleet: Fleet): Message
  {
    Message(first,
            if first then fleet.devices else Changed(fleet.devices, previous),
            previous.Keys - ById(fleet.devices).Keys,
            fleet.alerts)
  }

  /** One connection of `live`: what was sent last, and whether anything was. */
  class Connection {
    var previous: map<string, Device>
    var first: bool

    constructor ()
      ensures previous == map[] && first
    {
      previous, first := map[], true;
    }

    /** One turn of the sending loop. */
    method Next(fleet: Fleet) returns (message: Message)
      modifies this
      ensures message == Payload(old(previous), old(first), fleet)
      ensures previous == ById(fleet.devices) && !first
    {
      var current := ById(fleet.devices);
      var changed := if first then fleet.devices else Changed(fleet.devices, previous);
      message := Message(first, changed, previous.Keys - current.Keys, fleet.alerts);
      previous := current;
      first := false;
    }
  }

  // ---------------------------------------------------------------- client

  /** `localeCompare`, as a relation `leq` on names. */
  type Order = (string, string) -> bool

  function Insert(leq: Order, d: Device, sorted: seq<Device>): (r: seq<Device>)
    ensures forall c :: c in r <==> c in sorted || c == d
    ensures |r| == |sorted| + 1
  {
    if sorted == [] then [d]
    else
      var last := sorted[|sorted| - 1];
      var front := sorted[..|sorted| - 1];
      assert forall c :: c in sorted <==> c in front || c == last;
      if leq(last.name, d.name) then sorted + [d] else Insert(leq, d, front) + [last]
  }

  /** A stable sort by name. */
  function Sorted(leq: Order, devices: seq<Device>): (r: seq<Device>)
    ensures forall c :: c in r <==> c in devices
    ensures |r| == |devices|
  {
    if devices == [] then []
    else
      var front := devices[..|devices| - 1];
      assert forall c :: c in devices <==> c in front || c == devices[|devices| - 1];
      Insert(leq, devices[|devices| - 1], Sorted(leq, front))
  }

  /** The devices of the previous list that the patch neither removes nor replaces. */
  function Untouched(devices: seq<Device>, message: Message): (r: seq<Device>)
    ensures forall d :: d in r <==> d in devices && d.id !in message.removed && forall c :: c in message.devices ==> c.id != d.id
    ensures DistinctIds(devices) ==> DistinctIds(r)
  {
    if devices == [] then []
    else
      var last := devices[|devices| - 1];
      var front := Untouched(devices[..|devices| - 1], message);
      assert forall d :: d in devices <==> d in devices[..|devices| - 1] || d == last;
      if last.id !in message.removed && forall c :: c in message.devices ==> c.id != last.id then front + [last] else front
  }

  function Resolved(alerts: seq<Alert>, resolved: bool): (r: seq<Alert>)
    ensures forall a :: a in r ==> a.resolved == resolved
  {
    if alerts == [] then []
    else
      var last := alerts[|alerts| - 1];
      Resolved(alerts[..|alerts| - 1], resolved) + if last.resolved == resolved then [last] else []
  }

  /** The `subscribe` callback. */
  function Fold(leq: Order, replica: Replica, message: Message): Replica
  {
    Replica(if message.snapshot then message.devices
            else Sorted(leq, Untouched(replica.devices, message) + message.devices),
            message.alerts + Resolved(replica.alerts, true))
  }

  // ---------------------------------------------------------------- runs

  ghost predicate FleetOk(fleet: Fleet)
  {
    DistinctIds(fleet.devices) && forall a :: a in fleet.alerts ==> !a.resolved
  }

  ghost predicate FleetsOk(fleets: seq<Fleet>)
  {
    forall i :: 0 <= i < |fleets| ==> FleetOk(fleets[i])
  }

  /** The `k`-th message of a connection whose server saw `fleets`, one fleet per turn. */
  function Sent(fleets: seq<Fleet>): Message
    requires fleets != []
  {
    var n := |fleets| - 1;
    Payload(if n == 0 then map[] else ById(fleets[n - 1].devices), n == 0, fleets[n])
  }

  /** The replica after processing the messages of one connection in order. */
  function Followed(leq: Order, replica: Replica, fleets: seq<Fleet>): Replica
  {
    if fleets == [] then replica
    else Fold(leq, Followed(leq, replica, fleets[..|fleets| - 1]), Sent(fleets))
  }

  /** The replica after several connections; each lists the fleets whose messages were processed before it broke. */
  function Reconnected(leq: Order, replica: Replica, connections: seq<seq<Fleet>>): Replica
  {
    if connections == [] then replica
    else Followed(leq, Reconnected(leq, replica, connections[..|connections| - 1]), connections[|connections| - 1])
  }

  ghost predicate Agrees(replica: Replica, fleet: Fleet)
  {
    && DistinctIds(replica.devices)
    && ById(replica.devices) == ById(fleet.devices)
    && Resolved(replica.alerts, false) == fleet.alerts
  }

  // ---------------------------------------------------------------- agreement

  lemma {:induction false} InsertKeepsDistinct(leq: Order, d: Device, sorted: seq<Device>)
    requires DistinctIds(sorted) && forall c :: c in sorted ==> c.id != d.id
    ensures DistinctIds(Insert(leq, d, sorted))
  {
    if sorted != [] {
      var front, last := sorted[..|sorted| - 1], sorted[|sorted| - 1];
      if !leq(last.name, d.name) {
        assert forall c :: c in front ==> c in sorted;
        InsertKeepsDistinct(leq, d, front);
        var r := Insert(leq, d, front);
        forall i | 0 <= i < |r|
          ensures r[i].id != last.id
        {
          assert r[i] in r;
        }
      }
    }
  }

  lemma {:induction false} SortKeepsDistinct(leq: Order, devices: seq<Device>)
    requires DistinctIds(devices)
    ensures DistinctIds(Sorted(leq, devices))
  {
    if devices != [] {
      var front, last := devices[..|devices| - 1], devices[|devices| - 1];
      SortKeepsDistinct(leq, front);
      forall c | c in Sorted(leq, front)
        ensures c.id != last.id
      {
        assert c in front;
      }
      InsertKeepsDistinct(leq, last, Sorted(leq, front));
    }
  }

  lemma {:induction false} PatchedDistinct(leq: Order, devices: seq<Device>, message: Message)
    requires DistinctIds(devices) && DistinctIds(message.devices)
    ensures DistinctIds(Sorted(leq, Untouched(devices, message) + message.devices))
  {
    var kept := Untouched(devices, message);
    forall i, j | 0 <= i < |kept| && 0 <= j < |message.devices|
      ensures kept[i].id != message.devices[j].id
    {
      assert kept[i] in kept && message.devices[j] in message.devices;
    }
    SortKeepsDistinct(leq, kept + message.devices);
  }

  /** Which devices a replica holds after a patch between two fleets, whatever it held before. */
  lemma {:induction false} PatchMembers(leq: Order, replica: Replica, before: Fleet, after: Fleet, d: Device)
    requires FleetOk(before) && FleetOk(after)
    ensures var message := Payload(ById(before.devices), false, after);
            d in Fold(leq, replica, message).devices
            <==> if Lookup(ById(before.devices), d.id) == Lookup(ById(after.devices), d.id) then d in replica.devices
                 else d in after.devices
  {
    var message := Payload(ById(before.devices), false, after);
    var was, now := Lookup(ById(before.devices), d.id), Lookup(ById(after.devices), d.id);
    ByIdMeaning(before.devices, d.id);
    ByIdMeaning(after.devices, d.id);
    ByIdLookup(after.devices, d.id, d);
    if now.Some? {
      ByIdLookup(after.devices, d.id, now.value);
    }
    if exists c :: c in message.devices && c.id == d.id {
      var c :| c in message.devices && c.id == d.id;
      ByIdLookup(after.devices, d.id, c);
      assert now == Some(c) && was != now;
    } else if now.Some? {
      assert now.value in after.devices && now.value !in message.devices;
      assert was == now;
    }
  }

  lemma {:induction false} ResolvedSplit(a: seq<Alert>, b: seq<Alert>, resolved: bool)
    ensures Resolved(a + b, resolved) == Resolved(a, resolved) + Resolved(b, resolved)
  {
    if b == [] {
      assert a + b == a;
    } else {
      assert (a + b)[..|a + b| - 1] == a + b[..|b| - 1];
      ResolvedSplit(a, b[..|b| - 1], resolved);
    }
  }

  lemma {:induction false} ResolvedAll(alerts: seq<Alert>, resolved: bool)
    requires forall i :: 0 <= i < |alerts| ==> alerts[i].resolved == resolved
    ensures Resolved(alerts, resolved) == alerts && Resolved(alerts, !resolved) == []
  {
    if alerts != [] {
      var front, last := alerts[..|alerts| - 1], alerts[|alerts| - 1];
      ResolvedAll(front, resolved);
      assert last.resolved == resolved;
      assert front + [last] == alerts;
      assert front + [] == front;
    }
  }

  lemma {:induction false} AlertsFollow(leq: Order, replica: Replica, message: Message)
    requires forall a :: a in message.alerts ==> !a.resolved
    ensures Resolved(Fold(leq, replica, message).alerts, false) == message.alerts
    ensures Resolved(Fold(leq, replica, message).alerts, true) == Resolved(replica.alerts, true)
    ensures message.alerts <= Fold(leq, replica, message).alerts
  {
    var kept := Resolved(replica.alerts, true);
    ResolvedAll(message.alerts, false);
    ResolvedAll(kept, true);
    ResolvedSplit(message.alerts, kept, false);
    ResolvedSplit(message.alerts, kept, true);
  }

  /** A patch takes a replica that agrees with one fleet to one that agrees with the next. */
  lemma {:induction false} PatchKeepsAgreement(leq: Order, replica: Replica, before: Fleet, after: Fleet)
    requires FleetOk(before) && FleetOk(after) && DistinctIds(replica.devices)
    requires ById(replica.devices) == ById(before.devices)
    ensures Agrees(Fold(leq, replica, Payload(ById(before.devices), false, after)), after)
  {
    var message := Payload(ById(before.devices), false, after);
    var next := Fold(leq, replica, message);
    PatchedDistinct(leq, replica.devices, message);
    AlertsFollow(leq, replica, message);
    forall d
      ensures d in next.devices <==> d in after.devices
    {
      PatchMembers(leq, replica, before, after, d);
      ByIdLookup(replica.devices, d.id, d);
      ByIdLookup(after.devices, d.id, d);
    }
    SameMembersSameMap(next.devices, after.devices);
  }

  /** After the `k`-th message of a connection the replica agrees with the server's `k`-th fleet. */
  lemma {:induction false} ConnectionAgrees(leq: Order, replica: Replica, fleets: seq<Fleet>)
    requires fleets != [] && FleetsOk(fleets)
    ensures Agrees(Followed(leq, replica, fleets), fleets[|fleets| - 1])
    ensures Resolved(Followed(leq, replica, fleets).alerts, true) == Resolved(replica.alerts, true)
  {
    var n := |fleets| - 1;
    var front := fleets[..n];
    assert FleetOk(fleets[n]);
    AlertsFollow(leq, Followed(leq, replica, front), Sent(fleets));
    if n > 0 {
      assert FleetOk(fleets[n - 1]);
      assert front[n - 1] == fleets[n - 1];
      ConnectionAgrees(leq, replica, front);
      PatchKeepsAgreement(leq, Followed(leq, replica, front), fleets[n - 1], fleets[n]);
    }
  }

  /** Whatever the replica held and however often the feed broke, once the current connection has delivered a message the
      replica agrees with the fleet behind the last message processed, and no resolved alert it knew has been lost. */
  lemma {:induction false} ReplicaAgreesAcrossReconnects(leq: Order, replica: Replica, connections: seq<seq<Fleet>>)
    requires forall i :: 0 <= i < |connections| ==> FleetsOk(connections[i])
    ensures Resolved(Reconnected(leq, replica, connections).alerts, true) == Resolved(replica.alerts, true)
    ensures connections != [] && connections[|connections| - 1] != [] ==>
              var fleets := connections[|connections| - 1];
              Agrees(Reconnected(leq, replica, connections), fleets[|fleets| - 1])
  {
    if connections != [] {
      var front, last := connections[..|connections| - 1], connections[|connections| - 1];
      ReplicaAgreesAcrossReconnects(leq, replica, front);
      assert FleetsOk(last);
      if last != [] {
        ConnectionAgrees(leq, Reconnected(leq, replica, front), last);
      }
    }
  }

  // ---------------------------------------------------------------- lost messages

  /** One turn of a connection: the server's fleet, and whether the client processed the message. */
  datatype Turn = Turn(fleet: Fleet, processed: bool)

  /** The fleet behind the last message sent: `sent` before these turns, if any, and one more fleet in each. */
  function LastSent(sent: Option<Fleet>, turns: seq<Turn>): Option<Fleet>
  {
    if turns == [] then sent else Some(turns[|turns| - 1].fleet)
  }

  /** The message of a turn: a snapshot if nothing was sent on the connection before, a patch otherwise. */
  function MessageAfter(sent: Option<Fleet>, fleet: Fleet): Message
  {
    Payload(if sent.Some? then ById(sent.value.devices) else map[], sent.None?, fleet)
  }

  /** The replica after these turns, of which some messages may have been dropped. */
  function Received(leq: Order, replica: Replica, sent: Option<Fleet>, turns: seq<Turn>): Replica
  {
    if turns == [] then replica
    else
      var front, last := turns[..|turns| - 1], turns[|turns| - 1];
      var before := Received(leq, replica, sent, front);
      if last.processed then Fold(leq, before, MessageAfter(LastSent(sent, front), last.fleet)) else before
  }

  /** Does the message say anything of the device's record? A snapshot does, and a patch that changes it. */
  predicate Speaks(sent: Option<Fleet>, fleet: Fleet, id: string)
  {
    sent.None? || Lookup(ById(sent.value.devices), id) != Lookup(ById(fleet.devices), id)
  }

  /** The record of a device at the last processed turn that said anything of it, and `held` if there was none: on fleets
      and flags alone. */
  function Record(held: Option<Device>, sent: Option<Fleet>, turns: seq<Turn>, id: string): Option<Device>
  {
    if turns == [] then held
    else
      var front, last := turns[..|turns| - 1], turns[|turns| - 1];
      if last.processed && Speaks(LastSent(sent, front), last.fleet, id) then Lookup(ById(last.fleet.devices), id)
      else Record(held, sent, front, id)
  }

  /** The unresolved alerts of the last processed turn, and `held` if there was none. */
  function AlertsOf(held: seq<Alert>, turns: seq<Turn>): seq<Alert>
  {
    if turns == [] then held
    else if turns[|turns| - 1].processed then turns[|turns| - 1].fleet.alerts
    else AlertsOf(held, turns[..|turns| - 1])
  }

  ghost predicate TurnsOk(sent: Option<Fleet>, turns: seq<Turn>)
  {
    (sent.Some? ==> FleetOk(sent.value)) && forall i :: 0 <= i < |turns| ==> FleetOk(turns[i].fleet)
  }

  lemma {:induction false} PatchLookup(leq: Order, replica: Replica, before: Fleet, after: Fleet, id: string)
    requires FleetOk(before) && FleetOk(after) && DistinctIds(replica.devices)
    ensures var next := Fold(leq, replica, Payload(ById(before.devices), false, after));
            && DistinctIds(next.devices)
            && Lookup(ById(next.devices), id)
               == if Lookup(ById(before.devices), id) == Lookup(ById(after.devices), id)
                  then Lookup(ById(replica.devices), id) else Lookup(ById(after.devices), id)
  {
    var message := Payload(ById(before.devices), false, after);
    var next := Fold(leq, replica, message);
    PatchedDistinct(leq, replica.devices, message);
    var held := if Lookup(ById(before.devices), id) == Lookup(ById(after.devices), id) then replica.devices else after.devices;
    forall d: Device | d.id == id
      ensures d in next.devices <==> d in held
    {
      PatchMembers(leq, replica, before, after, d);
    }
    SameRecord(next.devices, held, id);
  }

  lemma {:induction false} SameRecord(a: seq<Device>, b: seq<Device>, id: string)
    requires DistinctIds(a) && DistinctIds(b) && forall d: Device :: d.id == id ==> (d in a <==> d in b)
    ensures Lookup(ById(a), id) == Lookup(ById(b), id)
  {
    ByIdMeaning(a, id);
    ByIdMeaning(b, id);
    if id in ById(b) {
      ByIdLookup(a, id, ById(b)[id]);
    }
  }

  lemma {:induction false} TurnLookup(leq: Order, replica: Replica, sent: Option<Fleet>, fleet: Fleet, id: string)
    requires DistinctIds(replica.devices) && FleetOk(fleet) && (sent.Some? ==> FleetOk(sent.value))
    ensures var next := Fold(leq, replica, MessageAfter(sent, fleet));
            && DistinctIds(next.devices)
            && Resolved(next.alerts, false) == fleet.alerts
            && Lookup(ById(next.devices), id)
               == if Speaks(sent, fleet, id) then Lookup(ById(fleet.devices), id) else Lookup(ById(replica.devices), id)
  {
    AlertsFollow(leq, replica, MessageAfter(sent, fleet));
    if sent.Some? {
      PatchLookup(leq, replica, sent.value, fleet, id);
    }
  }

  /** Whatever messages of a connection are dropped, the replica's record of a device is that of the last processed turn that
      said anything of it, and its unresolved alerts are those of the last processed turn. */
  lemma {:induction false} ReplicaRecords(leq: Order, replica: Replica, sent: Option<Fleet>, turns: seq<Turn>,
                                          id: string)
    requires DistinctIds(replica.devices) && TurnsOk(sent, turns)
    ensures var next := Received(leq, replica, sent, turns);
            && DistinctIds(next.devices)
            && Lookup(ById(next.devices), id) == Record(Lookup(ById(replica.devices), id), sent, turns, id)
            && Resolved(next.alerts, false) == AlertsOf(Resolved(replica.alerts, false), turns)
  {
    if turns != [] {
      var front, last := turns[..|turns| - 1], turns[|turns| - 1];
      ReplicaRecords(leq, replica, sent, front, id);
      assert FleetOk(last.fleet) && (LastSent(sent, front).Some? ==> FleetOk(LastSent(sent, front).value));
      if last.processed {
        TurnLookup(leq, Received(leq, replica, sent, front), LastSent(sent, front), last.fleet, id);
      }
    }
  }

  /** Every record at its last processed change is the current one. */
  ghost predicate Current(devices: seq<Device>, sent: Option<Fleet>, turns: seq<Turn>, fleet: Fleet)
  {
    forall id :: Record(Lookup(ById(devices), id), sent, turns, id) == Lookup(ById(fleet.devices), id)
  }

  /** When a replica agrees with the server, whichever messages were dropped, on this connection and in whatever order: if and
      only if, for every device, the record at the last processed turn that said anything of it is the current one; and, for
      the alerts, the last processed turn had the current ones. */
  lemma {:induction false} AgreesIff(leq: Order, replica: Replica, sent: Option<Fleet>, turns: seq<Turn>, fleet: Fleet)
    requires DistinctIds(replica.devices) && TurnsOk(sent, turns) && LastSent(sent, turns) == Some(fleet)
    ensures var next := Received(leq, replica, sent, turns);
            && (ById(next.devices) == ById(fleet.devices) <==> Current(replica.devices, sent, turns, fleet))
            && (Agrees(next, fleet) <==>
                  Current(replica.devices, sent, turns, fleet)
                  && AlertsOf(Resolved(replica.alerts, false), turns) == fleet.alerts)
  {
    var next := Received(leq, replica, sent, turns);
    forall id
      ensures Lookup(ById(next.devices), id) == Record(Lookup(ById(replica.devices), id), sent, turns, id)
    {
      ReplicaRecords(leq, replica, sent, turns, id);
    }
    ReplicaRecords(leq, replica, sent, turns, "");
    if Current(replica.devices, sent, turns, fleet) {
      SameLookups(ById(next.devices), ById(fleet.devices));
    }
  }

  // ---------------------------------------------------------------- one block of losses

  /** Turns that were all processed. */
  function AllProcessed(fleets: seq<Fleet>): (turns: seq<Turn>)
    ensures |turns| == |fleets| && forall i :: 0 <= i < |turns| ==> turns[i] == Turn(fleets[i], true)
  {
    seq(|fleets|, i requires 0 <= i < |fleets| => Turn(fleets[i], true))
  }

  function Latest(sent: Fleet, fleets: seq<Fleet>): Fleet
  {
    if fleets == [] then sent else fleets[|fleets| - 1]
  }

  /** Some patch after `sent` changes the device's record. */
  predicate ChangedSince(sent: Fleet, fleets: seq<Fleet>, id: string)
  {
    && fleets != []
    && var front := fleets[..|fleets| - 1];
    && (ChangedSince(sent, front, id)
        || Lookup(ById(Latest(sent, front).devices), id) != Lookup(ById(fleets[|fleets| - 1].devices), id))
  }

  lemma {:induction false} ProcessedFront(fleets: seq<Fleet>)
    requires fleets != []
    ensures AllProcessed(fleets)[..|fleets| - 1] == AllProcessed(fleets[..|fleets| - 1])
  {
  }

  /** With every patch processed, a record is the server's if some patch changed it, and the one held before otherwise. */
  lemma {:induction false} RecordOfProcessed(held: Option<Device>, sent: Fleet, fleets: seq<Fleet>, id: string)
    ensures LastSent(Some(sent), AllProcessed(fleets)) == Some(Latest(sent, fleets))
    ensures Record(held, Some(sent), AllProcessed(fleets), id)
            == if ChangedSince(sent, fleets, id) then Lookup(ById(Latest(sent, fleets).devices), id) else held
    ensures !ChangedSince(sent, fleets, id) ==>
              Lookup(ById(Latest(sent, fleets).devices), id) == Lookup(ById(sent.devices), id)
  {
    if fleets != [] {
      var front, last := fleets[..|fleets| - 1], fleets[|fleets| - 1];
      RecordOfProcessed(held, sent, front, id);
      ProcessedFront(fleets);
      assert AllProcessed(fleets)[|fleets| - 1] == Turn(last, true);
    }
  }

  /** The special case of one block of losses. `before` is the fleet the replica last agreed with, `lost` the fleet of the last
      message lost, one or several in a row. However many patches follow, all of them processed, the replica's devices are
      the server's again exactly when every record that the lost messages changed has been changed again. */
  lemma {:induction false} LostPatchHealsIff(leq: Order, replica: Replica, before: Fleet, lost: Fleet,
                                             later: seq<Fleet>)
    requires FleetOk(before) && FleetOk(lost) && FleetsOk(later) && Agrees(replica, before)
    ensures var next := Received(leq, replica, Some(lost), AllProcessed(later));
            && (ById(next.devices) == ById(Latest(lost, later).devices) <==> Healed(before, lost, later))
            && (later != [] ==> (Agrees(next, Latest(lost, later)) <==> Healed(before, lost, later)))
  {
    var turns, fleet := AllProcessed(later), Latest(lost, later);
    forall id
      ensures Record(Lookup(ById(replica.devices), id), Some(lost), turns, id) == Lookup(ById(fleet.devices), id)
              <==> Lookup(ById(before.devices), id) == Lookup(ById(lost.devices), id) || ChangedSince(lost, later, id)
    {
      RecordOfProcessed(Lookup(ById(replica.devices), id), lost, later, id);
    }
    RecordOfProcessed(None, lost, later, "");
    forall i | 0 <= i < |turns|
      ensures FleetOk(turns[i].fleet)
    {
      assert FleetOk(later[i]);
    }
    AgreesIff(leq, replica, Some(lost), turns, fleet);
  }

  /** Every record that differs between the two fleets is changed by some later patch. */
  ghost predicate Healed(before: Fleet, lost: Fleet, later: seq<Fleet>)
  {
    forall id :: Lookup(ById(before.devices), id) != Lookup(ById(lost.devices), id) ==> ChangedSince(lost, later, id)
  }

  const STEADY_BEFORE := Device("b", "b", "status online")
  const STEADY_AFTER := Device("b", "b", "status paused")

  /** A run that stays wrong. One device reports a number that JSON has no spelling for, in the same message as another
      device is paused; the message is lost. As long as the paused device stays as it is, nothing that follows on the
      connection brings the replica back, whatever the first device reports, however many turns there are, and whichever of
      them are lost too. A record that holds NaN, freshly read, is unequal even to itself (sparkscope/api.py:968), so it is
      sent, and its message lost, on every turn while it lasts: each such turn is one of a new record here. */
  lemma {:induction false} LostPatchStays(leq: Order, later: seq<Turn>)
    requires TurnsOk(None, later)
    requires forall i :: 0 <= i < |later| ==> Lookup(ById(later[i].fleet.devices), "b") == Some(STEADY_AFTER)
    ensures var before := Fleet([Device("a", "a", "temp 40"), STEADY_BEFORE], []);
            var lost := Fleet([Device("a", "a", "temp NaN"), STEADY_AFTER], []);
            var replica := Replica(before.devices, []);
            && FleetOk(before) && FleetOk(lost) && Agrees(replica, before)
            && !Agrees(Received(leq, replica, Some(lost), later), LastSent(Some(lost), later).value)
  {
    var before := Fleet([Device("a", "a", "temp 40"), STEADY_BEFORE], []);
    var lost := Fleet([Device("a", "a", "temp NaN"), STEADY_AFTER], []);
    var replica := Replica(before.devices, []);
    ByIdLookup(before.devices, "b", STEADY_BEFORE);
    ByIdLookup(lost.devices, "b", STEADY_AFTER);
    NeverSpoken(Some(STEADY_BEFORE), lost, later, "b", STEADY_AFTER);
    ReplicaRecords(leq, replica, Some(lost), later, "b");
  }

  /** Nothing is said of a record that stays as it was sent. */
  lemma {:induction false} NeverSpoken(held: Option<Device>, sent: Fleet, turns: seq<Turn>, id: string, d: Device)
    requires Lookup(ById(sent.devices), id) == Some(d)
    requires forall i :: 0 <= i < |turns| ==> Lookup(ById(turns[i].fleet.devices), id) == Some(d)
    ensures Record(held, Some(sent), turns, id) == held
    ensures Lookup(ById(LastSent(Some(sent), turns).value.devices), id) == Some(d)
  {
    if turns != [] {
      NeverSpoken(held, sent, turns[..|turns| - 1], id, d);
    }
  }

  // ---------------------------------------------------------------- order

  ghost predicate TotalPreorder(leq: Order)
  {
    && (forall a, b :: leq(a, b) || leq(b, a))
    && (forall a, b, c :: leq(a, b) && leq(b, c) ==> leq(a, c))
  }

  predicate InOrder(leq: Order, devices: seq<Device>)
  {
    forall i, j :: 0 <= i < j < |devices| ==> leq(devices[i].name, devices[j].name)
  }

  lemma {:induction false} InsertKeepsOrder(leq: Order, d: Device, sorted: seq<Device>)
    requires TotalPreorder(leq) && InOrder(leq, sorted)
    ensures InOrder(leq, Insert(leq, d, sorted))
  {
    if sorted != [] {
      var front, last := sorted[..|sorted| - 1], sorted[|sorted| - 1];
      if !leq(last.name, d.name) {
        InsertKeepsOrder(leq, d, front);
        var r := Insert(leq, d, front);
        forall i | 0 <= i < |r|
          ensures leq(r[i].name, last.name)
        {
          assert r[i] in r;
        }
      }
    }
  }

  lemma {:induction false} SortSorts(leq: Order, devices: seq<Device>)
    requires TotalPreorder(leq)
    ensures InOrder(leq, Sorted(leq, devices))
  {
    if devices != [] {
      SortSorts(leq, devices[..|devices| - 1]);
      InsertKeepsOrder(leq, devices[|devices| - 1], Sorted(leq, devices[..|devices| - 1]));
    }
  }

  /** A patched replica is listed by name. */
  lemma {:induction false} PatchedReplicaSorted(leq: Order, replica: Replica, message: Message)
    requires TotalPreorder(leq) && !message.snapshot
    ensures InOrder(leq, Fold(leq, replica, message).devices)
  {
    SortSorts(leq, Untouched(replica.devices, message) + message.devices);
  }
}
