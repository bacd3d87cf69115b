/** `operation` and `execute_job` (sparkscope/api.py) and `start` (sparkscope/collector.py), step by step, when nothing
    interrupts them, against the functions of Commands. */
module CommandService {
  import opened Options
  import opened Commands

  datatype Response = Accepted | Unconfirmed

  /** The tables that others may change while a job runs. */
  datatype Tables = Tables(users: map<nat, User>, devices: map<nat, Device>)

  /** The store as `execute_job` reads it before the `n`-th device: users and devices may have changed meanwhile. */
  function Turn(db: Store, seen: seq<Tables>, n: nat): Store
    requires n < |seen|
  {
    db.(users := seen[n].users, devices := seen[n].devices)
  }

  /** The devices of the list that pass the re-check when their turn comes, in order. */
  function Allowed(db: Store, seen: seq<Tables>, job: Job, rows: map<nat, Device>, order: seq<nat>): seq<nat>
    requires |seen| >= |order| && forall d :: d in order ==> d in rows
  {
    if order == [] then []
    else
      var n := |order| - 1;
      assert order[n] in order;
      Allowed(db, seen, job, rows, order[..n])
      + if StillAllowed(Turn(db, seen, n), job, order[n], rows[order[n]]) then [order[n]] else []
  }

  function Members(order: seq<nat>): set<nat>
  {
    set d | d in order
  }

  /** The job's row while it runs. */
  function Progress(job: Job, done: seq<nat>): Job
  {
    job.(status := Running, results := job.results + Members(done))
  }

  /** Every device was sent to and answered with success. */
  predicate AllOk(db: Store, seen: seq<Tables>, job: Job, rows: map<nat, Device>, order: seq<nat>, succeeds: nat -> bool)
    requires |seen| >= |order| && forall d :: d in order ==> d in rows
  {
    forall i :: 0 <= i < |order| ==>
      order[i] in order && StillAllowed(Turn(db, seen, i), job, order[i], rows[order[i]]) && succeeds(order[i])
  }

  class CommandService {
    const commands: map<string, bool>
    var users: map<nat, User>
    var devices: map<nat, Device>
    var confirmations: map<nat, Confirmation>
    var jobs: map<nat, Job>

    function View(): Store
      reads this
    {
      Store(commands, users, devices, confirmations, jobs)
    }

    constructor (db: Store)
      ensures View() == db
    {
      commands, users, devices := db.commands, db.users, db.devices;
      confirmations, jobs := db.confirmations, db.jobs;
    }

    /** The transaction of `operation` on validated targets; `id` is the new job's. */
    method Operate(r: Request, now: real, id: nat) returns (response: Response)
      modifies this
      ensures response.Accepted? <==>
                (r.command in commands && commands[r.command] ==>
                   && r.proof.Some? && r.proof.value in old(confirmations)
                   && var c := old(confirmations)[r.proof.value];
                   && c.user == r.user && c.command == r.command && c.targets == r.rows.Keys && c.expires >= now)
      ensures response.Accepted? ==> Commits(old(View()), r) && View() == Committed(old(View()), r, id)
      ensures response.Accepted? ==>
                && jobs == old(jobs)[id := Job(r.user, r.command, r.rows.Keys, Queued, {})]
                && confirmations == old(confirmations)
                                    - (if r.command in commands && commands[r.command] then {r.proof.value} else {})
                && users == old(users) && devices == old(devices)
      ensures !response.Accepted? ==> View() == old(View())
    {
      if r.command in commands && commands[r.command] {
        if r.proof.None? || r.proof.value !in confirmations {
          return Unconfirmed;
        }
        var proof := confirmations[r.proof.value];
        if proof.user != r.user || proof.command != r.command || proof.targets != r.rows.Keys || proof.expires < now {
          return Unconfirmed;
        }
        confirmations := confirmations - {r.proof.value};
      }
      jobs := jobs[id := Job(r.user, r.command, r.rows.Keys, Queued, {})];
      response := Accepted;
    }

    /** `start`: interrupts every queued or running job. */
    method Start()
      modifies this`jobs
      ensures jobs == Restarted(old(jobs))
      ensures jobs.Keys == old(jobs).Keys
      ensures forall id :: id in jobs ==>
                jobs[id] == if old(jobs)[id].status == Queued || old(jobs)[id].status == Running
                            then old(jobs)[id].(status := Interrupted) else old(jobs)[id]
    {
      var todo := jobs.Keys;
      while todo != {}
        invariant todo <= old(jobs).Keys && jobs.Keys == old(jobs).Keys
        invariant forall id :: id in jobs ==>
                    jobs[id] == if id in todo then old(jobs)[id] else Restarted(old(jobs))[id]
        decreases todo
      {
        var id :| id in todo;
        todo := todo - {id};
        if Unfinished(jobs[id].status) {
          jobs := jobs[id := jobs[id].(status := Interrupted)];
        }
      }
    }

    /** One turn of the loop: re-reads the tables, sends if nothing has changed, and stores a result either way. */
    method RunOn(ghost db: Store, ghost job: Job, id: nat, device: nat, row: Device, seen: Tables, succeeds: bool)
      returns (handed: bool, ok: bool)
      requires commands == db.commands && jobs == db.jobs[id := job]
      modifies this`jobs, this`users, this`devices
      ensures jobs == db.jobs[id := job.(results := job.results + {device})]
      ensures handed <==> StillAllowed(db.(users := seen.users, devices := seen.devices), job, device, row)
      ensures handed <==>
                (&& device in seen.devices && !seen.devices[device].archived && !seen.devices[device].paused
                 && seen.devices[device].revision == row.revision
                 && job.owner in seen.users && seen.users[job.owner].active && seen.users[job.owner].role != Viewer
                 && (job.command in commands && commands[job.command] ==> seen.users[job.owner].role == Admin))
      ensures ok <==> handed && succeeds
    {
      users, devices := seen.users, seen.devices;
      handed := StillAllowed(View(), jobs[id], device, row);
      ok := handed && succeeds;
      jobs := jobs[id := jobs[id].(results := jobs[id].results + {device})];
    }

    /** `execute_job` from start to finish: the devices sent to, and the job's row. `seen` is what the database holds when
        each device's turn comes. */
    method ExecuteJob(id: nat, rows: map<nat, Device>, order: seq<nat>, seen: seq<Tables>, succeeds: nat -> bool)
      returns (sent: seq<nat>)
      requires id in jobs && (forall d :: d in order ==> d in rows) && |seen| >= |order|
      modifies this`jobs, this`users, this`devices
      ensures sent == Allowed(old(View()), seen, old(jobs)[id], rows, order)
      ensures jobs == old(jobs)[id := old(jobs)[id].(
                results := old(jobs)[id].results + Members(order),
                status := if AllOk(old(View()), seen, old(jobs)[id], rows, order, succeeds) then Complete else Failed)]
    {
      ghost var db, job := View(), jobs[id];
      jobs := jobs[id := jobs[id].(status := Running)];
      var allOk: bool;
      sent, allOk := RunOnAll(db, job, id, rows, order, seen, succeeds);
      jobs := jobs[id := jobs[id].(status := if allOk then Complete else Failed)];
    }

    /** The loop over devices. */
    method RunOnAll(ghost db: Store, ghost job: Job, id: nat, rows: map<nat, Device>, order: seq<nat>, seen: seq<Tables>,
                    succeeds: nat -> bool)
      returns (sent: seq<nat>, allOk: bool)
      requires commands == db.commands && jobs == db.jobs[id := job.(status := Running)]
      requires (forall d :: d in order ==> d in rows) && |seen| >= |order|
      modifies this`jobs, this`users, this`devices
      ensures sent == Allowed(db, seen, job, rows, order)
      ensures jobs == db.jobs[id := Progress(job, order)]
      ensures allOk <==> AllOk(db, seen, job, rows, order, succeeds)
    {
      sent, allOk := [], true;
      assert job.(status := Running) == Progress(job, order[..0]);
      for n := 0 to |order|
        invariant sent == Allowed(db, seen, job, rows, order[..n])
        invariant jobs == db.jobs[id := Progress(job, order[..n])]
        invariant allOk <==> AllOk(db, seen, job, rows, order[..n], succeeds)
      {
        OrderStep(db, seen, job, rows, order, n, succeeds);
        ProgressStep(job, order, n);
        SameRights(Turn(db, seen, n), job, order[..n], order[n], rows[order[n]]);
        var handed, ok := RunOn(db, Progress(job, order[..n]), id, order[n], rows[order[n]], seen[n], succeeds(order[n]));
        sent, allOk := if handed then sent + [order[n]] else sent, allOk && ok;
      }
      assert order[..|order|] == order;
    }
  }

  /** What one more device adds to the specification. */
  lemma {:induction false} OrderStep(db: Store, seen: seq<Tables>, job: Job, rows: map<nat, Device>, order: seq<nat>,
                                     n: nat, succeeds: nat -> bool)
    requires n < |order| <= |seen| && forall d :: d in order ==> d in rows
    ensures order[n] in order
    ensures var d := order[n];
            var goes := StillAllowed(Turn(db, seen, n), job, d, rows[d]);
            && Allowed(db, seen, job, rows, order[..n + 1])
               == Allowed(db, seen, job, rows, order[..n]) + (if goes then [d] else [])
            && (AllOk(db, seen, job, rows, order[..n + 1], succeeds)
                <==> AllOk(db, seen, job, rows, order[..n], succeeds) && goes && succeeds(d))
  {
    assert order[..n + 1] == order[..n] + [order[n]];
    assert order[..n + 1][..n] == order[..n];
    assert order[..n + 1][n] == order[n];
  }

  lemma {:induction false} SameRights(db: Store, job: Job, done: seq<nat>, device: nat, row: Device)
    ensures StillAllowed(db, Progress(job, done), device, row) <==> StillAllowed(db, job, device, row)
  {
  }

  lemma {:induction false} ProgressStep(job: Job, order: seq<nat>, n: nat)
    requires n < |order|
    ensures Progress(job, order[..n + 1])
            == Progress(job, order[..n]).(results := Progress(job, order[..n]).results + {order[n]})
  {
    assert order[..n + 1] == order[..n] + [order[n]];
    assert Members(order[..n + 1]) == Members(order[..n]) + {order[n]};
  }

  /** Run to its end, a job sends once to each device that is allowed when its turn comes, and to no other. */
  lemma {:induction false} AllowedOnce(db: Store, seen: seq<Tables>, job: Job, rows: map<nat, Device>, order: seq<nat>)
    requires |seen| >= |order| && Distinct(order) && forall d :: d in order ==> d in rows
    ensures Distinct(Allowed(db, seen, job, rows, order))
    ensures forall d :: d in Allowed(db, seen, job, rows, order) ==> d in order
    ensures forall i :: 0 <= i < |order| ==>
              (order[i] in Allowed(db, seen, job, rows, order) <==>
                 (&& order[i] in rows && order[i] in seen[i].devices
                  && var device := seen[i].devices[order[i]];
                  && !device.archived && !device.paused && device.revision == rows[order[i]].revision
                  && job.owner in seen[i].users && seen[i].users[job.owner].active
                  && var owner := seen[i].users[job.owner];
                  && owner.role != Viewer
                  && (job.command in db.commands && db.commands[job.command] ==> owner.role == Admin)))
  {
    AllowedMembers(db, seen, job, rows, order);
    forall i | 0 <= i < |order|
      ensures order[i] in rows
    {
      assert order[i] in order;
    }
  }

  lemma {:induction false} AllowedMembers(db: Store, seen: seq<Tables>, job: Job, rows: map<nat, Device>,
                                          order: seq<nat>)
    requires |seen| >= |order| && Distinct(order) && forall d :: d in order ==> d in rows
    ensures Distinct(Allowed(db, seen, job, rows, order))
    ensures forall d :: d in Allowed(db, seen, job, rows, order) ==> d in order
    ensures forall i :: 0 <= i < |order| ==>
              order[i] in order
              && (order[i] in Allowed(db, seen, job, rows, order)
                  <==> StillAllowed(Turn(db, seen, i), job, order[i], rows[order[i]]))
  {
    if order != [] {
      var front, last := order[..|order| - 1], order[|order| - 1];
      assert last in order && forall d :: d in order <==> d in front || d == last;
      AllowedMembers(db, seen, job, rows, front);
      assert last !in front;
      forall i | 0 <= i < |order|
        ensures order[i] in order
        ensures order[i] in Allowed(db, seen, job, rows, order)
                <==> StillAllowed(Turn(db, seen, i), job, order[i], rows[order[i]])
      {
        assert i < |front| ==> front[i] == order[i] && front[i] in front;
      }
    }
  }

  /** The job ends complete exactly if every device was sent to and answered with success. */
  lemma {:induction false} CompleteIff(db: Store, seen: seq<Tables>, job: Job, rows: map<nat, Device>, order: seq<nat>,
                                       succeeds: nat -> bool)
    requires |seen| >= |order| && Distinct(order) && forall d :: d in order ==> d in rows
    ensures AllOk(db, seen, job, rows, order, succeeds)
            <==> forall d :: d in order ==> d in Allowed(db, seen, job, rows, order) && succeeds(d)
  {
    AllowedMembers(db, seen, job, rows, order);
  }
}
