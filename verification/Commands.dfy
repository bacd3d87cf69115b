/** Remote commands: confirmations, jobs and their execution (sparkscope/api.py), and restarts (sparkscope/collector.py).
    Each transaction, and each hand-over between them, is a step; requests and jobs interleave freely. */
module Commands {
  import opened Options

  datatype Role = Viewer | Operator | Admin

  datatype User = User(role: Role, active: bool)

  datatype Device = Device(archived: bool, paused: bool, verified: bool, revision: nat)

  /** Target lists are `sorted(set(ids))`, so equal lists are equal sets. */
  datatype Confirmation = Confirmation(user: nat, command: string, targets: set<nat>, expires: real)

  datatype Status = Queued | Running | Interrupted | Complete | Failed

  /** `results` holds the devices that have a result. */
  datatype Job = Job(owner: nat, command: string, targets: set<nat>, status: Status, results: set<nat>)

  /** A request that has passed its checks and not committed yet; `rows` are the device rows it read. */
  datatype Request = Request(user: nat, command: string, rows: map<nat, Device>, proof: Option<nat>)

  /** Where `execute_job` is: not begun, between devices, or committed to send or to refuse the next one, or done with it. */
  datatype Stage = Spawned | Between | Sending(device: nat) | Refusing(device: nat) | Answered(device: nat, ok: bool)

  datatype Task = Task(stage: Stage, rows: map<nat, Device>, remaining: seq<nat>, allOk: bool)

  /** `commands` says which known commands are destructive. */
  datatype Store = Store(
    commands: map<string, bool>,
    users: map<nat, User>,
    devices: map<nat, Device>,
    confirmations: map<nat, Confirmation>,
    jobs: map<nat, Job>)

  // ---------------------------------------------------------------- checks

  predicate Destructive(db: Store, command: string)
  {
    command in db.commands && db.commands[command]
  }

  /** The user's account and role admit the command. */
  predicate Entitled(db: Store, user: nat, command: string)
  {
    && user in db.users && db.users[user].active && db.users[user].role != Viewer
    && (Destructive(db, command) ==> db.users[user].role == Admin)
  }

  predicate Permitted(db: Store, user: nat, command: string)
  {
    command in db.commands && Entitled(db, user, command)
  }

  predicate Usable(d: Device)
  {
    !d.archived && !d.paused && d.verified
  }

  /** `validate_targets`, and the rows it returns. */
  predicate Targetable(db: Store, rows: map<nat, Device>)
  {
    forall d :: d in rows ==> d in db.devices && rows[d] == db.devices[d] && Usable(rows[d])
  }

  /** The confirmation check of `operation`. */
  predicate Proves(db: Store, r: Request, now: real)
  {
    && r.proof.Some? && r.proof.value in db.confirmations
    && var c := db.confirmations[r.proof.value];
    && c.user == r.user && c.command == r.command && c.targets == r.rows.Keys && !(c.expires < now)
  }

  /** The re-check before each device: nothing about it or about the owner's rights has changed. */
  predicate StillAllowed(db: Store, job: Job, device: nat, row: Device)
  {
    && device in db.devices && !db.devices[device].archived && !db.devices[device].paused
    && db.devices[device].revision == row.revision
    && Entitled(db, job.owner, job.command)
  }

  predicate Unfinished(s: Status)
  {
    s.Queued? || s.Running?
  }

  // ---------------------------------------------------------------- transactions

  /** The committing transaction of `operation`: deletes the confirmation, and adds the job if it was still there. */
  predicate Commits(db: Store, r: Request)
  {
    Destructive(db, r.command) ==> r.proof.Some? && r.proof.value in db.confirmations
  }

  function Committed(db: Store, r: Request, id: nat): Store
    requires Commits(db, r)
  {
    db.(confirmations := if Destructive(db, r.command) then db.confirmations - {r.proof.value} else db.confirmations,
        jobs := db.jobs[id := Job(r.user, r.command, r.rows.Keys, Queued, {})])
  }

  /** `Collector.start`. */
  function Restarted(jobs: map<nat, Job>): map<nat, Job>
  {
    map id | id in jobs :: if Unfinished(jobs[id].status) then jobs[id].(status := Interrupted) else jobs[id]
  }

  // ---------------------------------------------------------------- runs

  /** The tables, the process memory (`requests`, jobs about to be `spawned`, `tasks`), and the past: confirmations ever
      issued, job ids ever used, the confirmation each destructive job consumed, and how often each (job, device) pair
      was handed to the transport. */
  datatype World = World(
    db: Store,
    requests: map<nat, Request>,
    spawning: map<nat, map<nat, Device>>,
    tasks: map<nat, Task>,
    issued: map<nat, Confirmation>,
    started: map<nat, Job>,
    consumed: map<nat, nat>,
    sends: map<(nat, nat), nat>)

  function Initial(commands: map<string, bool>): World
  {
    World(Store(commands, map[], map[], map[], map[]), map[], map[], map[], map[], map[], map[], map[])
  }

  function Sent(w: World, job: nat, device: nat): nat
  {
    if (job, device) in w.sends then w.sends[(job, device)] else 0
  }

  datatype Step =
    | SetUser(user: nat, account: Option<User>)
    | SetDevice(device: nat, row: Option<Device>)
    | Confirm(confirmation: nat, issue: Confirmation)
    | Expire(now: real)
    | Forget(job: nat)
    | Check(request: nat, asked: Request, now: real)
    | Commit(request: nat, job: nat)
    | Spawn(job: nat, order: seq<nat>)
    | Begin(job: nat)
    | Recheck(job: nat)
    | Transmit(job: nat, ok: bool)
    | Refuse(job: nat)
    | StoreResult(job: nat)
    | Finish(job: nat)
    | Restart

  predicate Distinct(s: seq<nat>)
  {
    forall i, j :: 0 <= i < j < |s| ==> s[i] != s[j]
  }

  ghost predicate Enabled(w: World, step: Step)
  {
    match step
    case Confirm(c, issue) =>
      // a fresh random token, for targets and a command its admin may confirm
      && c !in w.issued
      && Permitted(w.db, issue.user, issue.command) && Destructive(w.db, issue.command)
      && forall d :: d in issue.targets ==> d in w.db.devices && Usable(w.db.devices[d])
    case Forget(j) => j in w.db.jobs && !Unfinished(w.db.jobs[j].status)
    case Check(r, asked, now) =>
      && r !in w.requests
      && Permitted(w.db, asked.user, asked.command) && Targetable(w.db, asked.rows)
      && (Destructive(w.db, asked.command) ==> Proves(w.db, asked, now))
    case Commit(r, j) => r in w.requests && j !in w.started && Commits(w.db, w.requests[r])
    case Spawn(j, order) =>
      j in w.spawning && Distinct(order) && forall d :: d in order <==> d in w.spawning[j]
    case Begin(j) => j in w.tasks && w.tasks[j].stage.Spawned? && j in w.db.jobs
    case Recheck(j) => j in w.tasks && w.tasks[j].stage.Between? && w.tasks[j].remaining != [] && j in w.db.jobs
                       && w.tasks[j].remaining[0] in w.tasks[j].rows
    case Transmit(j, _) => j in w.tasks && w.tasks[j].stage.Sending?
    case Refuse(j) => j in w.tasks && w.tasks[j].stage.Refusing?
    case StoreResult(j) => j in w.tasks && w.tasks[j].stage.Answered? && j in w.db.jobs && w.tasks[j].remaining != []
    case Finish(j) => j in w.tasks && w.tasks[j].stage.Between? && w.tasks[j].remaining == [] && j in w.db.jobs
    case _ => true
  }

  ghost function Exec(w: World, step: Step): World
    requires Enabled(w, step)
  {
    match step
    case SetUser(u, account) => w.(db := w.db.(users := Update(w.db.users, u, account)))
    case SetDevice(d, row) => w.(db := w.db.(devices := Update(w.db.devices, d, row)))
    case Confirm(c, issue) =>
      w.(db := w.db.(confirmations := w.db.confirmations[c := issue]), issued := w.issued[c := issue])
    case Expire(now) =>
      w.(db := w.db.(confirmations := map c | c in w.db.confirmations && !(w.db.confirmations[c].expires < now)
                                        :: w.db.confirmations[c]))
    case Forget(j) => w.(db := w.db.(jobs := w.db.jobs - {j}))
    case Check(r, asked, _) => w.(requests := w.requests[r := asked])
    case Commit(r, j) =>
      var asked := w.requests[r];
      var db := Committed(w.db, asked, j);
      w.(db := db,
         requests := w.requests - {r},
         spawning := w.spawning[j := asked.rows],
         started := w.started[j := db.jobs[j]],
         consumed := if Destructive(w.db, asked.command) then w.consumed[j := asked.proof.value] else w.consumed)
    case Spawn(j, order) =>
      w.(spawning := w.spawning - {j}, tasks := w.tasks[j := Task(Spawned, w.spawning[j], order, true)])
    case Begin(j) =>
      w.(db := w.db.(jobs := w.db.jobs[j := w.db.jobs[j].(status := Running)]),
         tasks := w.tasks[j := w.tasks[j].(stage := Between)])
    case Recheck(j) =>
      var task := w.tasks[j];
      var d := task.remaining[0];
      w.(tasks := w.tasks[j := task.(stage := if StillAllowed(w.db, w.db.jobs[j], d, task.rows[d]) then Sending(d)
                                              else Refusing(d))])
    case Transmit(j, ok) =>
      var d := w.tasks[j].stage.device;
      w.(tasks := w.tasks[j := w.tasks[j].(stage := Answered(d, ok))], sends := w.sends[(j, d) := Sent(w, j, d) + 1])
    case Refuse(j) => w.(tasks := w.tasks[j := w.tasks[j].(stage := Answered(w.tasks[j].stage.device, false))])
    case StoreResult(j) =>
      var task := w.tasks[j];
      w.(db := w.db.(jobs := w.db.jobs[j := w.db.jobs[j].(results := w.db.jobs[j].results + {task.stage.device})]),
         tasks := w.tasks[j := task.(stage := Between, remaining := task.remaining[1..], allOk := task.allOk && task.stage.ok)])
    case Finish(j) =>
      w.(db := w.db.(jobs := w.db.jobs[j := w.db.jobs[j].(status := if w.tasks[j].allOk then Complete else Failed)]),
         tasks := w.tasks - {j})
    case Restart =>
      w.(db := w.db.(jobs := Restarted(w.db.jobs)), requests := map[], spawning := map[], tasks := map[])
  }

  // ---------------------------------------------------------------- invariant

  /** Has its runner already handed the device to the transport in its current turn? */
  predicate HandedOver(stage: Stage, device: nat)
  {
    stage.Answered? && stage.device == device
  }

  /** A live task works for an unfinished job; the devices left are distinct, unanswered targets, none sent to before its
      turn; those done have results. */
  ghost predicate TaskOk(w: World, j: nat)
    requires j in w.tasks
  {
    var task := w.tasks[j];
    && j in w.db.jobs && Unfinished(w.db.jobs[j].status)
    && Distinct(task.remaining)
    && (forall d :: d in task.remaining <==> d in w.db.jobs[j].targets && d !in w.db.jobs[j].results)
    && (forall d :: d in task.remaining ==> d in task.rows)
    && (forall d :: d in task.remaining && !HandedOver(task.stage, d) ==> Sent(w, j, d) == 0)
    && (task.stage.Sending? || task.stage.Refusing? || task.stage.Answered? ==>
          task.remaining != [] && task.stage.device == task.remaining[0])
  }

  ghost predicate JobOk(w: World, j: nat)
    requires j in w.db.jobs
  {
    && j in w.started
    && w.db.jobs[j].(status := Queued, results := {}) == w.started[j]
    && w.db.jobs[j].results <= w.db.jobs[j].targets
    && (w.db.jobs[j].status.Complete? || w.db.jobs[j].status.Failed? ==> w.db.jobs[j].results == w.db.jobs[j].targets)
  }

  /** A job about to be spawned is untouched. */
  ghost predicate SpawningOk(w: World, j: nat)
    requires j in w.spawning
  {
    && j in w.db.jobs && Unfinished(w.db.jobs[j].status) && j !in w.tasks
    && w.db.jobs[j].targets == w.spawning[j].Keys && w.db.jobs[j].results == {}
    && forall d :: Sent(w, j, d) == 0
  }

  ghost predicate WorkInv(w: World)
  {
    && (forall j :: j in w.tasks ==> TaskOk(w, j))
    && (forall j :: j in w.spawning ==> SpawningOk(w, j))
    && (forall j :: j in w.db.jobs ==> JobOk(w, j))
    && (forall j, d :: Sent(w, j, d) <= 1)
    && (forall j, d :: Sent(w, j, d) > 0 ==> j in w.started && d in w.started[j].targets)
  }

  /** A checked request's confirmation was issued for exactly what it asks. */
  predicate Matches(c: Confirmation, user: nat, command: string, targets: set<nat>)
  {
    c.user == user && c.command == command && c.targets == targets
  }

  ghost predicate ProofInv(w: World)
  {
    && (forall c :: c in w.db.confirmations ==> c in w.issued && w.issued[c] == w.db.confirmations[c])
    && (forall r :: r in w.requests && Destructive(w.db, w.requests[r].command) ==>
          var asked := w.requests[r];
          && asked.proof.Some? && asked.proof.value in w.issued
          && Matches(w.issued[asked.proof.value], asked.user, asked.command, asked.rows.Keys))
    && (forall j :: j in w.consumed ==> j in w.started && w.consumed[j] in w.issued && w.consumed[j] !in w.db.confirmations)
    && (forall j :: j in w.started ==>
          (Destructive(w.db, w.started[j].command) <==> j in w.consumed))
    && (forall j :: j in w.consumed ==>
          Matches(w.issued[w.consumed[j]], w.started[j].owner, w.started[j].command, w.started[j].targets))
    && (forall i, j :: i in w.consumed && j in w.consumed && w.consumed[i] == w.consumed[j] ==> i == j)
  }

  ghost predicate Inv(w: World)
  {
    WorkInv(w) && ProofInv(w)
  }

  // ---------------------------------------------------------------- preservation

  /** A step that changes no job, task or send. */
  predicate SameWork(w: World, w': World)
  {
    w'.db.jobs == w.db.jobs && w'.tasks == w.tasks && w'.spawning == w.spawning && w'.sends == w.sends && w'.started == w.started
  }

  lemma {:induction false} SameWorkKeeps(w: World, w': World)
    requires WorkInv(w) && SameWork(w, w')
    ensures WorkInv(w')
  {
    assert forall j, d :: Sent(w', j, d) == Sent(w, j, d);
    forall j | j in w'.tasks
      ensures TaskOk(w', j)
    {
      assert TaskOk(w, j);
    }
    forall j | j in w'.spawning
      ensures SpawningOk(w', j)
    {
      assert SpawningOk(w, j);
    }
    forall j | j in w'.db.jobs
      ensures JobOk(w', j)
    {
      assert JobOk(w, j);
    }
  }

  lemma {:induction false} EnvironmentKeepsInv(w: World, step: Step)
    requires Inv(w) && Enabled(w, step)
    requires step.SetUser? || step.SetDevice? || step.Confirm? || step.Expire? || step.Check?
    ensures Inv(Exec(w, step))
  {
    SameWorkKeeps(w, Exec(w, step));
    EnvironmentKeepsProofs(w, step);
  }

  lemma {:induction false} EnvironmentKeepsProofs(w: World, step: Step)
    requires ProofInv(w) && Enabled(w, step)
    requires step.SetUser? || step.SetDevice? || step.Confirm? || step.Expire? || step.Check?
    ensures ProofInv(Exec(w, step))
  {
  }

  /** A job that is neither queued nor running has nothing left in memory. */
  lemma {:induction false} ForgetKeepsInv(w: World, j: nat)
    requires Inv(w) && Enabled(w, Forget(j))
    ensures Inv(Exec(w, Forget(j)))
  {
    var w' := Exec(w, Forget(j));
    assert forall k, d :: Sent(w', k, d) == Sent(w, k, d);
    assert j in w.tasks ==> TaskOk(w, j);
    assert j in w.spawning ==> SpawningOk(w, j);
    forall k | k in w'.tasks
      ensures TaskOk(w', k)
    {
      assert TaskOk(w, k);
    }
    forall k | k in w'.spawning
      ensures SpawningOk(w', k)
    {
      assert SpawningOk(w, k);
    }
    forall k | k in w'.db.jobs
      ensures JobOk(w', k)
    {
      assert JobOk(w, k);
    }
  }

  /** A job id never used has left no trace. */
  lemma {:induction false} UnusedJob(w: World, j: nat)
    requires WorkInv(w) && j !in w.started
    ensures j !in w.db.jobs && j !in w.tasks && j !in w.spawning && forall d :: Sent(w, j, d) == 0
  {
    assert j in w.db.jobs ==> JobOk(w, j);
    assert j in w.tasks ==> TaskOk(w, j);
    assert j in w.spawning ==> SpawningOk(w, j);
  }

  lemma {:induction false} CommitKeepsWork(w: World, r: nat, j: nat)
    requires WorkInv(w) && Enabled(w, Commit(r, j))
    ensures WorkInv(Exec(w, Commit(r, j)))
  {
    var w' := Exec(w, Commit(r, j));
    UnusedJob(w, j);
    assert forall k, d :: Sent(w', k, d) == Sent(w, k, d);
    NewJobKeepsWork(w, w', j);
  }

  lemma {:induction false} NewJobKeepsWork(w: World, w': World, j: nat)
    requires WorkInv(w) && j !in w.started && j !in w.db.jobs && j !in w.tasks && j in w'.started && j in w'.spawning
    requires w'.started == w.started[j := w'.started[j]] && w'.spawning == w.spawning[j := w'.spawning[j]]
    requires w'.tasks == w.tasks && w'.db.jobs == w.db.jobs[j := w'.started[j]]
    requires w'.started[j].status.Queued? && w'.started[j].results == {} && w'.started[j].targets == w'.spawning[j].Keys
    requires forall k, d :: Sent(w', k, d) == Sent(w, k, d)
    requires forall d :: Sent(w, j, d) == 0
    ensures WorkInv(w')
  {
    forall k | k in w'.tasks
      ensures TaskOk(w', k)
    {
      assert TaskOk(w, k);
    }
    forall k | k in w'.spawning
      ensures SpawningOk(w', k)
    {
      assert k != j ==> SpawningOk(w, k);
    }
    forall k | k in w'.db.jobs
      ensures JobOk(w', k)
    {
      assert k != j ==> JobOk(w, k);
    }
  }

  lemma {:induction false} CommitKeepsInv(w: World, r: nat, j: nat)
    requires Inv(w) && Enabled(w, Commit(r, j))
    ensures Inv(Exec(w, Commit(r, j)))
  {
    CommitKeepsWork(w, r, j);
    CommitKeepsProofs(w, r, j);
  }

  lemma {:induction false} CommitKeepsProofs(w: World, r: nat, j: nat)
    requires Inv(w) && Enabled(w, Commit(r, j))
    ensures ProofInv(Exec(w, Commit(r, j)))
  {
    var asked := w.requests[r];
    var job := Job(asked.user, asked.command, asked.rows.Keys, Queued, {});
    if Destructive(w.db, job.command) {
      ProvenCommit(w, Exec(w, Commit(r, j)), r, j, job, asked.proof.value);
    } else {
      PlainCommit(w, Exec(w, Commit(r, j)), r, j, job);
    }
  }

  /** Committing without a confirmation. */
  lemma {:induction false} PlainCommit(w: World, w': World, r: nat, j: nat, job: Job)
    requires ProofInv(w) && j !in w.started && !Destructive(w.db, job.command)
    requires w'.issued == w.issued && w'.requests == w.requests - {r} && w'.started == w.started[j := job]
    requires w'.db.commands == w.db.commands && w'.db.confirmations == w.db.confirmations && w'.consumed == w.consumed
    ensures ProofInv(w')
  {
    assert j !in w.consumed;
  }

  /** Committing with the confirmation `proof`, which is used up and was not before. */
  lemma {:induction false} ProvenCommit(w: World, w': World, r: nat, j: nat, job: Job, proof: nat)
    requires ProofInv(w) && j !in w.started && Destructive(w.db, job.command)
    requires proof in w.db.confirmations && Matches(w.issued[proof], job.owner, job.command, job.targets)
    requires w'.issued == w.issued && w'.requests == w.requests - {r} && w'.started == w.started[j := job]
    requires w'.db.commands == w.db.commands && w'.db.confirmations == w.db.confirmations - {proof}
    requires w'.consumed == w.consumed[j := proof]
    ensures ProofInv(w')
  {
    assert j !in w.consumed;
    assert forall k :: k in w.consumed ==> w.consumed[k] != proof;
  }

  lemma {:induction false} SpawnKeepsInv(w: World, j: nat, order: seq<nat>)
    requires Inv(w) && Enabled(w, Spawn(j, order))
    ensures Inv(Exec(w, Spawn(j, order)))
  {
    var w' := Exec(w, Spawn(j, order));
    assert SpawningOk(w, j);
    assert forall k, d :: Sent(w', k, d) == Sent(w, k, d);
    forall k | k in w'.tasks
      ensures TaskOk(w', k)
    {
      assert k != j ==> TaskOk(w, k);
    }
    forall k | k in w'.spawning
      ensures SpawningOk(w', k)
    {
      assert SpawningOk(w, k);
    }
    forall k | k in w'.db.jobs
      ensures JobOk(w', k)
    {
      assert JobOk(w, k);
    }
  }

  /** A step of one task: other jobs are untouched, its own task and row stay good. */
  lemma {:induction false} TaskStepKeepsWork(w: World, w': World, j: nat)
    requires WorkInv(w) && j in w.tasks && j in w'.db.jobs
    requires w'.spawning == w.spawning && w'.started == w.started
    requires forall k :: k != j ==> (k in w'.tasks <==> k in w.tasks) && (k in w'.db.jobs <==> k in w.db.jobs)
    requires forall k :: k != j && k in w'.tasks ==> w'.tasks[k] == w.tasks[k]
    requires forall k :: k != j && k in w'.db.jobs ==> w'.db.jobs[k] == w.db.jobs[k]
    requires forall k, d :: k != j ==> Sent(w', k, d) == Sent(w, k, d)
    requires forall d :: Sent(w', j, d) <= 1 && (Sent(w', j, d) > 0 ==> d in w.started[j].targets)
    requires JobOk(w', j) && (j in w'.tasks ==> TaskOk(w', j))
    ensures WorkInv(w')
  {
    assert TaskOk(w, j);
    assert JobOk(w, j);
    assert j in w.spawning ==> SpawningOk(w, j);
    forall k | k in w'.tasks
      ensures TaskOk(w', k)
    {
      assert k != j ==> TaskOk(w, k);
    }
    forall k | k in w'.spawning
      ensures SpawningOk(w', k)
    {
      assert SpawningOk(w, k);
    }
    forall k | k in w'.db.jobs
      ensures JobOk(w', k)
    {
      assert k != j ==> JobOk(w, k);
    }
    assert forall k, d :: Sent(w', k, d) <= 1;
    assert forall k, d :: Sent(w', k, d) > 0 ==> k in w'.started && d in w'.started[k].targets;
  }

  predicate IsTaskStep(step: Step)
  {
    step.Begin? || step.Recheck? || step.Transmit? || step.Refuse? || step.StoreResult? || step.Finish?
  }

  /** Executing a job touches no request and no confirmation. */
  lemma {:induction false} TaskStepKeepsProofs(w: World, step: Step)
    requires ProofInv(w) && Enabled(w, step) && IsTaskStep(step)
    ensures ProofInv(Exec(w, step))
  {
    var w' := Exec(w, step);
    assert w'.db.commands == w.db.commands && w'.db.confirmations == w.db.confirmations;
    assert w'.requests == w.requests && w'.issued == w.issued && w'.started == w.started && w'.consumed == w.consumed;
  }

  lemma {:induction false} BeginKeepsWork(w: World, j: nat)
    requires WorkInv(w) && Enabled(w, Begin(j))
    ensures WorkInv(Exec(w, Begin(j)))
  {
    var w' := Exec(w, Begin(j));
    assert TaskOk(w, j) && JobOk(w, j);
    assert forall k, d :: Sent(w', k, d) == Sent(w, k, d);
    TaskStepKeepsWork(w, w', j);
  }

  lemma {:induction false} RecheckKeepsWork(w: World, j: nat)
    requires WorkInv(w) && Enabled(w, Recheck(j))
    ensures WorkInv(Exec(w, Recheck(j)))
  {
    var w' := Exec(w, Recheck(j));
    assert TaskOk(w, j) && JobOk(w, j);
    assert forall k, d :: Sent(w', k, d) == Sent(w, k, d);
    TaskStepKeepsWork(w, w', j);
  }

  lemma {:induction false} TransmitKeepsWork(w: World, j: nat, ok: bool)
    requires WorkInv(w) && Enabled(w, Transmit(j, ok))
    ensures WorkInv(Exec(w, Transmit(j, ok)))
  {
    var w' := Exec(w, Transmit(j, ok));
    var device := w.tasks[j].stage.device;
    assert TaskOk(w, j) && JobOk(w, j);
    assert forall k, d :: Sent(w', k, d) == Sent(w, k, d) + if k == j && d == device then 1 else 0;
    HandedOverTask(w, w', j, device, ok);
    TaskStepKeepsWork(w, w', j);
  }

  lemma {:induction false} HandedOverTask(w: World, w': World, j: nat, device: nat, ok: bool)
    requires j in w.tasks && TaskOk(w, j) && JobOk(w, j) && w.tasks[j].stage == Sending(device)
    requires j in w'.tasks && w'.tasks[j] == w.tasks[j].(stage := Answered(device, ok))
    requires w'.db.jobs == w.db.jobs && w'.started == w.started
    requires forall d :: Sent(w', j, d) == Sent(w, j, d) + if d == device then 1 else 0
    ensures TaskOk(w', j) && JobOk(w', j)
    ensures Sent(w', j, device) == 1 && device in w.started[j].targets
  {
    assert device in w.tasks[j].remaining;
  }

  lemma {:induction false} RefuseKeepsWork(w: World, j: nat)
    requires WorkInv(w) && Enabled(w, Refuse(j))
    ensures WorkInv(Exec(w, Refuse(j)))
  {
    var w' := Exec(w, Refuse(j));
    assert TaskOk(w, j) && JobOk(w, j);
    assert forall k, d :: Sent(w', k, d) == Sent(w, k, d);
    TaskStepKeepsWork(w, w', j);
  }

  lemma {:induction false} StoreResultKeepsWork(w: World, j: nat)
    requires WorkInv(w) && Enabled(w, StoreResult(j))
    ensures WorkInv(Exec(w, StoreResult(j)))
  {
    var w' := Exec(w, StoreResult(j));
    assert TaskOk(w, j) && JobOk(w, j);
    assert w'.sends == w.sends;
    assert w'.tasks == w.tasks[j := w'.tasks[j]] && w'.db.jobs == w.db.jobs[j := w'.db.jobs[j]];
    StoredTask(w, w', j);
    TaskStepKeepsWork(w, w', j);
  }

  lemma {:induction false} StoredTask(w: World, w': World, j: nat)
    requires j in w.tasks && TaskOk(w, j) && JobOk(w, j) && w.tasks[j].stage.Answered?
    requires j in w'.tasks && w'.tasks[j].rows == w.tasks[j].rows && w'.tasks[j].stage.Between?
    requires w'.tasks[j].remaining == w.tasks[j].remaining[1..]
    requires j in w'.db.jobs && w'.started == w.started
    requires w'.db.jobs[j] == w.db.jobs[j].(results := w.db.jobs[j].results + {w.tasks[j].stage.device})
    requires forall d :: Sent(w', j, d) == Sent(w, j, d)
    ensures TaskOk(w', j) && JobOk(w', j)
  {
    var remaining := w.tasks[j].remaining;
    assert remaining == [remaining[0]] + remaining[1..];
    assert remaining[0] in remaining;
    assert forall d :: d in remaining[1..] <==> d in remaining && d != remaining[0];
  }

  lemma {:induction false} FinishKeepsWork(w: World, j: nat)
    requires WorkInv(w) && Enabled(w, Finish(j))
    ensures WorkInv(Exec(w, Finish(j)))
  {
    var w' := Exec(w, Finish(j));
    assert TaskOk(w, j) && JobOk(w, j);
    assert w.db.jobs[j].results == w.db.jobs[j].targets by {
      assert forall d :: d in w.db.jobs[j].targets ==> d !in w.tasks[j].remaining;
    }
    assert forall k, d :: Sent(w', k, d) == Sent(w, k, d);
    TaskStepKeepsWork(w, w', j);
  }

  lemma {:induction false} RestartKeepsInv(w: World)
    requires Inv(w)
    ensures Inv(Exec(w, Restart))
  {
    var w' := Exec(w, Restart);
    assert forall k, d :: Sent(w', k, d) == Sent(w, k, d);
    forall k | k in w'.db.jobs
      ensures JobOk(w', k)
    {
      assert JobOk(w, k);
    }
  }

  lemma {:induction false} StepKeepsInv(w: World, step: Step)
    requires Inv(w) && Enabled(w, step)
    ensures Inv(Exec(w, step))
  {
    if IsTaskStep(step) {
      TaskStepKeepsProofs(w, step);
      TaskKeepsWork(w, step);
    } else if step.Forget? || step.Commit? || step.Spawn? || step.Restart? {
      JobStepKeepsInv(w, step);
    } else {
      EnvironmentKeepsInv(w, step);
    }
  }

  lemma {:induction false} JobStepKeepsInv(w: World, step: Step)
    requires Inv(w) && Enabled(w, step) && (step.Forget? || step.Commit? || step.Spawn? || step.Restart?)
    ensures Inv(Exec(w, step))
  {
    match step
    case Forget(j) => ForgetKeepsInv(w, j);
    case Commit(r, j) => CommitKeepsInv(w, r, j);
    case Spawn(j, order) => SpawnKeepsInv(w, j, order);
    case Restart => RestartKeepsInv(w);
  }

  lemma {:induction false} TaskKeepsWork(w: World, step: Step)
    requires WorkInv(w) && Enabled(w, step) && IsTaskStep(step)
    ensures WorkInv(Exec(w, step))
  {
    match step
    case Begin(j) => BeginKeepsWork(w, j);
    case Recheck(j) => RecheckKeepsWork(w, j);
    case Transmit(j, ok) => TransmitKeepsWork(w, j, ok);
    case Refuse(j) => RefuseKeepsWork(w, j);
    case StoreResult(j) => StoreResultKeepsWork(w, j);
    case Finish(j) => FinishKeepsWork(w, j);
  }

  ghost predicate IsRun(commands: map<string, bool>, steps: seq<Step>)
    decreases |steps|, 0
  {
    steps == []
    || (IsRun(commands, steps[..|steps| - 1]) && Enabled(After(commands, steps[..|steps| - 1]), steps[|steps| - 1]))
  }

  ghost function After(commands: map<string, bool>, steps: seq<Step>): World
    requires IsRun(commands, steps)
    decreases |steps|, 1
  {
    if steps == [] then Initial(commands) else Exec(After(commands, steps[..|steps| - 1]), steps[|steps| - 1])
  }

  lemma {:induction false} RunKeepsInv(commands: map<string, bool>, steps: seq<Step>)
    requires IsRun(commands, steps)
    ensures Inv(After(commands, steps))
  {
    if steps == [] {
      assert forall j, d :: Sent(Initial(commands), j, d) == 0;
    } else {
      RunKeepsInv(commands, steps[..|steps| - 1]);
      StepKeepsInv(After(commands, steps[..|steps| - 1]), steps[|steps| - 1]);
    }
  }

  // ---------------------------------------------------------------- main results

  /** In every run with restarts, a command reaches a device at most once per job, and only a device the job names; and a
      finished job has a result for exactly its targets. */
  lemma {:induction false} AtMostOnce(commands: map<string, bool>, steps: seq<Step>, j: nat, d: nat)
    requires IsRun(commands, steps)
    ensures var w := After(commands, steps);
            && Sent(w, j, d) <= 1
            && (Sent(w, j, d) == 1 ==> j in w.started && d in w.started[j].targets)
            && (j in w.db.jobs && (w.db.jobs[j].status.Complete? || w.db.jobs[j].status.Failed?) ==>
                  w.db.jobs[j].results == w.db.jobs[j].targets)
  {
    RunKeepsInv(commands, steps);
    var w := After(commands, steps);
    assert j in w.db.jobs ==> JobOk(w, j);
  }

  predicate Settled(w: World, j: nat)
  {
    j in w.started && (j in w.db.jobs ==> !Unfinished(w.db.jobs[j].status))
  }

  /** A restart settles every job there is: what was queued or running is interrupted, what had finished stays as it was. */
  lemma {:induction false} RestartSettles(w: World, j: nat)
    requires Inv(w) && j in w.started
    ensures Settled(Exec(w, Restart), j)
    ensures j in Exec(w, Restart).db.jobs <==> j in w.db.jobs
    ensures j in w.db.jobs ==>
              var (job, job') := (w.db.jobs[j], Exec(w, Restart).db.jobs[j]);
              && (job.status == Queued || job.status == Running ==> job' == job.(status := Interrupted))
              && (job.status != Queued && job.status != Running ==> job' == job)
  {
  }

  /** A settled job, interrupted or finished, never changes and never sends again; it can only be deleted. */
  lemma {:induction false} SettledForever(w: World, step: Step, j: nat, d: nat)
    requires WorkInv(w) && Enabled(w, step) && Settled(w, j)
    ensures var w' := Exec(w, step);
            && Settled(w', j)
            && Sent(w', j, d) == Sent(w, j, d)
            && (j in w'.db.jobs ==> j in w.db.jobs && w'.db.jobs[j] == w.db.jobs[j])
  {
    assert j in w.tasks ==> TaskOk(w, j);
    if IsTaskStep(step) {
      SettledBesideTasks(w, step, j, d);
    }
  }

  lemma {:induction false} SettledBesideTasks(w: World, step: Step, j: nat, d: nat)
    requires j !in w.tasks && Enabled(w, step) && Settled(w, j) && IsTaskStep(step)
    ensures var w' := Exec(w, step);
            && Settled(w', j)
            && Sent(w', j, d) == Sent(w, j, d)
            && (j in w'.db.jobs ==> j in w.db.jobs && w'.db.jobs[j] == w.db.jobs[j])
  {
  }

  /** Whatever happens after a job has settled, restarts included, nothing more is sent for it. */
  lemma {:induction false} SettledNeverSends(commands: map<string, bool>, steps: seq<Step>, n: nat, j: nat, d: nat)
    requires n <= |steps| && IsRun(commands, steps)
    requires IsRun(commands, steps[..n]) && Settled(After(commands, steps[..n]), j)
    ensures Settled(After(commands, steps), j)
    ensures Sent(After(commands, steps), j, d) == Sent(After(commands, steps[..n]), j, d)
  {
    if n == |steps| {
      assert steps[..n] == steps;
    } else {
      var front, last := steps[..|steps| - 1], steps[|steps| - 1];
      assert front[..n] == steps[..n];
      SettledNeverSends(commands, front, n, j, d);
      RunKeepsInv(commands, front);
      SettledForever(After(commands, front), last, j, d);
    }
  }

  /** Destructive jobs map injectively to confirmations issued for the same user, command and targets, each used up. */
  lemma {:induction false} DestructiveJobsConfirmed(commands: map<string, bool>, steps: seq<Step>, i: nat, j: nat)
    requires IsRun(commands, steps)
    requires var w := After(commands, steps);
             && i in w.started && Destructive(w.db, w.started[i].command)
             && j in w.started && Destructive(w.db, w.started[j].command)
    ensures var w := After(commands, steps);
            && i in w.consumed && w.consumed[i] in w.issued && w.consumed[i] !in w.db.confirmations
            && Matches(w.issued[w.consumed[i]], w.started[i].owner, w.started[i].command, w.started[i].targets)
            && (i != j ==> j in w.consumed && w.consumed[i] != w.consumed[j])
  {
    RunKeepsInv(commands, steps);
  }

  /** Two requests that both passed the check on one confirmation: once one has committed, the other cannot. */
  lemma {:induction false} ConfirmationSpentOnce(w: World, r: nat, j: nat, other: nat)
    requires Inv(w) && Enabled(w, Commit(r, j)) && other in w.requests && other != r
    requires Destructive(w.db, w.requests[r].command) && Destructive(w.db, w.requests[other].command)
    requires w.requests[r].proof == w.requests[other].proof
    ensures forall k :: !Enabled(Exec(w, Commit(r, j)), Commit(other, k))
  {
  }
}
