/** What a request and a re-check admit, on the tables, and what therefore holds of every command ever sent. */
module CommandLaws {
  import opened Options
  import opened Commands

  // ---------------------------------------------------------------- single steps

  /** The account that a destructive, or any other, command needs. */
  predicate HasRights(db: Store, user: nat, command: string)
  {
    && user in db.users && db.users[user].active
    && (db.users[user].role == Operator || db.users[user].role == Admin)
    && (command in db.commands && db.commands[command] ==> db.users[user].role == Admin)
  }

  /** A request passes its checks exactly if the command is known, the account has the rights, every row it read is current,
      not archived, not paused and verified, and a destructive command comes with a confirmation for just this user, command
      and target list that has not expired. */
  lemma {:induction false} CheckAdmits(w: World, r: nat, asked: Request, now: real)
    ensures Enabled(w, Check(r, asked, now)) <==>
              (&& r !in w.requests && asked.command in w.db.commands && HasRights(w.db, asked.user, asked.command)
               && (forall d :: d in asked.rows ==>
                     && d in w.db.devices && asked.rows[d] == w.db.devices[d]
                     && !asked.rows[d].archived && !asked.rows[d].paused && asked.rows[d].verified)
               && (w.db.commands[asked.command] ==>
                     exists c :: c in w.db.confirmations && asked.proof == Some(c) && now <= w.db.confirmations[c].expires
                       && w.db.confirmations[c]
                          == Confirmation(asked.user, asked.command, asked.rows.Keys, w.db.confirmations[c].expires)))
  {
  }

  /** A confirmation can be issued exactly for a known destructive command, to an active admin, and for devices that are all
      stored, not archived, not paused and verified; expiry then removes exactly those whose time has passed. */
  lemma {:induction false} ConfirmationsIssued(w: World, c: nat, issue: Confirmation, now: real)
    ensures Enabled(w, Confirm(c, issue)) <==>
              (&& c !in w.issued && issue.command in w.db.commands && w.db.commands[issue.command]
               && issue.user in w.db.users && w.db.users[issue.user] == User(Admin, true)
               && forall d :: d in issue.targets ==>
                    && d in w.db.devices
                    && !w.db.devices[d].archived && !w.db.devices[d].paused && w.db.devices[d].verified)
    ensures forall k :: k in Exec(w, Expire(now)).db.confirmations
                        <==> k in w.db.confirmations && w.db.confirmations[k].expires >= now
  {
  }

  /** The device whose turn it is may still be sent to: it is stored, not archived, not paused and at the revision that the
      request read, and the owner still has the rights. */
  predicate StillFine(w: World, j: nat, d: nat)
  {
    && j in w.tasks && j in w.db.jobs && w.tasks[j].remaining != [] && w.tasks[j].remaining[0] == d && d in w.tasks[j].rows
    && d in w.db.devices && !w.db.devices[d].archived && !w.db.devices[d].paused
    && w.db.devices[d].revision == w.tasks[j].rows[d].revision
    && HasRights(w.db, w.db.jobs[j].owner, w.db.jobs[j].command)
  }

  /** A re-check commits to sending exactly if the device may still be sent to, and to refusing otherwise; it changes no
      table and sends nothing itself. */
  lemma {:induction false} RecheckDecides(w: World, j: nat)
    requires Enabled(w, Recheck(j))
    ensures var (w', d) := (Exec(w, Recheck(j)), w.tasks[j].remaining[0]);
            && w'.tasks[j].stage == (if StillFine(w, j, d) then Sending(d) else Refusing(d))
            && w'.db == w.db && w'.sends == w.sends
            && w'.tasks == w.tasks[j := w.tasks[j].(stage := w'.tasks[j].stage)]
  {
  }

  // ---------------------------------------------------------------- every command ever sent

  /** Some step of the run, with the steps before it, is as described. */
  ghost predicate Somewhere(steps: seq<Step>, described: (seq<Step>, Step) -> bool)
  {
    exists n :: 0 <= n < |steps| && described(steps[..n], steps[n])
  }

  lemma {:induction false} SomewhereLater(steps: seq<Step>, step: Step, described: (seq<Step>, Step) -> bool)
    ensures Somewhere(steps, described) ==> Somewhere(steps + [step], described)
    ensures described(steps, step) ==> Somewhere(steps + [step], described)
  {
    var longer := steps + [step];
    assert longer[..|steps|] == steps && longer[|steps|] == step;
    if Somewhere(steps, described) {
      var n :| 0 <= n < |steps| && described(steps[..n], steps[n]);
      assert longer[..n] == steps[..n] && longer[n] == steps[n];
    }
  }

  /** After the steps `before`, the step is a request of this user that passes its checks. */
  ghost predicate Passes(commands: map<string, bool>, before: seq<Step>, step: Step, user: nat, command: string,
                         rows: map<nat, Device>)
  {
    && IsRun(commands, before) && step.Check? && Enabled(After(commands, before), step)
    && step.asked.user == user && step.asked.command == command && step.asked.rows == rows
  }

  /** Some request of the run passed its checks with this user, command and these rows. */
  ghost predicate Asked(commands: map<string, bool>, steps: seq<Step>, user: nat, command: string, rows: map<nat, Device>)
  {
    Somewhere(steps, (before, step) => Passes(commands, before, step, user, command, rows))
  }

  /** After the steps `before`, the step re-checks the device for the job while it may still be sent to, and a request for
      the job with these rows has passed. */
  ghost predicate Clears(commands: map<string, bool>, before: seq<Step>, step: Step, j: nat, job: Job, d: nat)
  {
    && IsRun(commands, before) && step == Recheck(j)
    && StillFine(After(commands, before), j, d)
    && Asked(commands, before, job.owner, job.command, After(commands, before).tasks[j].rows)
  }

  /** Some step of the run cleared the device for the job. */
  ghost predicate Cleared(commands: map<string, bool>, steps: seq<Step>, j: nat, job: Job, d: nat)
  {
    Somewhere(steps, (before, step) => Clears(commands, before, step, j, job, d))
  }

  /** Facts about past requests, and about past re-checks. */
  type Requests = (nat, string, map<nat, Device>) -> bool

  type Clearings = (nat, Job, nat) -> bool

  /** Rows in memory come from a request that passed, and what is being or has been sent was cleared. */
  ghost predicate Traced(w: World, asked: Requests, cleared: Clearings)
  {
    && (forall r :: r in w.requests ==> asked(w.requests[r].user, w.requests[r].command, w.requests[r].rows))
    && (forall j :: j in w.spawning ==> j in w.started && asked(w.started[j].owner, w.started[j].command, w.spawning[j]))
    && (forall j :: j in w.tasks ==> j in w.started && asked(w.started[j].owner, w.started[j].command, w.tasks[j].rows))
    && (forall j :: j in w.tasks && w.tasks[j].stage.Sending? ==> cleared(j, w.started[j], w.tasks[j].stage.device))
    && (forall j, d :: (j, d) in w.sends ==> j in w.started && cleared(j, w.started[j], d))
  }

  lemma {:induction false} TracedLater(w: World, asked: Requests, cleared: Clearings, asked': Requests,
                                       cleared': Clearings)
    requires Traced(w, asked, cleared)
    requires forall u: nat, c, rows :: asked(u, c, rows) ==> asked'(u, c, rows)
    requires forall j: nat, job, d: nat :: cleared(j, job, d) ==> cleared'(j, job, d)
    ensures Traced(w, asked', cleared')
  {
  }

  /** Nothing new in memory, nothing new to send. */
  predicate Quiet(w: World, w': World)
  {
    && (forall r :: r in w'.requests ==> r in w.requests && w'.requests[r] == w.requests[r])
    && (forall j :: j in w'.spawning ==> j in w.spawning && w'.spawning[j] == w.spawning[j])
    && (forall j :: j in w'.tasks ==>
          && j in w.tasks && w'.tasks[j].rows == w.tasks[j].rows
          && (w'.tasks[j].stage.Sending? ==> w'.tasks[j].stage == w.tasks[j].stage))
    && w'.started == w.started && w'.sends == w.sends
  }

  lemma {:induction false} QuietTraced(w: World, w': World, asked: Requests, cleared: Clearings)
    requires Traced(w, asked, cleared) && Quiet(w, w')
    ensures Traced(w', asked, cleared)
  {
  }

  lemma {:induction false} IsQuiet(w: World, step: Step)
    requires Enabled(w, step)
    requires !step.Check? && !step.Commit? && !step.Spawn? && !step.Recheck? && !step.Transmit?
    ensures Quiet(w, Exec(w, step))
  {
  }

  lemma {:induction false} CheckTraced(w: World, w': World, r: nat, request: Request, asked: Requests,
                                       cleared: Clearings)
    requires Traced(w, asked, cleared) && asked(request.user, request.command, request.rows)
    requires w'.requests == w.requests[r := request] && w'.spawning == w.spawning && w'.tasks == w.tasks
    requires w'.started == w.started && w'.sends == w.sends
    ensures Traced(w', asked, cleared)
  {
  }

  lemma {:induction false} CommitTraced(w: World, w': World, r: nat, j: nat, job: Job, asked: Requests,
                                        cleared: Clearings)
    requires Traced(w, asked, cleared) && r in w.requests && j !in w.started
    requires job.owner == w.requests[r].user && job.command == w.requests[r].command
    requires w'.requests == w.requests - {r} && w'.spawning == w.spawning[j := w.requests[r].rows]
    requires w'.started == w.started[j := job] && w'.tasks == w.tasks && w'.sends == w.sends
    ensures Traced(w', asked, cleared)
  {
  }

  lemma {:induction false} SpawnTraced(w: World, w': World, j: nat, asked: Requests, cleared: Clearings)
    requires Traced(w, asked, cleared) && j in w.spawning
    requires w'.requests == w.requests && w'.started == w.started && w'.sends == w.sends
    requires w'.spawning == w.spawning - {j} && j in w'.tasks && w'.tasks == w.tasks[j := w'.tasks[j]]
    requires w'.tasks[j].rows == w.spawning[j] && w'.tasks[j].stage.Spawned?
    ensures Traced(w', asked, cleared)
  {
  }

  /** A step of one task, which may commit to sending what was cleared, or send what it had committed to. */
  lemma {:induction false} TaskTraced(w: World, w': World, j: nat, asked: Requests, cleared: Clearings)
    requires Traced(w, asked, cleared) && j in w.tasks && j in w.started
    requires w'.requests == w.requests && w'.started == w.started && w'.spawning == w.spawning
    requires j in w'.tasks && w'.tasks == w.tasks[j := w'.tasks[j]] && w'.tasks[j].rows == w.tasks[j].rows
    requires w'.tasks[j].stage.Sending? ==> cleared(j, w.started[j], w'.tasks[j].stage.device)
    requires forall k, d :: (k, d) in w'.sends ==> (k, d) in w.sends || (k == j && cleared(j, w.started[j], d))
    ensures Traced(w', asked, cleared)
  {
  }

  lemma {:induction false} RequestTraced(w: World, step: Step, asked: Requests, cleared: Clearings)
    requires WorkInv(w) && Enabled(w, step) && Traced(w, asked, cleared)
    requires step.Check? || step.Commit? || step.Spawn?
    requires step.Check? ==> asked(step.asked.user, step.asked.command, step.asked.rows)
    ensures Traced(Exec(w, step), asked, cleared)
  {
    var w' := Exec(w, step);
    match step
    case Check(r, request, _) => CheckTraced(w, w', r, request, asked, cleared);
    case Commit(r, j) =>
      CommitTraced(w, w', r, j, Job(w.requests[r].user, w.requests[r].command, w.requests[r].rows.Keys, Queued, {}),
                   asked, cleared);
    case Spawn(j, _) => SpawnTraced(w, w', j, asked, cleared);
  }

  lemma {:induction false} RecheckTraced(w: World, j: nat, asked: Requests, cleared: Clearings)
    requires Enabled(w, Recheck(j)) && Traced(w, asked, cleared)
    requires StillFine(w, j, w.tasks[j].remaining[0]) ==>
               j in w.started && cleared(j, w.started[j], w.tasks[j].remaining[0])
    ensures Traced(Exec(w, Recheck(j)), asked, cleared)
  {
    RecheckDecides(w, j);
    TaskTraced(w, Exec(w, Recheck(j)), j, asked, cleared);
  }

  lemma {:induction false} TransmitTraced(w: World, j: nat, ok: bool, asked: Requests, cleared: Clearings)
    requires Enabled(w, Transmit(j, ok)) && Traced(w, asked, cleared)
    ensures Traced(Exec(w, Transmit(j, ok)), asked, cleared)
  {
    TaskTraced(w, Exec(w, Transmit(j, ok)), j, asked, cleared);
  }

  lemma {:induction false} StepTraced(w: World, step: Step, asked: Requests, cleared: Clearings)
    requires WorkInv(w) && Enabled(w, step) && Traced(w, asked, cleared)
    requires step.Check? ==> asked(step.asked.user, step.asked.command, step.asked.rows)
    requires step.Recheck? && StillFine(w, step.job, w.tasks[step.job].remaining[0]) ==>
               step.job in w.started && cleared(step.job, w.started[step.job], w.tasks[step.job].remaining[0])
    ensures Traced(Exec(w, step), asked, cleared)
  {
    if step.Check? || step.Commit? || step.Spawn? {
      RequestTraced(w, step, asked, cleared);
    } else if step.Recheck? {
      RecheckTraced(w, step.job, asked, cleared);
    } else if step.Transmit? {
      TransmitTraced(w, step.job, step.ok, asked, cleared);
    } else {
      IsQuiet(w, step);
      QuietTraced(w, Exec(w, step), asked, cleared);
    }
  }

  ghost function RequestsOf(commands: map<string, bool>, steps: seq<Step>): Requests
  {
    (user: nat, command: string, rows: map<nat, Device>) => Asked(commands, steps, user, command, rows)
  }

  ghost function ClearingsOf(commands: map<string, bool>, steps: seq<Step>): Clearings
  {
    (j: nat, job: Job, d: nat) => Cleared(commands, steps, j, job, d)
  }

  lemma {:induction false} FactsLater(commands: map<string, bool>, steps: seq<Step>, step: Step, w: World)
    requires Traced(w, RequestsOf(commands, steps), ClearingsOf(commands, steps))
    ensures Traced(w, RequestsOf(commands, steps + [step]), ClearingsOf(commands, steps + [step]))
  {
    forall user: nat, command, rows | RequestsOf(commands, steps)(user, command, rows)
      ensures RequestsOf(commands, steps + [step])(user, command, rows)
    {
      SomewhereLater(steps, step, (before, step) => Passes(commands, before, step, user, command, rows));
    }
    forall j: nat, job, d: nat | ClearingsOf(commands, steps)(j, job, d)
      ensures ClearingsOf(commands, steps + [step])(j, job, d)
    {
      SomewhereLater(steps, step, (before, step) => Clears(commands, before, step, j, job, d));
    }
    TracedLater(w, RequestsOf(commands, steps), ClearingsOf(commands, steps),
                RequestsOf(commands, steps + [step]), ClearingsOf(commands, steps + [step]));
  }

  lemma {:induction false} NewRequest(commands: map<string, bool>, steps: seq<Step>, step: Step)
    requires IsRun(commands, steps) && step.Check? && Enabled(After(commands, steps), step)
    ensures Asked(commands, steps + [step], step.asked.user, step.asked.command, step.asked.rows)
  {
    var asked := step.asked;
    SomewhereLater(steps, step, (before, step) => Passes(commands, before, step, asked.user, asked.command, asked.rows));
  }

  lemma {:induction false} NewClearing(commands: map<string, bool>, steps: seq<Step>, w: World, j: nat, d: nat)
    requires IsRun(commands, steps) && w == After(commands, steps) && StillFine(w, j, d) && j in w.started
    requires Asked(commands, steps, w.started[j].owner, w.started[j].command, w.tasks[j].rows)
    ensures Cleared(commands, steps + [Recheck(j)], j, w.started[j], d)
  {
    var job := w.started[j];
    SomewhereLater(steps, Recheck(j), (before, step) => Clears(commands, before, step, j, job, d));
  }

  lemma {:induction false} RunTraced(commands: map<string, bool>, steps: seq<Step>)
    requires IsRun(commands, steps)
    ensures Traced(After(commands, steps), RequestsOf(commands, steps), ClearingsOf(commands, steps))
  {
    if steps != [] {
      var front, last := steps[..|steps| - 1], steps[|steps| - 1];
      var w := After(commands, front);
      assert steps == front + [last];
      RunTraced(commands, front);
      RunKeepsInv(commands, front);
      FactsLater(commands, front, last, w);
      if last.Check? {
        NewRequest(commands, front, last);
      }
      if last.Recheck? && StillFine(w, last.job, w.tasks[last.job].remaining[0]) {
        NewClearing(commands, front, w, last.job, w.tasks[last.job].remaining[0]);
      }
      StepTraced(w, last, RequestsOf(commands, steps), ClearingsOf(commands, steps));
    }
  }

  /** In every run with restarts, a command reaches a device only after the device was cleared for its job: at some step it
      was re-checked while stored, not archived, not paused and at the revision its request had read, with an owner who
      still had the rights; and before that a request of the same owner and command had passed its checks with these rows. */
  lemma {:induction false} SentWasCleared(commands: map<string, bool>, steps: seq<Step>, j: nat, d: nat)
    requires IsRun(commands, steps) && Sent(After(commands, steps), j, d) > 0
    ensures j in After(commands, steps).started
    ensures Cleared(commands, steps, j, After(commands, steps).started[j], d)
  {
    RunTraced(commands, steps);
  }
}
