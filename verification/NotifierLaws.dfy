/** The notifier's loop as a run of the queue: what `Notifier.Tick` computes is reached by the steps of NotificationRuns. */
module NotifierLaws {
  import opened Notifications
  import opened NotificationRuns
  import Notifier

  lemma {:induction false} Extended(run: seq<Step>, step: Step) returns (longer: seq<Step>)
    requires IsRun(run) && Enabled(After(run), step)
    ensures longer == run + [step]
    ensures IsRun(longer) && After(longer) == Exec(After(run), step)
  {
    longer := run + [step];
    assert longer[..|longer| - 1] == run;
  }

  /** Handling one row is claiming it and, if that commits an attempt, sending and recording. */
  lemma {:induction false} HandledIsRun(run: seq<Step>, due: seq<Slot>, now: real, error: bool, clock: real)
    returns (longer: seq<Step>)
    requires IsRun(run) && After(run).phase == Handling(due, now)
    requires due != [] && due[0] in After(run).db.deliveries
    ensures IsRun(longer) && run <= longer && After(longer).phase == Handling(due[1..], now)
    ensures After(longer).db == Notifier.Handled(After(run).db, due[0], now, error, clock)
  {
    longer := Extended(run, Claim);
    if After(longer).phase.Sending? {
      longer := Extended(longer, Send(true, !error));
      longer := Extended(longer, Record(clock));
    }
  }

  lemma {:induction false} WorkedIsRun(run: seq<Step>, due: seq<Slot>, now: real, errors: seq<bool>, clocks: seq<real>,
                                       n: nat)
    returns (longer: seq<Step>)
    requires IsRun(run) && After(run).phase == Handling(due, now)
    requires forall s :: s in due ==> s in After(run).db.deliveries
    requires n <= |due| && |errors| >= |due| && |clocks| >= |due|
    ensures IsRun(longer) && run <= longer && After(longer).phase == Handling(due[n..], now)
    ensures After(longer).db == Notifier.Worked(After(run).db, due[..n], now, errors, clocks)
  {
    if n == 0 {
      longer := run;
    } else {
      longer := WorkedIsRun(run, due, now, errors, clocks, n - 1);
      assert due[..n][..n - 1] == due[..n - 1] && due[n - 1..][0] == due[n - 1] && due[n - 1..][1..] == due[n..];
      assert due[n - 1] in due;
      longer := HandledIsRun(longer, due[n - 1..], now, errors[n - 1], clocks[n - 1]);
    }
  }

  lemma {:induction false} SelectedIsRun(run: seq<Step>, batch: set<nat>, due: seq<Slot>, now: real, decided: Store)
    returns (longer: seq<Step>)
    requires IsRun(run) && After(run).phase.Idle? && IsBatch(After(run).db, batch)
    requires decided == Notifications.Tick(After(run).db, batch, now) && IsDueList(decided, due, now)
    ensures IsRun(longer) && run <= longer && After(longer).phase == Handling(due, now) && After(longer).db == decided
  {
    longer := Extended(run, Decide(batch, now));
    longer := Extended(longer, Select(due));
  }

  lemma {:induction false} FinishedIsRun(run: seq<Step>) returns (longer: seq<Step>)
    requires IsRun(run) && After(run).phase.Handling? && After(run).phase.due == []
    ensures IsRun(longer) && run <= longer && After(longer).phase.Idle? && After(longer).db == After(run).db
  {
    longer := Extended(run, Finish);
  }

  lemma {:induction false} DueIsStored(db: Store, due: seq<Slot>, now: real)
    requires IsDueList(db, due, now)
    ensures forall s :: s in due ==> s in db.deliveries
  {
    forall s | s in due
      ensures s in db.deliveries
    {
      var i :| 0 <= i < |due| && due[i] == s;
      assert Due(db, due[i], now);
    }
  }

  /** A tick that nothing interrupts is a run: from any run that leaves the notifier idle, deciding a batch, selecting the due
      rows and working them off leads to exactly the tables that the tick computes, with the notifier idle again. */
  lemma {:induction false} TickIsRun(run: seq<Step>, batch: set<nat>, due: seq<Slot>, now: real, errors: seq<bool>,
                                     clocks: seq<real>, decided: Store)
    returns (longer: seq<Step>)
    requires IsRun(run) && After(run).phase.Idle? && IsBatch(After(run).db, batch)
    requires decided == Notifications.Tick(After(run).db, batch, now) && IsDueList(decided, due, now)
    requires |errors| >= |due| && |clocks| >= |due|
    ensures forall s :: s in due ==> s in decided.deliveries
    ensures IsRun(longer) && run <= longer && After(longer).phase.Idle?
    ensures After(longer).db == Notifier.Worked(decided, due, now, errors, clocks)
  {
    DueIsStored(decided, due, now);
    longer := SelectedIsRun(run, batch, due, now, decided);
    longer := WorkedIsRun(longer, due, now, errors, clocks, |due|);
    assert due[..|due|] == due && due[|due|..] == [];
    longer := FinishedIsRun(longer);
  }
}
