/** The state machine's Apply (`internal/statemachine`): one transaction per log entry. */
module StateMachines {
  import opened Base
  import opened Domain
  import Fsm
  import opened Indexes
  import opened Storage
  import opened BoltTx
  import opened SchedulerRules
  import Commands
  import opened LogTheorems

  class StateMachine {
    const tx: Tx

    constructor ()
      ensures fresh(tx) && Ordered(tx.buckets) && tx.Faithful() && tx.db == EMPTY_DB
    {
      tx := new Tx();
    }

    /** A rejected entry changes no bucket at all, whatever the handler had already written; an
        accepted one moves the tables as the specification says, with every index following. */
    method Apply(entry: Fsm.LogEntry) returns (r: Result<Fsm.Reply>)
      requires Ordered(tx.buckets)
      modifies tx
      ensures Ordered(tx.buckets)
      ensures r.Err? ==> tx.buckets == old(tx.buckets) && tx.db == old(tx.db)
      ensures old(tx.Faithful()) && Commands.Admissible(old(tx.db), entry.command) ==>
        && tx.Faithful() && tx.db == Fsm.After(RULES, old(tx.db), entry)
        && r == Answer(Fsm.Step(RULES, old(tx.db), entry))
    {
      var savedBuckets := tx.buckets;
      ghost var savedDb := tx.db;
      r := Commands.Dispatch(tx, entry.command, entry.proposedAt);
      if r.Err? {
        tx.buckets := savedBuckets;
        tx.db := savedDb;
      }
    }

    /** Replays a whole log.  As long as every entry is admissible where it is applied, the
        buckets end up representing exactly the tables of the specified run. */
    method Replay(log: seq<Fsm.LogEntry>)
      requires Ordered(tx.buckets)
      modifies tx
      ensures Ordered(tx.buckets)
      ensures old(tx.Faithful()) && AdmissibleLog(old(tx.db), log) ==>
                tx.Faithful() && tx.db == Fsm.Run(RULES, old(tx.db), log)
    {
      ghost var start, fits := tx.db, tx.Faithful() && AdmissibleLog(tx.db, log);
      var i := 0;
      while i < |log|
        invariant 0 <= i <= |log| && Ordered(tx.buckets)
        invariant fits ==> tx.Faithful() && HasRun(start, log, i, tx.db)
      {
        ghost var before := tx.db;
        if fits { AdmissibleAt(start, log, i, before); }
        var _ := Apply(log[i]);
        if fits { RunStep(start, log, i, before, tx.db); }
        i := i + 1;
      }
      assert log[..i] == log;
    }
  }

  function Answer(spec: Fsm.Applied): Result<Fsm.Reply> {
    match spec
    case Accepted(_, reply) => Ok(reply)
    case Rejected(error) => Err(error)
  }

  ghost predicate AdmissibleLog(db: DB, log: seq<Fsm.LogEntry>) {
    forall i :: 0 <= i < |log| ==> Commands.Admissible(Fsm.Run(RULES, db, log[..i]), log[i].command)
  }

  /** The tables are those after the first `i` entries. */
  ghost predicate HasRun(start: DB, log: seq<Fsm.LogEntry>, i: nat, db: DB) {
    i <= |log| && db == Fsm.Run(RULES, start, log[..i])
  }

  lemma RunStep(start: DB, log: seq<Fsm.LogEntry>, i: nat, db: DB, next: DB)
    requires i < |log| && HasRun(start, log, i, db) && next == Fsm.After(RULES, db, log[i])
    ensures HasRun(start, log, i + 1, next)
  {
    assert log[..i + 1][..i] == log[..i];
  }

  lemma AdmissibleAt(start: DB, log: seq<Fsm.LogEntry>, i: nat, db: DB)
    requires i < |log| && AdmissibleLog(start, log) && HasRun(start, log, i, db)
    ensures Commands.Admissible(db, log[i].command)
  {
  }

  /** The IDs a command puts into composite keys contain no colon. */
  ghost predicate PlainCommand(command: Fsm.Command) {
    match command
    case CreateTenant(_) => true
    case CreateSchedule(cmd) => ColonFree(cmd.tenantID)
    case UpdateSchedule(cmd) => ColonFree(cmd.tenantID)
    case PauseSchedule(t, _) => ColonFree(t)
    case CancelSchedule(t, _) => ColonFree(t)
    case ResumeSchedule(t, _) => ColonFree(t)
    case ClaimExecution(cmd) => ColonFree(cmd.tenantID) && ColonFree(cmd.id)
    case AdoptExecution(cmd) => ColonFree(cmd.tenantID)
    case RecordAttempt(cmd) => ColonFree(cmd.tenantID) && ColonFree(cmd.executionID)
    case CompleteExecution(cmd) => ColonFree(cmd.tenantID)
    case FailExecutionTimeout(cmd) => ColonFree(cmd.tenantID)
  }

  /** Fresh IDs without colons are all the indexes need, over a whole log. */
  lemma {:induction false} FreshLogIsAdmissible(db: DB, log: seq<Fsm.LogEntry>)
    requires FreshLog(RULES, db, log) && forall i :: 0 <= i < |log| ==> PlainCommand(log[i].command)
    ensures AdmissibleLog(db, log)
  {
    if log != [] {
      var before := log[..|log| - 1];
      FreshLogIsAdmissible(db, before);
      forall i | 0 <= i < |log|
        ensures Commands.Admissible(Fsm.Run(RULES, db, log[..i]), log[i].command)
      {
        if i < |before| {
          AdmissibleAt(db, before, i, Fsm.Run(RULES, db, before[..i]));
          assert before[..i] == log[..i];
        } else {
          FreshIsAdmissible(Fsm.Run(RULES, db, before), log[i].command);
        }
      }
    }
  }

  lemma FreshIsAdmissible(db: DB, command: Fsm.Command)
    requires Fresh(db, command) && PlainCommand(command)
    ensures Commands.Admissible(db, command)
  {
  }
}
