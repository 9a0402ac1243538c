/**
  The run state machine of agens-server: its transition table, the guards, and
  the attempts its effects open and close.

  What a guard reads from other tables (questions, providers, worktrees) comes
  with the facts of the call; the attempts are the machine's own and are read
  from the run.
*/
module RunMachine {
  import opened Wrappers

  datatype State =
    | Draft | Queued | Running | AwaitingInput | AwaitingQuota
    | Done | Failed | Cancelled | Interrupted

  datatype Trigger =
    | Approve | Discard | Admit | Ask | QuotaReached | Answered | QuotaReset
    | Finished | AttemptFailed | Retry | Cancel | Reconcile | Resume

  datatype Guard =
    | NoGuard | UserApproval | SchedulerAdmission | ReportedByHarness | AnsweredQuestion
    | AskOpensQuestion | QuotaResetElapsed | RetryEligible | BootReconciliation

  /** The durable id of a session. */
  type SessionId = nat

  /** How a leg of execution ended. */
  datatype Leg = LegSucceeded | LegFailed | LegInterrupted

  datatype Principal = User | Praetor | Coordinator

  /** What the caller, or another table, says about the move. */
  datatype Facts = Facts(
    principal: Principal,
    slotAvailable: bool,
    providerServing: bool,
    worktreeReady: bool,
    questionAnswered: bool,
    opensOwnQuestion: bool,
    quotaElapsed: bool,
    worktreeActive: bool,
    guidance: string,
    retryBudget: int,
    bootReconciliation: bool,
    session: Option<SessionId>)

  /** One row of the table, with the effects that touch attempts. */
  datatype Transition = Transition(to: State, guard: Guard, opens: bool, closes: Option<Leg>)

  /** One leg of execution: its number, the session it was admitted with, and how
      it ended. */
  datatype Attempt = Attempt(number: nat, session: Option<SessionId>, outcome: Option<Leg>)

  datatype Run = Run(state: State, attempts: seq<Attempt>)

  datatype Applied = Moved(run: Run) | Settled | Rejected

  /** The transition table. */
  function Row(from: State, trigger: Trigger): Option<Transition> {
    match (from, trigger)
    case (Draft, Approve) => Some(Transition(Queued, UserApproval, false, None))
    case (Draft, Discard) => Some(Transition(Cancelled, NoGuard, false, None))
    case (Queued, Admit) => Some(Transition(Running, SchedulerAdmission, true, None))
    case (Running, Ask) => Some(Transition(AwaitingInput, AskOpensQuestion, false, Some(LegInterrupted)))
    case (Running, QuotaReached) => Some(Transition(AwaitingQuota, ReportedByHarness, false, Some(LegInterrupted)))
    case (AwaitingInput, Answered) => Some(Transition(Queued, AnsweredQuestion, false, None))
    case (AwaitingQuota, QuotaReset) => Some(Transition(Queued, QuotaResetElapsed, false, None))
    case (Running, Finished) => Some(Transition(Done, ReportedByHarness, false, Some(LegSucceeded)))
    case (Running, AttemptFailed) => Some(Transition(Failed, ReportedByHarness, false, Some(LegFailed)))
    case (Done, Retry) => Some(Transition(Queued, RetryEligible, false, None))
    case (Failed, Retry) => Some(Transition(Queued, RetryEligible, false, None))
    case (Running, Reconcile) => Some(Transition(Interrupted, BootReconciliation, false, Some(LegInterrupted)))
    case (Interrupted, Resume) => Some(Transition(Queued, NoGuard, false, None))
    case (from, Cancel) =>
      if from in {Draft, Queued, Running, AwaitingInput, AwaitingQuota, Interrupted} then
        Some(Transition(Cancelled, NoGuard, false, Some(LegInterrupted)))
      else None
    case _ => None
  }

  /** The attempts that spend the retry budget: all but the interrupted ones. */
  function Charged(attempts: seq<Attempt>): nat {
    if attempts == [] then 0
    else (if attempts[0].outcome == Some(LegInterrupted) then 0 else 1) + Charged(attempts[1..])
  }

  predicate GuardHolds(guard: Guard, run: Run, facts: Facts) {
    match guard
    case NoGuard => true
    case UserApproval => facts.principal == User
    case ReportedByHarness => facts.principal == Coordinator
    case SchedulerAdmission => facts.slotAvailable && facts.providerServing && facts.worktreeReady
    case AnsweredQuestion => facts.questionAnswered
    case AskOpensQuestion => facts.principal == Coordinator && facts.opensOwnQuestion
    case QuotaResetElapsed => facts.quotaElapsed
    case RetryEligible => facts.worktreeActive && facts.guidance != "" && Charged(run.attempts) < facts.retryBudget
    case BootReconciliation => facts.bootReconciliation
  }

  /** `close_open_attempts`: every attempt without an outcome gets this one. */
  function CloseOpen(attempts: seq<Attempt>, leg: Leg): seq<Attempt> {
    seq(|attempts|, i requires 0 <= i < |attempts| =>
      if attempts[i].outcome.None? then attempts[i].(outcome := Some(leg)) else attempts[i])
  }

  function LastNumber(attempts: seq<Attempt>): nat {
    if attempts == [] then 0
    else
      var rest := LastNumber(attempts[1..]);
      if attempts[0].number < rest then rest else attempts[0].number
  }

  /** `apply_run`: guard, then state, closed leg and opened leg in one write. */
  function ApplyRun(run: Run, trigger: Trigger, facts: Facts): Applied {
    if trigger == Cancel && run.state == Cancelled then Settled
    else
      match Row(run.state, trigger)
      case None => Rejected
      case Some(row) =>
        if !GuardHolds(row.guard, run, facts) then Rejected
        else
          var closed := if row.closes.Some? then CloseOpen(run.attempts, row.closes.value) else run.attempts;
          var attempts :=
            if row.opens then closed + [Attempt(LastNumber(run.attempts) + 1, facts.session, None)] else closed;
          Moved(Run(row.to, attempts))
  }

  /** The run after a trigger: moved, or as it was. */
  function After(run: Run, trigger: Trigger, facts: Facts): Run {
    var applied := ApplyRun(run, trigger, facts);
    if applied.Moved? then applied.run else run
  }

  const NEW_RUN := Run(Draft, [])

  // -------------------------------------------------------------- invariants

  /** Attempts are numbered from one; the last is open exactly while the run is
      running, and every other one is closed. A draft has none. */
  ghost predicate Ledger(run: Run) {
    && (forall i :: 0 <= i < |run.attempts| ==> run.attempts[i].number == i + 1)
    && (forall i :: 0 <= i < |run.attempts| ==>
          (run.attempts[i].outcome.None? <==> i == |run.attempts| - 1 && run.state == Running))
    && (run.state == Running ==> run.attempts != [])
    && (run.state == Draft ==> run.attempts == [])
  }

  /** The states from which a leg may still be admitted without a retry. */
  predicate Waiting(state: State) {
    state in {Draft, Queued, AwaitingInput, AwaitingQuota, Interrupted}
  }

  /** Room for one more chargeable attempt wherever one may still be admitted. */
  ghost predicate WithinBudget(run: Run, budget: int) {
    var bound := if budget < 1 then 1 else budget;
    Charged(run.attempts)
    + (if Waiting(run.state) then 1 else 0) <= bound
  }

  lemma {:induction false} LastNumberIsLength(attempts: seq<Attempt>, offset: nat)
    requires forall i :: 0 <= i < |attempts| ==> attempts[i].number == offset + i + 1
    ensures LastNumber(attempts) == if attempts == [] then 0 else offset + |attempts|
  {
    if attempts != [] {
      LastNumberIsLength(attempts[1..], offset + 1);
    }
  }

  lemma {:induction false} ChargedAppends(left: seq<Attempt>, right: seq<Attempt>)
    ensures Charged(left + right) == Charged(left) + Charged(right)
  {
    if left == [] {
      assert left + right == right;
    } else {
      ChargedAppends(left[1..], right);
      assert (left + right)[1..] == left[1..] + right;
    }
  }

  /** Closing the one open leg refunds it exactly when it was interrupted. */
  lemma ClosingCharges(run: Run, leg: Leg)
    requires Ledger(run)
    ensures Charged(CloseOpen(run.attempts, leg))
            == Charged(run.attempts) - if run.state == Running && leg == LegInterrupted then 1 else 0
  {
    var closed := CloseOpen(run.attempts, leg);
    if run.state == Running {
      var last := |run.attempts| - 1;
      assert run.attempts == run.attempts[..last] + [run.attempts[last]];
      assert closed == run.attempts[..last] + [run.attempts[last].(outcome := Some(leg))];
      ChargedAppends(run.attempts[..last], [run.attempts[last]]);
      ChargedAppends(run.attempts[..last], [run.attempts[last].(outcome := Some(leg))]);
    } else {
      assert closed == run.attempts;
    }
  }

  /** What the table says about legs: admission alone opens one, every way out
      of running closes it, and a wait that is not paid for by a retry is
      entered from another wait or with the leg interrupted. */
  lemma RowLegs(from: State, trigger: Trigger)
    requires Row(from, trigger).Some?
    ensures var row := Row(from, trigger).value;
      && (row.opens <==> row.to == Running)
      && (row.opens ==> trigger == Admit && from == Queued && row.closes.None?)
      && (from == Running ==> row.closes.Some?)
      && (Waiting(row.to) ==>
            if from == Running then row.closes == Some(LegInterrupted)
            else Waiting(from) || row.guard == RetryEligible)
      && row.to != Draft && from != Cancelled
  {
  }

  /** What every move keeps, whoever makes it. */
  lemma MoveKeepsLedger(run: Run, trigger: Trigger, facts: Facts)
    requires Ledger(run)
    ensures Ledger(After(run, trigger, facts))
  {
    if ApplyRun(run, trigger, facts).Moved? {
      RowLegs(run.state, trigger);
      LastNumberIsLength(run.attempts, 0);
    }
  }

  lemma MoveKeepsBudget(run: Run, trigger: Trigger, facts: Facts, budget: int)
    requires Ledger(run) && WithinBudget(run, budget) && facts.retryBudget <= budget
    ensures WithinBudget(After(run, trigger, facts), budget)
  {
    if ApplyRun(run, trigger, facts).Moved? {
      var row := Row(run.state, trigger).value;
      RowLegs(run.state, trigger);
      if row.closes.Some? {
        ClosingCharges(run, row.closes.value);
      } else if row.opens {
        ChargedAppends(run.attempts, [Attempt(LastNumber(run.attempts) + 1, facts.session, None)]);
      }
    }
  }

  lemma MoveKeeps(run: Run, trigger: Trigger, facts: Facts, budget: int)
    requires Ledger(run) && WithinBudget(run, budget) && facts.retryBudget <= budget
    ensures Ledger(After(run, trigger, facts)) && WithinBudget(After(run, trigger, facts), budget)
  {
    MoveKeepsLedger(run, trigger, facts);
    MoveKeepsBudget(run, trigger, facts, budget);
  }

  datatype Move = Move(trigger: Trigger, facts: Facts)

  function RunMoves(run: Run, moves: seq<Move>): Run
    decreases |moves|
  {
    if moves == [] then run else RunMoves(After(run, moves[0].trigger, moves[0].facts), moves[1..])
  }

  /** Over every history of a run, whoever drives it: legs are numbered in turn,
      at most the last is open and only while the run executes, and the legs
      that count against the retry budget never exceed it, however often the
      run was parked, interrupted or resumed. One leg is always allowed. */
  lemma {:induction false} EveryHistoryKeepsTheLedger(run: Run, moves: seq<Move>, budget: int)
    requires Ledger(run) && WithinBudget(run, budget)
    requires forall i :: 0 <= i < |moves| ==> moves[i].facts.retryBudget <= budget
    ensures Ledger(RunMoves(run, moves))
    ensures Charged(RunMoves(run, moves).attempts) <= if budget < 1 then 1 else budget
    decreases |moves|
  {
    if moves != [] {
      MoveKeeps(run, moves[0].trigger, moves[0].facts, budget);
      EveryHistoryKeepsTheLedger(After(run, moves[0].trigger, moves[0].facts), moves[1..], budget);
    }
  }

  /** So it is with every run from the moment it is drafted. */
  lemma EveryRunKeepsItsLedger(moves: seq<Move>, budget: int)
    requires forall i :: 0 <= i < |moves| ==> moves[i].facts.retryBudget <= budget
    ensures Ledger(RunMoves(NEW_RUN, moves))
    ensures Charged(RunMoves(NEW_RUN, moves).attempts) <= if budget < 1 then 1 else budget
  {
    EveryHistoryKeepsTheLedger(NEW_RUN, moves, budget);
  }

  // ----------------------------------------------------------- what each trigger does

  /** When a trigger moves a run. */
  predicate Movable(run: Run, trigger: Trigger, facts: Facts) {
    var running := run.state == Running;
    match trigger
    case Approve => run.state == Draft && facts.principal == User
    case Discard => run.state == Draft
    case Admit => run.state == Queued && facts.slotAvailable && facts.providerServing && facts.worktreeReady
    case Ask => running && facts.principal == Coordinator && facts.opensOwnQuestion
    case QuotaReached => running && facts.principal == Coordinator
    case Finished => running && facts.principal == Coordinator
    case AttemptFailed => running && facts.principal == Coordinator
    case Reconcile => running && facts.bootReconciliation
    case Answered => run.state == AwaitingInput && facts.questionAnswered
    case QuotaReset => run.state == AwaitingQuota && facts.quotaElapsed
    case Resume => run.state == Interrupted
    case Retry =>
      && (run.state == Done || run.state == Failed)
      && facts.worktreeActive && facts.guidance != ""
      && Charged(run.attempts) < facts.retryBudget
    case Cancel => run.state != Done && run.state != Failed && run.state != Cancelled
  }

  /** Where it moves it. */
  function Destination(trigger: Trigger): State {
    match trigger
    case Admit => Running
    case Ask => AwaitingInput
    case QuotaReached => AwaitingQuota
    case Finished => Done
    case AttemptFailed => Failed
    case Reconcile => Interrupted
    case Discard => Cancelled
    case Cancel => Cancelled
    case _ => Queued
  }

  /** How the leg that is open ends with it. */
  function LegEnding(trigger: Trigger): Leg {
    match trigger
    case Finished => LegSucceeded
    case AttemptFailed => LegFailed
    case _ => LegInterrupted
  }

  lemma Destinations(from: State, trigger: Trigger)
    requires Row(from, trigger).Some?
    ensures var row := Row(from, trigger).value;
      && row.to == Destination(trigger)
      && row.opens == (trigger == Admit)
      && row.closes == (if from == Running || trigger == Cancel then Some(LegEnding(trigger)) else None)
  {
  }

  lemma MovableIff(run: Run, trigger: Trigger, facts: Facts)
    ensures ApplyRun(run, trigger, facts).Moved? <==> Movable(run, trigger, facts)
    ensures ApplyRun(run, trigger, facts) == Settled <==> trigger == Cancel && run.state == Cancelled
  {
  }

  /** The machine trigger by trigger, where the table has it state by state: exactly
      when a run moves, and what it is then. An admission adds the next leg, for the
      session it names; a run that leaves running has its last leg closed; no
      other leg changes. */
  lemma MovesIff(run: Run, trigger: Trigger, facts: Facts)
    requires Ledger(run)
    ensures ApplyRun(run, trigger, facts).Moved? <==> Movable(run, trigger, facts)
    ensures ApplyRun(run, trigger, facts) == Settled <==> trigger == Cancel && run.state == Cancelled
    ensures Movable(run, trigger, facts) ==>
      var next := ApplyRun(run, trigger, facts).run; var last := |run.attempts| - 1;
      && next.state == Destination(trigger)
      && next.attempts == (if trigger == Admit then run.attempts + [Attempt(last + 2, facts.session, None)]
                           else if run.state == Running
                           then run.attempts[..last] + [run.attempts[last].(outcome := Some(LegEnding(trigger)))]
                           else run.attempts)
  {
    MovableIff(run, trigger, facts);
    LastNumberIsLength(run.attempts, 0);
    ClosesTheLast(run, LegEnding(trigger));
    if ApplyRun(run, trigger, facts).Moved? {
      Destinations(run.state, trigger);
    }
  }

  lemma ClosesTheLast(run: Run, leg: Leg)
    requires Ledger(run)
    ensures var last := |run.attempts| - 1;
      CloseOpen(run.attempts, leg)
      == if run.state == Running then run.attempts[..last] + [run.attempts[last].(outcome := Some(leg))]
         else run.attempts
  {
  }

  // ---------------------------------------------------------------- runs can finish

  predicate Affordable(moves: seq<Move>, budget: int) {
    forall i :: 0 <= i < |moves| ==> moves[i].facts.retryBudget <= budget
  }

  /** Some history brings the run from here to another success. */
  ghost predicate CanFinish(run: Run, budget: int) {
    exists moves :: FinishesBy(run, moves, budget)
  }

  ghost predicate FinishesBy(run: Run, moves: seq<Move>, budget: int) {
    && Affordable(moves, budget)
    && RunMoves(run, moves).state == Done && RunMoves(run, moves) != run
  }

  /** Nothing moves a cancelled run, nor one that is over with its budget spent. */
  lemma {:induction false} Stuck(run: Run, moves: seq<Move>, budget: int)
    requires Ledger(run) && Affordable(moves, budget)
    requires run.state == Cancelled || (run.state in {Done, Failed} && Charged(run.attempts) >= budget)
    ensures RunMoves(run, moves) == run
    decreases |moves|
  {
    if moves != [] {
      MovesIff(run, moves[0].trigger, moves[0].facts);
      Stuck(run, moves[1..], budget);
    }
  }

  /** The way back to the queue from where the run stands. */
  function BackToQueue(state: State): Trigger {
    match state
    case Draft => Approve
    case AwaitingInput => Answered
    case AwaitingQuota => QuotaReset
    case Interrupted => Resume
    case _ => Retry
  }

  /** Facts every guard of the way accepts, said by this principal. */
  function Favourable(principal: Principal, budget: int): Facts {
    Facts(principal, true, true, true, true, true, true, true, "again", budget, true, None)
  }

  /** The moves that finish a run from here. */
  function WayToFinish(state: State, budget: int): seq<Move> {
    var finish := Move(Finished, Favourable(Coordinator, budget));
    var admit := Move(Admit, Favourable(Praetor, budget));
    if state == Running then [finish]
    else if state == Queued then [admit, finish]
    else [Move(BackToQueue(state), Favourable(User, budget)), admit, finish]
  }

  lemma RunMovesFirst(run: Run, move: Move, rest: seq<Move>)
    ensures RunMoves(run, [move] + rest) == RunMoves(After(run, move.trigger, move.facts), rest)
  {
    assert ([move] + rest)[1..] == rest;
  }

  lemma FinishesRunning(run: Run, budget: int)
    requires Ledger(run) && run.state == Running
    ensures RunMoves(run, WayToFinish(Running, budget)).state == Done
    ensures |RunMoves(run, WayToFinish(Running, budget)).attempts| == |run.attempts|
  {
    var finish := Move(Finished, Favourable(Coordinator, budget));
    RunMovesFirst(run, finish, []);
    assert [finish] + [] == [finish];
    MovesIff(run, Finished, finish.facts);
  }

  lemma FinishesQueued(run: Run, budget: int)
    requires Ledger(run) && run.state == Queued
    ensures RunMoves(run, WayToFinish(Queued, budget)).state == Done
    ensures |RunMoves(run, WayToFinish(Queued, budget)).attempts| == |run.attempts| + 1
  {
    var admit := Move(Admit, Favourable(Praetor, budget));
    RunMovesFirst(run, admit, WayToFinish(Running, budget));
    MovesIff(run, Admit, admit.facts);
    MoveKeepsLedger(run, Admit, admit.facts);
    FinishesRunning(After(run, Admit, admit.facts), budget);
  }

  lemma FinishesWaiting(run: Run, budget: int)
    requires Ledger(run) && run.state != Cancelled && run.state != Running && run.state != Queued
    requires run.state in {Done, Failed} ==> Charged(run.attempts) < budget
    ensures RunMoves(run, WayToFinish(run.state, budget)).state == Done
    ensures |RunMoves(run, WayToFinish(run.state, budget)).attempts| == |run.attempts| + 1
  {
    var back := Move(BackToQueue(run.state), Favourable(User, budget));
    RunMovesFirst(run, back, WayToFinish(Queued, budget));
    MovesIff(run, back.trigger, back.facts);
    MoveKeepsLedger(run, back.trigger, back.facts);
    FinishesQueued(After(run, back.trigger, back.facts), budget);
  }

  /** From where a run stands it can still be brought to a success that is not the
      one it stands at exactly unless it is cancelled, or over with its retry
      budget spent. */
  lemma CanFinishIff(run: Run, budget: int)
    requires Ledger(run)
    ensures CanFinish(run, budget)
            <==> run.state != Cancelled && (run.state in {Done, Failed} ==> Charged(run.attempts) < budget)
  {
    if run.state == Cancelled || (run.state in {Done, Failed} && Charged(run.attempts) >= budget) {
      forall moves | Affordable(moves, budget)
        ensures RunMoves(run, moves) == run
      {
        Stuck(run, moves, budget);
      }
    } else {
      if run.state == Running {
        FinishesRunning(run, budget);
      } else if run.state == Queued {
        FinishesQueued(run, budget);
      } else {
        FinishesWaiting(run, budget);
      }
      assert FinishesBy(run, WayToFinish(run.state, budget), budget);
    }
  }
}
