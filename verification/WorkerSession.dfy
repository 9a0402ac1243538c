/**
  The session a coordinator worker executes a run in (agens-cli, worker.rs),
  against a run row that every other principal moves at the same time.

  Reading the row and applying a trigger each hold the core's lock once, and
  nothing holds it in between. A schedule is any sequence of the session's own
  steps and of moves by others, the scheduler and other sessions of the run
  included, so what holds of `Play` holds of every interleaving. An action that is not enabled changes nothing.
*/
module WorkerSession {
  import opened Wrappers
  import opened RunMachine

  datatype SessionOutcome = Completed | SessionCancelled | SessionFailed

  /** How a turn comes back. A parked turn comes back as cancelled by itself. */
  datatype Ending = Answer | QuotaRefusal | EndedItself | Broke

  datatype Location =
    | AwaitingAdmission
    | Preparing
    | Turning
    | Finishing
    | Stopping(endedItself: bool)
    | Parking
    | Reporting(trigger: Trigger, outcome: SessionOutcome)
    | Over(outcome: SessionOutcome)

  /** `seen` is what the last read of the row answered; `parked` whether an `ask`
      of this turn moved the run; `reported` the triggers the session applied. */
  datatype Session = Session(at: Location, seen: Option<State>, parked: bool, reported: seq<Trigger>)

  datatype World = World(run: Run, session: Session)

  datatype Action =
    | Environment(trigger: Trigger, facts: Facts)
    | Poll(readable: bool)
    | GiveUp
    | Prepare(ready: bool)
    | AskQuestion(facts: Facts)
    | TurnEnds(ending: Ending)
    | Look(readable: bool)
    | Report(lockable: bool, facts: Facts)

  const LAUNCHED := Session(AwaitingAdmission, None, false, [])

  /** `state_of`: the row's state, or nothing when the row cannot be read. */
  function StateOf(run: Run, readable: bool): Option<State> {
    if readable then Some(run.state) else None
  }

  /** `outcome_after_failed_turn`. */
  function OutcomeAfterFailedTurn(state: Option<State>, endedItself: bool): SessionOutcome {
    match state
    case Some(AwaitingInput) => Completed
    case Some(AwaitingQuota) => Completed
    case Some(Cancelled) => SessionCancelled
    case Some(Running) => SessionFailed
    case None => SessionFailed
    case Some(_) => if endedItself then Completed else SessionFailed
  }

  /** The reads of `finish`, `park_on_quota` and `stopped`. */
  function Looked(at: Location, state: Option<State>): Location {
    match at
    case Finishing =>
      if state == Some(Running) then Reporting(Finished, Completed)
      else if state.Some? then Over(Completed)
      else Over(SessionFailed)
    case Parking => if state == Some(Running) then Reporting(QuotaReached, Completed) else Over(Completed)
    case Stopping(endedItself) =>
      var outcome := OutcomeAfterFailedTurn(state, endedItself);
      if state == Some(Running) then Reporting(AttemptFailed, outcome) else Over(outcome)
    case other => other
  }

  function AfterTurn(ending: Ending): Location {
    match ending
    case Answer => Finishing
    case QuotaRefusal => Parking
    case EndedItself => Stopping(true)
    case Broke => Stopping(false)
  }

  /** `report_run_lifecycle` pins the principal to the coordinator. */
  function Reported(w: World, facts: Facts): World
    requires w.session.at.Reporting?
  {
    var at := w.session.at;
    match ApplyRun(w.run, at.trigger, facts.(principal := Coordinator))
    case Moved(run) =>
      World(run, w.session.(at := Over(at.outcome), reported := w.session.reported + [at.trigger]))
    case Settled => w.(session := w.session.(at := Over(at.outcome)))
    case Rejected => w.(session := w.session.(at := Over(SessionFailed)))
  }

  /** One step of `execute`, or one move by somebody else. */
  function Step(w: World, action: Action): World {
    var s := w.session;
    match action
    case Environment(trigger, facts) => w.(run := After(w.run, trigger, facts))
    case Poll(readable) =>
      if s.at.AwaitingAdmission? && StateOf(w.run, readable) == Some(Running)
      then w.(session := s.(at := Preparing, seen := Some(Running))) else w
    case GiveUp =>
      if s.at.AwaitingAdmission? then w.(session := s.(at := Reporting(AttemptFailed, SessionFailed))) else w
    case Prepare(ready) =>
      if s.at.Preparing? then w.(session := s.(at := if ready then Turning else Over(SessionFailed))) else w
    case AskQuestion(facts) =>
      if s.at.Turning? then
        var applied := ApplyRun(w.run, Ask, facts.(principal := Coordinator));
        if applied.Moved? then World(applied.run, s.(parked := true)) else w
      else w
    case TurnEnds(ending) => if s.at.Turning? then w.(session := s.(at := AfterTurn(ending))) else w
    case Look(readable) =>
      if s.at.Finishing? || s.at.Parking? || s.at.Stopping? then
        var state := StateOf(w.run, readable);
        w.(session := s.(at := Looked(s.at, state), seen := state))
      else w
    case Report(lockable, facts) =>
      if !s.at.Reporting? then w
      else if !lockable then w.(session := s.(at := Over(SessionFailed)))
      else Reported(w, facts)
  }

  function Play(w: World, schedule: seq<Action>): World
    decreases |schedule|
  {
    if schedule == [] then w else Play(Step(w, schedule[0]), schedule[1..])
  }

  // ---------------------------------------------------------- every session

  /** What a session's location says about what it read and what it reported. */
  ghost predicate Consistent(s: Session) {
    match s.at
    case Reporting(trigger, outcome) =>
      && s.reported == []
      && (if trigger == AttemptFailed then outcome == SessionFailed && (s.seen.None? || s.seen == Some(Running))
          else trigger in {Finished, QuotaReached} && outcome == Completed && s.seen == Some(Running))
    case Over(outcome) =>
      (match outcome
       case Completed =>
         s.reported == [Finished] || s.reported == [QuotaReached] || (s.reported == [] && s.seen != Some(Running))
       case SessionCancelled => s.reported == [] && s.seen == Some(Cancelled)
       case SessionFailed => s.reported == [] || s.reported == [AttemptFailed])
    case AwaitingAdmission => s.reported == [] && s.seen.None? && !s.parked
    case _ => s.reported == []
  }

  lemma ConsistentStep(w: World, action: Action)
    requires Consistent(w.session)
    ensures Consistent(Step(w, action).session)
  {
  }

  lemma {:induction false} ConsistentPlay(w: World, schedule: seq<Action>)
    requires Consistent(w.session)
    ensures Consistent(Play(w, schedule).session)
    decreases |schedule|
  {
    if schedule != [] {
      ConsistentStep(w, schedule[0]);
      ConsistentPlay(Step(w, schedule[0]), schedule[1..]);
    }
  }

  /** Whatever else moves the run meanwhile, a session applies at most one
      trigger, and only as it ends; it ends completed only after reporting the
      run finished or out of quota, or after a read that did not find the run
      running, and cancelled only after reading that the run was. */
  lemma SessionReportsAtMostOnce(run: Run, schedule: seq<Action>)
    ensures var s := Play(World(run, LAUNCHED), schedule).session;
      && |s.reported| <= 1
      && (s.reported != [] ==> s.at.Over? && s.reported[0] in {Finished, AttemptFailed, QuotaReached})
      && (s.at == Over(Completed) ==>
            s.reported == [Finished] || s.reported == [QuotaReached] || (s.reported == [] && s.seen != Some(Running)))
      && (s.at == Over(SessionCancelled) ==> s.reported == [] && s.seen == Some(Cancelled))
      && (s.at == Over(SessionFailed) ==> s.reported == [] || s.reported == [AttemptFailed])
  {
    ConsistentPlay(World(run, LAUNCHED), schedule);
  }

  /** A report moves a running run and nothing else: to the state its trigger
      names, closing the one open leg with the outcome that belongs to it. */
  lemma ReportMovesARunningRun(w: World, action: Action)
    requires Consistent(w.session) && Ledger(w.run)
    requires Step(w, action).session.reported != w.session.reported
    ensures var next := Step(w, action); var last := |w.run.attempts| - 1;
      && w.run.state == Running && last >= 0
      && next.session.reported == [w.session.at.trigger]
      && (next.run.state, next.run.attempts[last].outcome)
         == (match w.session.at.trigger
             case Finished => (Done, Some(LegSucceeded))
             case AttemptFailed => (Failed, Some(LegFailed))
             case _ => (AwaitingQuota, Some(LegInterrupted)))
      && next.run.attempts == w.run.attempts[last := w.run.attempts[last].(outcome := next.run.attempts[last].outcome)]
  {
    assert action.Report? && w.session.at.Reporting?;
    var last := |w.run.attempts| - 1;
    assert w.run.attempts[last].outcome.None?;
  }

  lemma PlayFirst(w: World, action: Action, rest: seq<Action>)
    ensures Play(w, [action] + rest) == Play(Step(w, action), rest)
  {
    assert ([action] + rest)[1..] == rest;
  }

  /** What becomes of a session and its run when the turn ends and nobody else
      moves the run any more. */
  function EndedAlone(run: Run, ending: Ending): (SessionOutcome, State, seq<Trigger>) {
    match (run.state, ending)
    case (Running, Answer) => (Completed, Done, [Finished])
    case (Running, QuotaRefusal) => (Completed, AwaitingQuota, [QuotaReached])
    case (Running, _) => (SessionFailed, Failed, [AttemptFailed])
    case (state, Answer) => (Completed, state, [])
    case (state, QuotaRefusal) => (Completed, state, [])
    case (AwaitingInput, _) => (Completed, AwaitingInput, [])
    case (AwaitingQuota, _) => (Completed, AwaitingQuota, [])
    case (Cancelled, _) => (SessionCancelled, run.state, [])
    case (state, EndedItself) => (Completed, state, [])
    case (state, Broke) => (SessionFailed, state, [])
  }

  lemma LooksAlone(w: World, ending: Ending)
    requires w.session.at.Turning? && Consistent(w.session)
    ensures var looked := Step(Step(w, TurnEnds(ending)), Look(true));
      var (outcome, state, reported) := EndedAlone(w.run, ending);
      && looked.run == w.run && looked.session.reported == []
      && looked.session.at == (if reported == [] then Over(outcome) else Reporting(reported[0], outcome))
      && (reported == [] ==> state == w.run.state)
  {
  }

  lemma ReportsAlone(w: World, facts: Facts)
    requires w.session.at.Reporting? && w.session.reported == [] && w.run.state == Running
    requires w.session.at.trigger in {Finished, QuotaReached, AttemptFailed}
    ensures var last := Step(w, Report(true, facts));
      && last.session.at == Over(w.session.at.outcome) && last.session.reported == [w.session.at.trigger]
      && last.run.state == Row(Running, w.session.at.trigger).value.to
  {
  }

  /** Left alone with a readable row, a session whose turn has ended always gets to
      its end: it moves a running run where the ending says, and leaves a run that
      was moved before it exactly as it is. */
  lemma SessionEndsAlone(w: World, ending: Ending, facts: Facts)
    requires w.session.at.Turning? && Consistent(w.session)
    ensures var last := Play(w, [TurnEnds(ending), Look(true), Report(true, facts)]);
      var (outcome, state, reported) := EndedAlone(w.run, ending);
      && last.session.at == Over(outcome) && last.session.reported == reported
      && last.run.state == state && (reported == [] ==> last.run == w.run)
  {
    var ended := Step(w, TurnEnds(ending));
    var looked := Step(ended, Look(true));
    PlayFirst(looked, Report(true, facts), []);
    PlayFirst(ended, Look(true), [Report(true, facts)]);
    PlayFirst(w, TurnEnds(ending), [Look(true), Report(true, facts)]);
    LooksAlone(w, ending);
    if looked.session.at.Reporting? {
      ReportsAlone(looked, facts);
    }
  }

  /** A session that waited in vain for its admission reports a failed attempt: that
      moves the run only if it has been admitted by then. */
  lemma GivingUpFails(run: Run, facts: Facts)
    requires Ledger(run)
    ensures var last := Play(World(run, LAUNCHED), [GiveUp, Report(true, facts)]);
      && last.session.at == Over(SessionFailed)
      && (if run.state == Running then last.session.reported == [AttemptFailed] && last.run.state == Failed
          else last.session.reported == [] && last.run == run)
  {
    var w := World(run, LAUNCHED);
    var given := Step(w, GiveUp);
    PlayFirst(given, Report(true, facts), []);
    PlayFirst(w, GiveUp, [Report(true, facts)]);
    if run.state == Running {
      MovesIff(run, AttemptFailed, facts.(principal := Coordinator));
    }
  }

  /** A session whose turn has ended and that cannot read the row reports nothing: it
      has failed, unless its provider refused it for the quota. */
  lemma UnreadableRowFails(w: World, ending: Ending)
    requires w.session.at.Turning?
    ensures var last := Play(w, [TurnEnds(ending), Look(false)]);
      && last.run == w.run && last.session.reported == w.session.reported
      && last.session.at == Over(if ending == QuotaRefusal then Completed else SessionFailed)
  {
    var ended := Step(w, TurnEnds(ending));
    PlayFirst(ended, Look(false), []);
    PlayFirst(w, TurnEnds(ending), [Look(false)]);
  }

  /** A session gets to its turn exactly on reading that the run is running, and then
      being made ready. */
  lemma AdmittedTurns(run: Run, readable: bool, ready: bool)
    ensures var at := Play(World(run, LAUNCHED), [Poll(readable), Prepare(ready)]).session.at;
      at == if !readable || run.state != Running then AwaitingAdmission
            else if ready then Turning
            else Over(SessionFailed)
  {
    var w := World(run, LAUNCHED);
    PlayFirst(Step(w, Poll(readable)), Prepare(ready), []);
    PlayFirst(w, Poll(readable), [Prepare(ready)]);
  }

  /** A question parks a running run, whose open leg is interrupted, and the session
      that asked it then ends without a report, however its turn ends. */
  lemma QuestionParks(w: World, facts: Facts, ending: Ending)
    requires w.session.at.Turning? && Consistent(w.session) && Ledger(w.run)
    ensures var asked := Step(w, AskQuestion(facts));
      && (asked.session.parked && !w.session.parked ==>
            && w.run.state == Running && asked.run.state == AwaitingInput && facts.opensOwnQuestion)
      && (w.run.state == Running && facts.opensOwnQuestion ==> asked.session.parked && asked.run.state == AwaitingInput)
      && (asked.run.state == AwaitingInput ==>
            var last := Play(asked, [TurnEnds(ending), Look(true)]);
            last.run == asked.run && last.session.reported == [] && last.session.at == Over(Completed))
  {
    MovesIff(w.run, Ask, facts.(principal := Coordinator));
    var asked := Step(w, AskQuestion(facts));
    PlayFirst(Step(asked, TurnEnds(ending)), Look(true), []);
    PlayFirst(asked, TurnEnds(ending), [Look(true)]);
    LooksAlone(asked, ending);
  }

  // ------------------------------------------------- the machine underneath

  /** Only an admission makes a run running, and only it adds a leg. */
  lemma OnlyAdmissionRuns(run: Run, trigger: Trigger, facts: Facts)
    ensures var next := After(run, trigger, facts);
      && (next.state == Running && run.state != Running ==> trigger == Admit)
      && (trigger != Admit ==> |next.attempts| == |run.attempts|)
  {
  }

  /** Sessions move the run only through the machine, so every interleaving
      keeps its ledger and its retry budget. */
  lemma {:induction false} SessionsKeepTheLedger(w: World, schedule: seq<Action>, budget: int)
    requires Ledger(w.run) && WithinBudget(w.run, budget)
    requires forall i :: 0 <= i < |schedule| ==>
               (schedule[i].Environment? || schedule[i].AskQuestion? || schedule[i].Report?) ==>
                 schedule[i].facts.retryBudget <= budget
    ensures Ledger(Play(w, schedule).run) && WithinBudget(Play(w, schedule).run, budget)
    decreases |schedule|
  {
    if schedule != [] {
      var action := schedule[0];
      if action.Environment? {
        MoveKeeps(w.run, action.trigger, action.facts, budget);
      } else if action.AskQuestion? {
        MoveKeeps(w.run, Ask, action.facts.(principal := Coordinator), budget);
      } else if action.Report? && w.session.at.Reporting? {
        MoveKeeps(w.run, w.session.at.trigger, action.facts.(principal := Coordinator), budget);
      }
      SessionsKeepTheLedger(Step(w, action), schedule[1..], budget);
    }
  }
}
