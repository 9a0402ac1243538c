/**
  A run's sessions, all of them, and the scheduler that launches them
  (agens-server: scheduler, sessions; agens-cli: worker.rs).

  A tick launches a session first and admits the run behind it, both under the
  core's lock, so a launch is one action here. The session takes over the id of
  the run's last leg when that one can be read, and a fresh id otherwise; an id
  that is still live is refused. When the admission cannot be written the session
  is abandoned: asked to stop, and live until it does.

  A schedule is any sequence of launches, steps of any session, and moves of the
  run by others. An action that is not enabled changes nothing.
*/
module Launching {
  import opened Wrappers
  import opened RunMachine
  import WorkerSession

  type Step = WorkerSession.Action

  /** A session under an id of the registry, and the number of the leg it was
      admitted with; an abandoned one has none. */
  datatype Registered = Registered(session: WorkerSession.Session, leg: Option<nat>)

  /** One move of the run by a session: who made it, the leg it was admitted
      with, whether it had parked the run before, and the leg the move closed. */
  datatype SessionMove = SessionMove(session: SessionId, own: Option<nat>, parked: bool, closed: nat)

  /** `next` is the next id the session store hands out; `moves` records the
      history, no step reads it. */
  datatype Daemon = Daemon(run: Run, sessions: map<SessionId, Registered>, next: SessionId, moves: seq<SessionMove>)

  /** `Launch` stands for an eligible queued run that got a slot: `readable` says
      whether the previous session can be read, `stored` whether the admission
      can be written. */
  datatype Action =
    | Launch(readable: bool, stored: bool, facts: Facts)
    | Session(id: SessionId, step: Step)
    | Others(trigger: Trigger, facts: Facts)

  function Started(run: Run, next: SessionId): Daemon {
    Daemon(run, map[], next, [])
  }

  predicate Live(d: Daemon, id: SessionId) {
    id in d.sessions && !d.sessions[id].session.at.Over?
  }

  predicate AnyLive(d: Daemon) {
    exists id :: id in d.sessions && Live(d, id)
  }

  /** `previous_session`: the session of the run's last leg. */
  function Previous(run: Run): Option<SessionId> {
    if run.attempts == [] then None else run.attempts[|run.attempts| - 1].session
  }

  /** `open_session`: the id a launch starts its session under. */
  function SessionFor(d: Daemon, readable: bool): SessionId {
    if readable && Previous(d.run).Some? then Previous(d.run).value else d.next
  }

  /** What the tick says about an eligible run it has a slot for. */
  function AdmissionFacts(facts: Facts, id: SessionId): Facts {
    facts.(principal := Coordinator, slotAvailable := true, providerServing := true, worktreeReady := true,
           session := Some(id))
  }

  /** The launch starts a session. */
  predicate Starts(d: Daemon, action: Action) {
    action.Launch? && d.run.state == Queued && !Live(d, SessionFor(d, action.readable))
  }

  /** `admit`: the session first, then the run behind it. */
  function Launched(d: Daemon, action: Action): Daemon
    requires Starts(d, action)
  {
    var id := SessionFor(d, action.readable);
    var applied := ApplyRun(d.run, Admit, AdmissionFacts(action.facts, id));
    var landed := action.stored && applied.Moved?;
    Daemon(
      if landed then applied.run else d.run,
      d.sessions[id := Registered(WorkerSession.LAUNCHED, if landed then Some(|d.run.attempts| + 1) else None)],
      if id < d.next then d.next else id + 1,
      d.moves)
  }

  /** A session's own step. Only its `ask` and its report move the run. */
  function Stepped(d: Daemon, id: SessionId, step: Step): Daemon
    requires id in d.sessions && !step.Environment?
  {
    var r := d.sessions[id];
    var w := WorkerSession.Step(WorkerSession.World(d.run, r.session), step);
    Daemon(
      w.run,
      d.sessions[id := r.(session := w.session)],
      d.next,
      if w.run == d.run then d.moves else d.moves + [SessionMove(id, r.leg, r.session.parked, |d.run.attempts|)])
  }

  /** Nobody but the scheduler admits a run. */
  function Act(d: Daemon, action: Action): Daemon {
    match action
    case Launch(_, _, _) => if Starts(d, action) then Launched(d, action) else d
    case Session(id, step) => if id in d.sessions && !step.Environment? then Stepped(d, id, step) else d
    case Others(trigger, facts) => if trigger == Admit then d else d.(run := After(d.run, trigger, facts))
  }

  function Play(d: Daemon, schedule: seq<Action>): Daemon
    decreases |schedule|
  {
    if schedule == [] then d else Play(Act(d, schedule[0]), schedule[1..])
  }

  // --------------------------------------------------- what every action keeps

  /** One session against the run: its leg is one of the run's, and if it parked
      the run that leg is closed. */
  ghost predicate Kept(run: Run, r: Registered) {
    && WorkerSession.Consistent(r.session)
    && (r.leg.Some? ==> 1 <= r.leg.value <= |run.attempts|)
    && (r.leg.Some? && r.session.parked ==> run.attempts[r.leg.value - 1].outcome.Some?)
  }

  ghost predicate Inv(d: Daemon) {
    && Ledger(d.run)
    && (forall id :: id in d.sessions ==> id < d.next && Kept(d.run, d.sessions[id]))
    && SessionsBelow(d.run, d.next)
  }

  /** Every session a leg names has an id already handed out. */
  ghost predicate SessionsBelow(run: Run, next: SessionId) {
    forall i :: 0 <= i < |run.attempts| && run.attempts[i].session.Some? ==> run.attempts[i].session.value < next
  }

  /** Legs are only ever added, and closed for good. */
  ghost predicate Extends(before: Run, after: Run) {
    && |before.attempts| <= |after.attempts|
    && forall i :: 0 <= i < |before.attempts| ==>
         && after.attempts[i].session == before.attempts[i].session
         && (before.attempts[i].outcome.Some? ==> after.attempts[i].outcome.Some?)
  }

  lemma MoveExtends(run: Run, trigger: Trigger, facts: Facts)
    requires Ledger(run)
    ensures var next := After(run, trigger, facts);
      && Ledger(next) && Extends(run, next)
      && |next.attempts| == |run.attempts| + (if ApplyRun(run, trigger, facts).Moved? && trigger == Admit then 1 else 0)
      && (|next.attempts| > |run.attempts| ==> next.attempts[|run.attempts|].session == facts.session)
      && (trigger != Admit && next != run ==> next.state != Running)
  {
    MoveKeepsLedger(run, trigger, facts);
    if ApplyRun(run, trigger, facts).Moved? {
      RowLegs(run.state, trigger);
    }
  }

  lemma KeptExtends(before: Run, after: Run, r: Registered)
    requires Kept(before, r) && Extends(before, after)
    ensures Kept(after, r)
  {
  }

  /** What a session's step does to the run: nothing, or one move of a running
      run, by a session that is live. */
  lemma StepMoves(run: Run, s: WorkerSession.Session, step: Step)
    requires Ledger(run) && WorkerSession.Consistent(s) && !step.Environment?
    ensures var w := WorkerSession.Step(WorkerSession.World(run, s), step);
      && Ledger(w.run) && Extends(run, w.run) && |w.run.attempts| == |run.attempts|
      && WorkerSession.Consistent(w.session)
      && (s.at.Over? ==> w.session == s && w.run == run)
      && (w.run != run ==> run.state == Running && w.run.state != Running)
      && (w.session.parked && !s.parked ==> w.run != run)
  {
    if step.AskQuestion? && s.at.Turning? {
      MoveExtends(run, Ask, step.facts.(principal := Coordinator));
    } else if step.Report? && s.at.Reporting? {
      MoveExtends(run, s.at.trigger, step.facts.(principal := Coordinator));
    }
    WorkerSession.ConsistentStep(WorkerSession.World(run, s), step);
  }

  /** What becomes of the invariant when one session's entry and the run change. */
  lemma InvUpdate(d: Daemon, d': Daemon, id: SessionId, r: Registered)
    requires Inv(d) && Ledger(d'.run) && Extends(d.run, d'.run) && d.next <= d'.next
    requires d'.sessions == d.sessions[id := r] && id < d'.next && Kept(d'.run, r)
    requires forall i :: |d.run.attempts| <= i < |d'.run.attempts| && d'.run.attempts[i].session.Some? ==>
               d'.run.attempts[i].session.value < d'.next
    ensures Inv(d')
  {
    forall other | other in d'.sessions
      ensures other < d'.next && Kept(d'.run, d'.sessions[other])
    {
      if other != id {
        KeptExtends(d.run, d'.run, d.sessions[other]);
      }
    }
  }

  lemma InvStepped(d: Daemon, id: SessionId, step: Step)
    requires Inv(d) && id in d.sessions && !step.Environment?
    ensures Inv(Stepped(d, id, step))
  {
    var r := d.sessions[id];
    var w := WorkerSession.Step(WorkerSession.World(d.run, r.session), step);
    StepMoves(d.run, r.session, step);
    KeptStepped(d.run, r, step);
    InvUpdate(d, Stepped(d, id, step), id, r.(session := w.session));
  }

  lemma KeptStepped(run: Run, r: Registered, step: Step)
    requires Ledger(run) && Kept(run, r) && !step.Environment?
    ensures var w := WorkerSession.Step(WorkerSession.World(run, r.session), step);
      Kept(w.run, r.(session := w.session))
  {
    StepMoves(run, r.session, step);
    var w := WorkerSession.Step(WorkerSession.World(run, r.session), step);
    if r.leg.Some? && w.session.parked && !r.session.parked {
      assert Ledger(w.run) && w.run.state != Running;
    }
  }

  /** What a launch that starts a session leads to. */
  lemma LaunchedRun(d: Daemon, action: Action)
    requires Inv(d) && Starts(d, action)
    ensures var id := SessionFor(d, action.readable); var next := Launched(d, action).run;
      && Ledger(next) && Extends(d.run, next)
      && (if action.stored then
            next.state == Running && |next.attempts| == |d.run.attempts| + 1
            && next.attempts[|d.run.attempts|].session == Some(id)
          else next == d.run)
  {
    var facts := AdmissionFacts(action.facts, SessionFor(d, action.readable));
    assert ApplyRun(d.run, Admit, facts).Moved?;
    MoveExtends(d.run, Admit, facts);
  }

  lemma InvLaunched(d: Daemon, action: Action)
    requires Inv(d) && Starts(d, action)
    ensures Inv(Launched(d, action))
  {
    LaunchedRun(d, action);
    var id := SessionFor(d, action.readable);
    InvUpdate(d, Launched(d, action), id, Launched(d, action).sessions[id]);
  }

  lemma InvAct(d: Daemon, action: Action)
    requires Inv(d)
    ensures Inv(Act(d, action))
  {
    if action.Session? && action.id in d.sessions && !action.step.Environment? {
      InvStepped(d, action.id, action.step);
    } else if Starts(d, action) {
      InvLaunched(d, action);
    } else if action.Others? && action.trigger != Admit {
      MoveExtends(d.run, action.trigger, action.facts);
      forall id | id in d.sessions
        ensures Kept(Act(d, action).run, d.sessions[id])
      {
        KeptExtends(d.run, Act(d, action).run, d.sessions[id]);
      }
    }
  }

  lemma {:induction false} InvPlay(d: Daemon, schedule: seq<Action>)
    requires Inv(d)
    ensures Inv(Play(d, schedule))
    decreases |schedule|
  {
    if schedule != [] {
      InvAct(d, schedule[0]);
      InvPlay(Act(d, schedule[0]), schedule[1..]);
    }
  }

  // ------------------------------------------------------ one leg, one session

  /** Whenever the run executes, every live session is the one of its open leg. */
  ghost predicate Sole(d: Daemon) {
    d.run.state == Running ==>
      forall id :: id in d.sessions && Live(d, id) ==> d.sessions[id].leg == Some(|d.run.attempts|)
  }

  /** Sessions moved the run only to close their own leg, and none that had parked
      the run moved it again. */
  ghost predicate OwnMoves(d: Daemon) {
    forall i :: 0 <= i < |d.moves| ==> d.moves[i].own == Some(d.moves[i].closed) && !d.moves[i].parked
  }

  /** The launch starts a session, and its admission takes the run, while another
      session of the run is still live. */
  predicate Overlaps(d: Daemon, action: Action) {
    Starts(d, action) && action.stored && AnyLive(d)
  }

  predicate Disjoint(d: Daemon, schedule: seq<Action>)
    decreases |schedule|
  {
    schedule == [] || (!Overlaps(d, schedule[0]) && Disjoint(Act(d, schedule[0]), schedule[1..]))
  }

  lemma SoleStepped(d: Daemon, id: SessionId, step: Step)
    requires Inv(d) && Sole(d) && OwnMoves(d) && id in d.sessions && !step.Environment?
    ensures Sole(Stepped(d, id, step)) && OwnMoves(Stepped(d, id, step))
  {
    StepMoves(d.run, d.sessions[id].session, step);
    var d' := Stepped(d, id, step);
    if d'.run == d.run {
      forall other | other in d'.sessions && Live(d', other)
        ensures Live(d, other) && d'.sessions[other].leg == d.sessions[other].leg
      {
      }
    } else {
      assert Live(d, id);
      assert Kept(d.run, d.sessions[id]);
    }
  }

  lemma SoleAct(d: Daemon, action: Action)
    requires Inv(d) && Sole(d) && OwnMoves(d) && !Overlaps(d, action)
    ensures Sole(Act(d, action)) && OwnMoves(Act(d, action))
  {
    if action.Session? && action.id in d.sessions && !action.step.Environment? {
      SoleStepped(d, action.id, action.step);
    } else if Starts(d, action) {
      LaunchedRun(d, action);
      var d' := Launched(d, action);
      forall other | other in d'.sessions && Live(d', other) && d'.run.state == Running
        ensures d'.sessions[other].leg == Some(|d'.run.attempts|)
      {
        assert other != SessionFor(d, action.readable) ==> Live(d, other);
      }
    } else if action.Others? && action.trigger != Admit {
      MoveExtends(d.run, action.trigger, action.facts);
      assert Act(d, action).run.state == Running ==> Act(d, action).run == d.run;
    }
  }

  /** Without a launch that overlaps a live session, every session closes its own
      leg only, once, and a session that parked the run is silent from then on. */
  lemma {:induction false} SessionsKeepToTheirLegs(d: Daemon, schedule: seq<Action>)
    requires Inv(d) && Sole(d) && OwnMoves(d) && Disjoint(d, schedule)
    ensures Sole(Play(d, schedule)) && OwnMoves(Play(d, schedule))
    decreases |schedule|
  {
    if schedule != [] {
      SoleAct(d, schedule[0]);
      InvAct(d, schedule[0]);
      SessionsKeepToTheirLegs(Act(d, schedule[0]), schedule[1..]);
    }
  }

  // -------------------------------------------------------- the launch's guard

  /** The only session that can be live is the one of the run's last leg. */
  ghost predicate Named(d: Daemon) {
    forall id :: id in d.sessions && Live(d, id) ==> Previous(d.run) == Some(id)
  }

  /** A launch whose admission takes the run overlaps a live session exactly when
      it could not read the previous session, and that one lives. */
  lemma OverlapsIff(d: Daemon, action: Action)
    requires Inv(d) && Named(d) && action.Launch? && action.stored && d.run.state == Queued
    ensures Overlaps(d, action) <==> !action.readable && AnyLive(d)
  {
    if AnyLive(d) {
      var id :| id in d.sessions && Live(d, id);
      assert Previous(d.run) == Some(id) && id < d.next;
      assert d.next !in d.sessions;
    }
  }

  /** Every admission can be written, and every launch can read the session of
      the run's last leg. */
  predicate Faultless(schedule: seq<Action>, readable: bool, stored: bool) {
    forall i :: 0 <= i < |schedule| && schedule[i].Launch? ==>
      (readable ==> schedule[i].readable) && (stored ==> schedule[i].stored)
  }

  lemma NamedStepped(d: Daemon, id: SessionId, step: Step)
    requires Inv(d) && Named(d) && id in d.sessions && !step.Environment?
    ensures Named(Stepped(d, id, step))
  {
    var d' := Stepped(d, id, step);
    StepMoves(d.run, d.sessions[id].session, step);
    forall other | other in d'.sessions && Live(d', other)
      ensures Previous(d'.run) == Some(other)
    {
      assert Live(d, other);
    }
  }

  lemma NamedLaunched(d: Daemon, action: Action)
    requires Inv(d) && Named(d) && Starts(d, action) && action.readable && action.stored
    ensures Named(Launched(d, action))
  {
    OverlapsIff(d, action);
    LaunchedRun(d, action);
    var d' := Launched(d, action);
    forall other | other in d'.sessions && Live(d', other)
      ensures Previous(d'.run) == Some(other)
    {
      assert other != SessionFor(d, action.readable) ==> Live(d, other);
    }
  }

  lemma NamedAct(d: Daemon, action: Action)
    requires Inv(d) && Named(d) && (action.Launch? ==> action.readable && action.stored)
    ensures Named(Act(d, action)) && !Overlaps(d, action)
  {
    if action.Session? && action.id in d.sessions && !action.step.Environment? {
      NamedStepped(d, action.id, action.step);
    } else if Starts(d, action) {
      OverlapsIff(d, action);
      NamedLaunched(d, action);
    } else if action.Others? && action.trigger != Admit {
      MoveExtends(d.run, action.trigger, action.facts);
      forall id | id in d.sessions && Live(Act(d, action), id)
        ensures Previous(Act(d, action).run) == Some(id)
      {
        assert Live(d, id);
      }
    }
  }

  lemma {:induction false} FaultlessIsDisjoint(d: Daemon, schedule: seq<Action>)
    requires Inv(d) && Named(d) && Faultless(schedule, true, true)
    ensures Disjoint(d, schedule) && Named(Play(d, schedule))
    decreases |schedule|
  {
    if schedule != [] {
      NamedAct(d, schedule[0]);
      InvAct(d, schedule[0]);
      FaultlessIsDisjoint(Act(d, schedule[0]), schedule[1..]);
    }
  }

  lemma StartedIsSound(run: Run, next: SessionId)
    requires Ledger(run)
    requires SessionsBelow(run, next)
    ensures Inv(Started(run, next)) && Sole(Started(run, next))
    ensures Named(Started(run, next)) && OwnMoves(Started(run, next))
  {
  }

  /** While every launch can read the previous session and write its admission, a
      session closes the leg it was launched for and no other, and one that has
      parked the run never moves it again, however launches, answers,
      cancellations and the endings of turns interleave. */
  lemma ParkedSessionIsSilent(run: Run, next: SessionId, schedule: seq<Action>)
    requires Ledger(run) && Faultless(schedule, true, true)
    requires SessionsBelow(run, next)
    ensures OwnMoves(Play(Started(run, next), schedule))
  {
    StartedIsSound(run, next);
    FaultlessIsDisjoint(Started(run, next), schedule);
    SessionsKeepToTheirLegs(Started(run, next), schedule);
  }

  /** A move by a session closes the open leg, the one it was launched for, and
      touches no other. */
  lemma ReportClosesItsOwnLeg(run: Run, next: SessionId, schedule: seq<Action>, id: SessionId, step: Step)
    requires Ledger(run) && Faultless(schedule, true, true)
    requires SessionsBelow(run, next)
    requires var d := Play(Started(run, next), schedule);
      id in d.sessions && !step.Environment? && Stepped(d, id, step).run != d.run
    ensures var d := Play(Started(run, next), schedule); var after := Stepped(d, id, step).run;
      var last := |d.run.attempts| - 1;
      && last >= 0 && d.sessions[id].leg == Some(d.run.attempts[last].number)
      && d.run.attempts[last].outcome.None? && |after.attempts| == last + 1
      && after.attempts[last].outcome.Some? && after.attempts[..last] == d.run.attempts[..last]
  {
    var d := Play(Started(run, next), schedule);
    StartedIsSound(run, next);
    FaultlessIsDisjoint(Started(run, next), schedule);
    SessionsKeepToTheirLegs(Started(run, next), schedule);
    InvPlay(Started(run, next), schedule);
    StepMoves(d.run, d.sessions[id].session, step);
    assert Live(d, id);
  }

  // --------------------------------------------------------- a run left behind

  /** The run executes, and no session of it is live to report it. */
  predicate Stranded(d: Daemon) {
    d.run.state == Running && !AnyLive(d)
  }

  /** The step ends the session while its run executes: a request that cannot be
      built, a row that cannot be read, or a core that cannot be locked. */
  predicate Strands(d: Daemon, action: Action) {
    && action.Session? && action.id in d.sessions && d.run.state == Running
    && var at := d.sessions[action.id].session.at;
    match action.step
    case Prepare(ready) => at.Preparing? && !ready
    case Look(readable) => (at.Finishing? || at.Parking? || at.Stopping?) && !readable
    case Report(lockable, _) => at.Reporting? && !lockable
    case _ => false
  }

  /** A session's own step ends it with its run still running in those three ways
      only; every other end has moved the run, or found it moved. */
  lemma StrandingStep(run: Run, s: WorkerSession.Session, step: Step)
    requires WorkerSession.Consistent(s) && !s.at.Over? && !step.Environment? && run.state == Running
    ensures var w := WorkerSession.Step(WorkerSession.World(run, s), step);
      (w.session.at.Over? && w.run.state == Running)
      <==> (step.Prepare? && s.at.Preparing? && !step.ready)
           || (step.Look? && (s.at.Finishing? || s.at.Parking? || s.at.Stopping?) && !step.readable)
           || (step.Report? && s.at.Reporting? && !step.lockable)
  {
    if step.Report? && s.at.Reporting? && step.lockable {
      var facts := step.facts.(principal := Coordinator);
      assert ApplyRun(run, s.at.trigger, facts).Moved?;
    }
  }

  lemma OthersLive(d: Daemon, id: SessionId, step: Step)
    requires id in d.sessions && !step.Environment?
    ensures var d' := Stepped(d, id, step);
      d'.sessions.Keys == d.sessions.Keys
      && forall other :: other in d.sessions && other != id ==> (Live(d', other) <==> Live(d, other))
  {
  }

  /** The one live session of a run that executes takes a step. */
  lemma StrandedAlone(d: Daemon, id: SessionId, step: Step)
    requires Inv(d) && Named(d) && d.run.state == Running
    requires id in d.sessions && Live(d, id) && !step.Environment?
    ensures Stranded(Stepped(d, id, step)) <==> Strands(d, Session(id, step))
  {
    OthersLive(d, id, step);
    StrandingStep(d.run, d.sessions[id].session, step);
    assert forall other :: other in d.sessions && Live(d, other) ==> Previous(d.run) == Some(other);
    assert AnyLive(Stepped(d, id, step)) <==> Live(Stepped(d, id, step), id);
  }

  lemma StrandedStepped(d: Daemon, id: SessionId, step: Step)
    requires Inv(d) && Named(d) && !Stranded(d) && id in d.sessions && !step.Environment?
    ensures Stranded(Stepped(d, id, step)) <==> Strands(d, Session(id, step))
  {
    StepMoves(d.run, d.sessions[id].session, step);
    if d.run.state == Running {
      var live :| live in d.sessions && Live(d, live);
      if live == id {
        StrandedAlone(d, id, step);
      } else {
        assert Previous(d.run) == Some(live) && !Live(d, id);
        OthersLive(d, id, step);
      }
    }
  }

  lemma StrandedAct(d: Daemon, action: Action)
    requires Inv(d) && Named(d) && !Stranded(d)
    ensures Stranded(Act(d, action)) <==> Strands(d, action)
  {
    var d' := Act(d, action);
    if action.Session? && action.id in d.sessions && !action.step.Environment? {
      StrandedStepped(d, action.id, action.step);
    } else if Starts(d, action) {
      assert Live(d', SessionFor(d, action.readable));
    } else if action.Others? && action.trigger != Admit {
      MoveExtends(d.run, action.trigger, action.facts);
      assert forall id :: id in d.sessions ==> (Live(d', id) <==> Live(d, id));
    }
  }

  /** At no point of the run is it left running without a session. */
  predicate Attended(d: Daemon, schedule: seq<Action>)
    decreases |schedule|
  {
    !Stranded(d) && (schedule == [] || Attended(Act(d, schedule[0]), schedule[1..]))
  }

  predicate NoStranding(d: Daemon, schedule: seq<Action>)
    decreases |schedule|
  {
    schedule == [] || (!Strands(d, schedule[0]) && NoStranding(Act(d, schedule[0]), schedule[1..]))
  }

  lemma {:induction false} AttendedFrom(d: Daemon, schedule: seq<Action>)
    requires Inv(d) && Named(d) && !Stranded(d) && Faultless(schedule, true, true)
    ensures Attended(d, schedule) <==> NoStranding(d, schedule)
    decreases |schedule|
  {
    if schedule != [] {
      StrandedAct(d, schedule[0]);
      NamedAct(d, schedule[0]);
      InvAct(d, schedule[0]);
      if !Strands(d, schedule[0]) {
        AttendedFrom(Act(d, schedule[0]), schedule[1..]);
      }
    }
  }

  /** A run is never left running without a session to report it, exactly if no
      session of it ends on a request it could not build, a row it could not read
      or a core it could not lock; however its turns end otherwise. */
  lemma AttendedIff(run: Run, next: SessionId, schedule: seq<Action>)
    requires Ledger(run) && run.state != Running && SessionsBelow(run, next) && Faultless(schedule, true, true)
    ensures Attended(Started(run, next), schedule) <==> NoStranding(Started(run, next), schedule)
  {
    StartedIsSound(run, next);
    AttendedFrom(Started(run, next), schedule);
  }

  // ------------------------------------------------------- the guard is needed

  lemma PlayFirst(d: Daemon, action: Action, rest: seq<Action>)
    ensures Play(d, [action] + rest) == Play(Act(d, action), rest)
  {
    assert ([action] + rest)[1..] == rest;
  }

  const FACTS := Facts(Coordinator, true, true, true, true, true, true, true, "guidance", 1, false, None)

  /** The next step of a session on its way to a report. */
  function Onward(at: WorkerSession.Location): Step
    requires !at.Over?
  {
    match at
    case AwaitingAdmission => WorkerSession.Poll(true)
    case Preparing => WorkerSession.Prepare(true)
    case Turning => WorkerSession.TurnEnds(WorkerSession.Answer)
    case Reporting(_, _) => WorkerSession.Report(true, FACTS)
    case _ => WorkerSession.Look(true)
  }

  function Distance(at: WorkerSession.Location): nat {
    match at
    case AwaitingAdmission => 4
    case Preparing => 3
    case Turning => 2
    case Reporting(_, _) => 0
    case _ => 1
  }

  /** A live session that does not own the open leg, on a run that executes. */
  ghost predicate Stray(d: Daemon, id: SessionId) {
    && Inv(d) && d.run.state == Running
    && id in d.sessions && Live(d, id) && d.sessions[id].leg != Some(|d.run.attempts|)
  }

  lemma StrayReports(d: Daemon, id: SessionId)
    requires Stray(d, id) && d.sessions[id].session.at.Reporting?
    ensures !OwnMoves(Act(d, Session(id, WorkerSession.Report(true, FACTS))))
  {
    var r := d.sessions[id];
    assert Kept(d.run, r);
    WorkerSession.ReportsAlone(WorkerSession.World(d.run, r.session), FACTS);
    var d' := Act(d, Session(id, WorkerSession.Report(true, FACTS)));
    assert d'.moves[|d.moves|] == SessionMove(id, r.leg, r.session.parked, |d.run.attempts|);
  }

  lemma StrayStep(d: Daemon, id: SessionId)
    requires Stray(d, id)
    ensures var at := d.sessions[id].session.at; var d' := Act(d, Session(id, Onward(at)));
      if at.Reporting? then !OwnMoves(d')
      else Stray(d', id) && Distance(d'.sessions[id].session.at) < Distance(at)
  {
    var at := d.sessions[id].session.at;
    if at.Reporting? {
      StrayReports(d, id);
    } else {
      InvAct(d, Session(id, Onward(at)));
    }
  }

  /** Left to itself, a stray session closes a leg that is not its own. */
  lemma {:induction false} StrayMoves(d: Daemon, id: SessionId) returns (after: seq<Action>)
    requires Stray(d, id)
    ensures forall i :: 0 <= i < |after| ==> after[i].Session?
    ensures !OwnMoves(Play(d, after))
    decreases Distance(d.sessions[id].session.at)
  {
    var at := d.sessions[id].session.at;
    var action := Session(id, Onward(at));
    StrayStep(d, id);
    var rest := [];
    if !at.Reporting? {
      rest := StrayMoves(Act(d, action), id);
    }
    after := [action] + rest;
    PlayFirst(d, action, rest);
  }

  lemma {:induction false} StepsAreDisjoint(d: Daemon, schedule: seq<Action>)
    requires forall i :: 0 <= i < |schedule| ==> schedule[i].Session?
    ensures Disjoint(d, schedule)
    decreases |schedule|
  {
    if schedule != [] {
      StepsAreDisjoint(Act(d, schedule[0]), schedule[1..]);
    }
  }

  ghost predicate Safe(d: Daemon) {
    forall after :: Disjoint(d, after) ==> OwnMoves(Play(d, after))
  }

  /** Taking the run for a new leg is safe exactly if no session of it is live. */
  lemma LandingIsSafeIff(d: Daemon, action: Action)
    requires Inv(d) && Sole(d) && OwnMoves(d) && Starts(d, action) && action.stored
    ensures Safe(Act(d, action)) <==> !AnyLive(d)
  {
    var d' := Act(d, action);
    InvAct(d, action);
    LaunchedRun(d, action);
    if AnyLive(d) {
      var id :| id in d.sessions && Live(d, id);
      assert Kept(d.run, d.sessions[id]) && Stray(d', id);
      var after := StrayMoves(d', id);
      StepsAreDisjoint(d', after);
    } else {
      SoleAct(d, action);
      forall after | Disjoint(d', after)
        ensures OwnMoves(Play(d', after))
      {
        SessionsKeepToTheirLegs(d', after);
      }
    }
  }

  /** So a launch is safe exactly if it can read the previous session, or finds no
      session live: the registry's refusal is what keeps legs apart. */
  lemma LaunchIsSafeIff(d: Daemon, action: Action)
    requires Inv(d) && Sole(d) && OwnMoves(d) && Named(d)
    requires action.Launch? && action.stored && d.run.state == Queued
    ensures Safe(Act(d, action)) <==> action.readable || !AnyLive(d)
  {
    OverlapsIff(d, action);
    if Starts(d, action) {
      LandingIsSafeIff(d, action);
    } else {
      assert Act(d, action) == d;
      forall after | Disjoint(d, after)
        ensures OwnMoves(Play(d, after))
      {
        SessionsKeepToTheirLegs(d, after);
      }
      RefusedIsReadable(d, action);
    }
  }

  /** A fresh id is never refused. */
  lemma RefusedIsReadable(d: Daemon, action: Action)
    requires Inv(d) && action.Launch? && d.run.state == Queued && !Starts(d, action)
    ensures action.readable && AnyLive(d)
  {
    assert Live(d, SessionFor(d, action.readable));
    assert d.next !in d.sessions;
  }

  const QUEUED := Run(Queued, [])

  /** The first leg parks its run; the answer requeues it while that turn is still
      returning; and the next launch cannot read the session it would resume. */
  function UnreadableLaunch(): seq<Action> {
    [Launch(true, true, FACTS), Session(0, WorkerSession.Poll(true)), Session(0, WorkerSession.Prepare(true)),
     Session(0, WorkerSession.AskQuestion(FACTS)), Others(Answered, FACTS), Launch(false, true, FACTS)]
  }

  /** The turn of the first leg returns. */
  function LateEnding(): seq<Action> {
    [Session(0, WorkerSession.TurnEnds(WorkerSession.Answer)), Session(0, WorkerSession.Look(true)),
     Session(0, WorkerSession.Report(true, FACTS))]
  }

  /** A session on its way, and one that has parked its run. */
  function Going(at: WorkerSession.Location, parked: bool): WorkerSession.Session {
    WorkerSession.Session(at, Some(Running), parked, [])
  }

  lemma FirstLegStarts()
    ensures Act(Started(QUEUED, 0), Launch(true, true, FACTS))
            == Daemon(Run(Running, [Attempt(1, Some(0), None)]),
                      map[0 := Registered(WorkerSession.LAUNCHED, Some(1))], 1, [])
  {
    assert LastNumber([]) == 0;
  }

  lemma FirstLegAsks(d: Daemon)
    requires d.run == Run(Running, [Attempt(1, Some(0), None)]) && d.moves == []
    requires d.sessions == map[0 := Registered(Going(WorkerSession.Turning, false), Some(1))]
    ensures Act(d, Session(0, WorkerSession.AskQuestion(FACTS)))
            == Daemon(Run(AwaitingInput, [Attempt(1, Some(0), Some(LegInterrupted))]),
                      map[0 := Registered(Going(WorkerSession.Turning, true), Some(1))], d.next,
                      [SessionMove(0, Some(1), false, 1)])
  {
    assert CloseOpen(d.run.attempts, LegInterrupted) == [Attempt(1, Some(0), Some(LegInterrupted))];
  }

  lemma FirstLegParks()
    ensures Play(Started(QUEUED, 0), UnreadableLaunch()[..4])
            == Daemon(Run(AwaitingInput, [Attempt(1, Some(0), Some(LegInterrupted))]),
                      map[0 := Registered(Going(WorkerSession.Turning, true), Some(1))], 1,
                      [SessionMove(0, Some(1), false, 1)])
  {
    var schedule := UnreadableLaunch()[..4];
    var d1 := Act(Started(QUEUED, 0), schedule[0]);
    FirstLegStarts();
    var d2 := d1.(sessions := map[0 := Registered(Going(WorkerSession.Preparing, false), Some(1))]);
    assert Act(d1, schedule[1]) == d2;
    var d3 := d1.(sessions := map[0 := Registered(Going(WorkerSession.Turning, false), Some(1))]);
    assert Act(d2, schedule[2]) == d3;
    FirstLegAsks(d3);
    PlayFour(Started(QUEUED, 0), schedule[0], schedule[1], schedule[2], schedule[3]);
  }

  lemma PlayFour(d: Daemon, a: Action, b: Action, c: Action, e: Action)
    ensures Play(d, [a, b, c, e]) == Act(Act(Act(Act(d, a), b), c), e)
  {
    PlayFirst(d, a, [b, c, e]);
    PlayFirst(Act(d, a), b, [c, e]);
    PlayFirst(Act(Act(d, a), b), c, [e]);
    PlayFirst(Act(Act(Act(d, a), b), c), e, []);
  }

  lemma {:induction false} PlayConcat(d: Daemon, left: seq<Action>, right: seq<Action>)
    ensures Play(d, left + right) == Play(Play(d, left), right)
    decreases |left|
  {
    if left == [] {
      assert left + right == right;
    } else {
      PlayConcat(Act(d, left[0]), left[1..], right);
      assert (left + right)[1..] == left[1..] + right;
    }
  }

  /** Two legs, two sessions, and the first of them still in its turn. */
  const CROSSED := Daemon(
    Run(Running, [Attempt(1, Some(0), Some(LegInterrupted)), Attempt(2, Some(1), None)]),
    map[0 := Registered(Going(WorkerSession.Turning, true), Some(1)), 1 := Registered(WorkerSession.LAUNCHED, Some(2))],
    2, [SessionMove(0, Some(1), false, 1)])

  lemma AnsweredAndLaunched(d: Daemon)
    requires d.run == Run(AwaitingInput, [Attempt(1, Some(0), Some(LegInterrupted))])
    requires d.sessions == map[0 := Registered(Going(WorkerSession.Turning, true), Some(1))]
    requires d.next == 1 && d.moves == [SessionMove(0, Some(1), false, 1)]
    ensures Act(Act(d, Others(Answered, FACTS)), Launch(false, true, FACTS)) == CROSSED
  {
    assert Act(d, Others(Answered, FACTS)) == d.(run := Run(Queued, d.run.attempts));
    assert LastNumber(d.run.attempts) == 1;
  }

  lemma SecondLegStarts()
    ensures Play(Started(QUEUED, 0), UnreadableLaunch()) == CROSSED
  {
    var schedule := UnreadableLaunch();
    var answered, launched := Others(Answered, FACTS), Launch(false, true, FACTS);
    var parked := Play(Started(QUEUED, 0), schedule[..4]);
    assert schedule == schedule[..4] + [answered, launched];
    PlayConcat(Started(QUEUED, 0), schedule[..4], [answered, launched]);
    FirstLegParks();
    AnsweredAndLaunched(parked);
    PlayFirst(parked, answered, [launched]);
    PlayFirst(Act(parked, answered), launched, []);
  }

  function Crossed(at: WorkerSession.Location): Daemon {
    CROSSED.(sessions := CROSSED.sessions[0 := Registered(Going(at, true), Some(1))])
  }

  lemma TurnReturns()
    ensures Play(CROSSED, LateEnding()[..2]) == Crossed(WorkerSession.Reporting(Finished, WorkerSession.Completed))
  {
    assert Act(CROSSED, LateEnding()[0]) == Crossed(WorkerSession.Finishing);
    assert Act(Crossed(WorkerSession.Finishing), LateEnding()[1])
           == Crossed(WorkerSession.Reporting(Finished, WorkerSession.Completed));
    PlayFirst(CROSSED, LateEnding()[0], [LateEnding()[1]]);
    PlayFirst(Crossed(WorkerSession.Finishing), LateEnding()[1], []);
  }

  /** A session that reports closes whatever leg is open. */
  lemma ReportsOpenLeg(d: Daemon, id: SessionId, trigger: Trigger, outcome: WorkerSession.SessionOutcome)
    requires id in d.sessions && d.sessions[id].session.at == WorkerSession.Reporting(trigger, outcome)
    requires d.run.state == Running && trigger in {Finished, AttemptFailed} && d.sessions[id].session.reported == []
    ensures var r := d.sessions[id]; var next := Play(d, [Session(id, WorkerSession.Report(true, FACTS))]);
      && next.moves == d.moves + [SessionMove(id, r.leg, r.session.parked, |d.run.attempts|)]
      && next.run == (if trigger == Finished then Run(Done, CloseOpen(d.run.attempts, LegSucceeded))
                      else Run(Failed, CloseOpen(d.run.attempts, LegFailed)))
  {
    PlayFirst(d, Session(id, WorkerSession.Report(true, FACTS)), []);
  }

  lemma SecondLegIsReported()
    ensures var d := Play(CROSSED, LateEnding());
      && d.moves == [SessionMove(0, Some(1), false, 1), SessionMove(0, Some(1), true, 2)]
      && d.run == Run(Done, [Attempt(1, Some(0), Some(LegInterrupted)), Attempt(2, Some(1), Some(LegSucceeded))])
  {
    var last := Session(0, WorkerSession.Report(true, FACTS));
    assert LateEnding() == LateEnding()[..2] + [last];
    PlayConcat(CROSSED, LateEnding()[..2], [last]);
    TurnReturns();
    ReportsOpenLeg(Crossed(WorkerSession.Reporting(Finished, WorkerSession.Completed)), 0, Finished,
                   WorkerSession.Completed);
    assert CloseOpen(CROSSED.run.attempts, LegSucceeded)
           == [Attempt(1, Some(0), Some(LegInterrupted)), Attempt(2, Some(1), Some(LegSucceeded))];
  }

  /** Where the previous session cannot be read, the session that parked the first
      leg reports the second one finished. */
  lemma EarlyAdmissionIsReported()
    ensures var d := Play(Started(QUEUED, 0), UnreadableLaunch() + LateEnding());
      && d.moves == [SessionMove(0, Some(1), false, 1), SessionMove(0, Some(1), true, 2)]
      && d.run == Run(Done, [Attempt(1, Some(0), Some(LegInterrupted)), Attempt(2, Some(1), Some(LegSucceeded))])
  {
    PlayConcat(Started(QUEUED, 0), UnreadableLaunch(), LateEnding());
    SecondLegStarts();
    SecondLegIsReported();
  }

  /** An admission that could not be written, and the next one. */
  function FailedAdmission(): seq<Action> {
    [Launch(true, false, FACTS), Launch(true, true, FACTS)]
  }

  /** What the abandoned session goes on to do: it was asked to stop, and its turn
      ends itself. */
  function AbandonedTurn(): seq<Action> {
    [Session(0, WorkerSession.Poll(true)), Session(0, WorkerSession.Prepare(true)),
     Session(0, WorkerSession.TurnEnds(WorkerSession.EndedItself)), Session(0, WorkerSession.Look(true))]
  }

  const DOUBLED := Daemon(
    Run(Running, [Attempt(1, Some(1), None)]),
    map[0 := Registered(WorkerSession.LAUNCHED, None), 1 := Registered(WorkerSession.LAUNCHED, Some(1))], 2, [])

  lemma AbandonedStaysLive()
    ensures Play(Started(QUEUED, 0), FailedAdmission()) == DOUBLED
  {
    var d0 := Started(QUEUED, 0);
    var d1 := Daemon(QUEUED, map[0 := Registered(WorkerSession.LAUNCHED, None)], 1, []);
    assert Act(d0, FailedAdmission()[0]) == d1;
    assert LastNumber([]) == 0;
    assert Act(d1, FailedAdmission()[1]) == DOUBLED;
    PlayFirst(d0, FailedAdmission()[0], [FailedAdmission()[1]]);
    PlayFirst(d1, FailedAdmission()[1], []);
  }

  function Doubled(at: WorkerSession.Location): Daemon {
    DOUBLED.(sessions := DOUBLED.sessions[0 := Registered(Going(at, false), None)])
  }

  lemma AbandonedGoesOn()
    ensures Play(DOUBLED, AbandonedTurn())
            == Doubled(WorkerSession.Reporting(AttemptFailed, WorkerSession.SessionFailed))
  {
    assert Act(DOUBLED, AbandonedTurn()[0]) == Doubled(WorkerSession.Preparing);
    assert Act(Doubled(WorkerSession.Preparing), AbandonedTurn()[1]) == Doubled(WorkerSession.Turning);
    assert Act(Doubled(WorkerSession.Turning), AbandonedTurn()[2]) == Doubled(WorkerSession.Stopping(true));
    PlayFour(DOUBLED, AbandonedTurn()[0], AbandonedTurn()[1], AbandonedTurn()[2], AbandonedTurn()[3]);
  }

  /** Where an admission could not be written, the session abandoned over it takes
      the next leg for its own and reports it failed. */
  lemma AbandonedSessionIsReported()
    ensures var d := Play(Started(QUEUED, 0),
                          FailedAdmission() + (AbandonedTurn() + [Session(0, WorkerSession.Report(true, FACTS))]));
      && d.moves == [SessionMove(0, None, false, 1)]
      && d.run == Run(Failed, [Attempt(1, Some(1), Some(LegFailed))])
  {
    var last := Session(0, WorkerSession.Report(true, FACTS));
    PlayConcat(Started(QUEUED, 0), FailedAdmission(), AbandonedTurn() + [last]);
    PlayConcat(DOUBLED, AbandonedTurn(), [last]);
    AbandonedStaysLive();
    AbandonedGoesOn();
    var d := Doubled(WorkerSession.Reporting(AttemptFailed, WorkerSession.SessionFailed));
    assert CloseOpen(d.run.attempts, LegFailed) == [Attempt(1, Some(1), Some(LegFailed))];
    ReportsOpenLeg(d, 0, AttemptFailed, WorkerSession.SessionFailed);
  }

  lemma UnreadableBreaks(stored: bool)
    ensures exists schedule :: Faultless(schedule, false, stored) && !OwnMoves(Play(Started(QUEUED, 0), schedule))
  {
    var schedule := UnreadableLaunch() + LateEnding();
    EarlyAdmissionIsReported();
    assert Faultless(schedule, false, stored);
    assert Play(Started(QUEUED, 0), schedule).moves[1].parked;
  }

  lemma UnwrittenBreaks()
    ensures exists schedule :: Faultless(schedule, true, false) && !OwnMoves(Play(Started(QUEUED, 0), schedule))
  {
    var schedule := FailedAdmission() + (AbandonedTurn() + [Session(0, WorkerSession.Report(true, FACTS))]);
    AbandonedSessionIsReported();
    assert Faultless(schedule, true, false);
    assert Play(Started(QUEUED, 0), schedule).moves[0].own == None;
  }

  /** Exactly what the store has to do: sessions keep to their own legs in every
      run in which launches can read the previous session and write their
      admission, and neither can be spared. */
  lemma FaultsIff(readable: bool, stored: bool)
    ensures (forall schedule :: Faultless(schedule, readable, stored) ==> OwnMoves(Play(Started(QUEUED, 0), schedule)))
            <==> readable && stored
  {
    if readable && stored {
      forall schedule | Faultless(schedule, true, true)
        ensures OwnMoves(Play(Started(QUEUED, 0), schedule))
      {
        ParkedSessionIsSilent(QUEUED, 0, schedule);
      }
    } else if !readable {
      UnreadableBreaks(stored);
    } else {
      UnwrittenBreaks();
    }
  }
}
