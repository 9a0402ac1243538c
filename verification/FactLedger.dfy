/**
  What a worker reports about its turn (agens-cli, worker_facts.rs): the
  attribution resolved once, the tokens summed as they arrive, and the facts
  offered to ingest.

  Whether a correlation would succeed, and with what, is an argument of each
  call. A fact counts as offered whether or not the queue takes it.
*/
module FactLedger {
  import opened Wrappers

  const U64_MAX: nat := 0xFFFF_FFFF_FFFF_FFFF

  datatype Attribution = Attribution(attempt: int, turn: int)

  datatype Fact = TurnStarted | TurnEnded(tokens: nat) | QuotaReached | ToolResult(facts: int)

  datatype Offer = Offer(attribution: Attribution, fact: Fact)

  datatype Event = Usage(total: Option<nat>) | ToolResultFacts(facts: int) | OtherEvent

  datatype Call =
    | Observe(event: Event, correlation: Option<Attribution>)
    | ResolveAttempt(correlation: Option<Attribution>)
    | ReportTurnEnded
    | ReportQuotaReached

  datatype Ledger = Ledger(attribution: Option<Attribution>, tokens: nat, offered: seq<Offer>)

  const FRESH := Ledger(None, 0, [])

  function SaturatingAdd(a: nat, b: nat): nat {
    if a + b > U64_MAX then U64_MAX else a + b
  }

  // -------------------------------------------------------- the specification

  /** The ledger after `attribution()`: the first correlation that succeeds is
      kept, and announced. */
  function Attributed(l: Ledger, correlation: Option<Attribution>): Ledger {
    if l.attribution.Some? || correlation.None? then l
    else Ledger(correlation, l.tokens, l.offered + [Offer(correlation.value, TurnStarted)])
  }

  function Offered(l: Ledger, fact: Fact): Ledger {
    if l.attribution.None? then l else l.(offered := l.offered + [Offer(l.attribution.value, fact)])
  }

  function Apply(l: Ledger, call: Call): Ledger {
    match call
    case Observe(event, correlation) =>
      var attributed := Attributed(l, correlation);
      if attributed.attribution.None? then attributed
      else
        (match event
         case Usage(Some(total)) => attributed.(tokens := SaturatingAdd(attributed.tokens, total))
         case ToolResultFacts(facts) => Offered(attributed, ToolResult(facts))
         case _ => attributed)
    case ResolveAttempt(correlation) => Attributed(l, correlation)
    case ReportTurnEnded => Offered(l, TurnEnded(l.tokens))
    case ReportQuotaReached => Offered(l, QuotaReached)
  }

  function Play(l: Ledger, calls: seq<Call>): Ledger
    decreases |calls|
  {
    if calls == [] then l else Play(Apply(l, calls[0]), calls[1..])
  }

  // ------------------------------------------------------------- the reporter

  /** The turn's reporting surface, with the fields its mutex guards. */
  class WorkerFacts {
    var attribution: Option<Attribution>
    var tokens: nat
    var offered: seq<Offer>

    ghost function Value(): Ledger
      reads this
    {
      Ledger(attribution, tokens, offered)
    }

    constructor ()
      ensures Value() == FRESH
    {
      attribution := None;
      tokens := 0;
      offered := [];
    }

    method Report(under: Attribution, fact: Fact)
      modifies this`offered
      ensures offered == old(offered) + [Offer(under, fact)]
    {
      offered := offered + [Offer(under, fact)];
    }

    /** `attribution`. */
    method Attribute(correlation: Option<Attribution>) returns (resolved: Option<Attribution>)
      modifies this
      ensures Value() == Attributed(old(Value()), correlation)
      ensures resolved == attribution
    {
      if attribution.Some? {
        return attribution;
      }
      if correlation.None? {
        return None;
      }
      attribution := correlation;
      Report(correlation.value, TurnStarted);
      resolved := correlation;
    }

    /** `observe`. */
    method ObserveEvent(event: Event, correlation: Option<Attribution>)
      modifies this
      ensures Value() == Apply(old(Value()), Observe(event, correlation))
    {
      var resolved := Attribute(correlation);
      if resolved.None? {
        return;
      }
      match event
      case Usage(total) =>
        if total.Some? {
          tokens := SaturatingAdd(tokens, total.value);
        }
      case ToolResultFacts(facts) => Report(resolved.value, ToolResult(facts));
      case OtherEvent =>
    }

    /** `report_turn_ended`. */
    method TurnHasEnded()
      modifies this
      ensures Value() == Apply(old(Value()), ReportTurnEnded)
    {
      if attribution.Some? {
        Report(attribution.value, TurnEnded(tokens));
      }
    }

    /** `report_quota_reached`. */
    method QuotaWasReached()
      modifies this
      ensures Value() == Apply(old(Value()), ReportQuotaReached)
    {
      if attribution.Some? {
        Report(attribution.value, QuotaReached);
      }
    }
  }

  // -------------------------------------------------------- sequential callers

  /** Nothing is offered before the attribution; then the turn's start comes
      first and once, and everything carries that attribution. */
  ghost predicate WellStarted(l: Ledger) {
    && (l.attribution.None? <==> l.offered == [])
    && (l.offered != [] ==> l.offered[0].fact == TurnStarted)
    && (forall i :: 0 < i < |l.offered| ==> l.offered[i].fact != TurnStarted)
    && (forall i :: 0 <= i < |l.offered| ==> Some(l.offered[i].attribution) == l.attribution)
  }

  lemma {:induction false} StaysWellStarted(l: Ledger, calls: seq<Call>)
    requires WellStarted(l)
    ensures WellStarted(Play(l, calls))
    decreases |calls|
  {
    if calls != [] {
      StaysWellStarted(Apply(l, calls[0]), calls[1..]);
    }
  }

  predicate Correlates(call: Call) {
    (call.Observe? || call.ResolveAttempt?) && call.correlation.Some?
  }

  /** The calls from the first that correlates on, that one included. */
  function FromCorrelation(calls: seq<Call>): seq<Call> {
    if calls == [] || Correlates(calls[0]) then calls else FromCorrelation(calls[1..])
  }

  function TotalUsage(calls: seq<Call>): nat {
    if calls == [] then 0
    else
      (if calls[0].Observe? && calls[0].event.Usage? && calls[0].event.total.Some? then calls[0].event.total.value
       else 0)
      + TotalUsage(calls[1..])
  }

  /** Saturating at every step comes to saturating once. */
  lemma {:induction false} TokensAreTheSum(l: Ledger, calls: seq<Call>)
    requires l.tokens <= U64_MAX
    ensures Play(l, calls).tokens
            == SaturatingAdd(l.tokens, TotalUsage(if l.attribution.Some? then calls else FromCorrelation(calls)))
    ensures Play(l, calls).attribution.Some? <==> l.attribution.Some? || FromCorrelation(calls) != []
    decreases |calls|
  {
    if calls != [] {
      TokensAreTheSum(Apply(l, calls[0]), calls[1..]);
    }
  }

  /** Over any sequence of a turn's calls: no facts at all, or the one
      TurnStarted first and all under one attribution; and a TurnEnded carries
      the usage observed since the correlation, capped at 64 bits. */
  lemma FactsAreWellFormed(calls: seq<Call>)
    ensures var l := Play(FRESH, calls);
      && WellStarted(l)
      && (l.attribution.Some? <==> FromCorrelation(calls) != [])
      && var total := TotalUsage(FromCorrelation(calls));
      && Apply(l, ReportTurnEnded).offered
         == l.offered + if l.attribution.None? then []
                        else [Offer(l.attribution.value, TurnEnded(if total < U64_MAX then total else U64_MAX))]
  {
    StaysWellStarted(FRESH, calls);
    TokensAreTheSum(FRESH, calls);
  }

  lemma {:induction false} PlayOneMore(l: Ledger, calls: seq<Call>, call: Call)
    ensures Play(l, calls + [call]) == Apply(Play(l, calls), call)
    decreases |calls|
  {
    if calls == [] {
      assert [] + [call] == [call];
      assert Play(Apply(l, call), []) == Apply(l, call);
    } else {
      PlayOneMore(Apply(l, calls[0]), calls[1..], call);
      assert (calls + [call])[1..] == calls[1..] + [call];
    }
  }

  /** The value of the first correlation that succeeds. */
  function Joined(calls: seq<Call>): (joined: Option<Attribution>)
    ensures joined.None? <==> forall i :: 0 <= i < |calls| ==> !Correlates(calls[i])
    ensures joined.Some? ==> exists i :: First(calls, i) && calls[i].correlation == joined
  {
    if calls == [] then None
    else if Correlates(calls[0]) then
      assert First(calls, 0);
      calls[0].correlation
    else
      var joined := Joined(calls[1..]);
      assert joined.Some? ==> exists i :: First(calls, i) && calls[i].correlation == joined by {
        if i :| First(calls[1..], i) && calls[1..][i].correlation == joined {
          assert First(calls, i + 1);
        }
      }
      joined
  }

  ghost predicate First(calls: seq<Call>, i: int) {
    && 0 <= i < |calls| && Correlates(calls[i])
    && forall k :: 0 <= k < i ==> !Correlates(calls[k])
  }

  lemma {:induction false} AttributedToTheFirst(l: Ledger, calls: seq<Call>)
    ensures Play(l, calls).attribution == if l.attribution.Some? then l.attribution else Joined(calls)
    decreases |calls|
  {
    if calls != [] {
      AttributedToTheFirst(Apply(l, calls[0]), calls[1..]);
    }
  }

  lemma {:induction false} JoinedOneMore(calls: seq<Call>, call: Call)
    ensures Joined(calls + [call])
            == if Joined(calls).Some? then Joined(calls) else if Correlates(call) then call.correlation else None
    ensures Joined(calls).None? <==> FromCorrelation(calls) == []
  {
    if calls == [] {
      assert [] + [call] == [call];
    } else {
      JoinedOneMore(calls[1..], call);
      assert (calls + [call])[1..] == calls[1..] + [call];
    }
  }

  /** What each call of a turn adds to the stream, over any calls before it: the
      start if it is the first to correlate, and then the tool results of its
      event, the ending with the usage since the correlation, or the refusal;
      before there is a correlation, nothing. All of it is offered under the value
      the first correlation gave. */
  lemma EveryCallOffers(before: seq<Call>, call: Call)
    ensures var under := Joined(before + [call]);
      var was := Play(FRESH, before).offered;
      var total := TotalUsage(FromCorrelation(before));
      Play(FRESH, before + [call]).offered
      == if under.None? then []
         else
           was
           + (if Joined(before).None? then [Offer(under.value, TurnStarted)] else [])
           + (match call
              case Observe(ToolResultFacts(facts), _) => [Offer(under.value, ToolResult(facts))]
              case Observe(_, _) => []
              case ResolveAttempt(_) => []
              case ReportTurnEnded =>
                var capped := if total < 0x1_0000_0000_0000_0000 then total else 0xFFFF_FFFF_FFFF_FFFF;
                [Offer(under.value, TurnEnded(capped))]
              case ReportQuotaReached => [Offer(under.value, QuotaReached)])
  {
    PlayOneMore(FRESH, before, call);
    AttributedToTheFirst(FRESH, before);
    TokensAreTheSum(FRESH, before);
    StaysWellStarted(FRESH, before);
    JoinedOneMore(before, call);
  }

  // -------------------------------------------------------- concurrent callers

  type ThreadId = nat

  /** Where a caller stands between two acquisitions of the state's mutex. The
      job is what it does once it holds an attribution. */
  datatype Job = AddTokens(total: nat) | OfferFact(fact: Fact) | OfferEnd | JustResolve

  datatype Location =
    | Idle
    | Resolving(job: Job)
    | Correlating(job: Job)
    | Setting(job: Job, joined: Attribution)
    | Announcing(job: Job, held: Attribution)
    | Working(job: Job, held: Attribution)
    | Offering(fact: Fact, held: Attribution)

  /** `announcer` records which caller set the attribution. */
  datatype Shared = Shared(ledger: Ledger, callers: map<ThreadId, Location>, announcer: Option<ThreadId>)

  /** A job may correlate (`attribution`), or only ask (`resolved`). */
  datatype Action =
    | Enter(thread: ThreadId, job: Job)
    | Advance(thread: ThreadId, correlates: bool, joined: Option<Attribution>)

  function Put(s: Shared, t: ThreadId, at: Location): Shared {
    s.(callers := s.callers[t := at])
  }

  function OfferUnder(s: Shared, held: Attribution, fact: Fact): Shared {
    s.(ledger := s.ledger.(offered := s.ledger.offered + [Offer(held, fact)]))
  }

  /** One critical section, correlation or report of caller `t`. */
  function Proceed(s: Shared, t: ThreadId, correlates: bool, joined: Option<Attribution>): Shared
    requires t in s.callers
  {
    match s.callers[t]
    case Idle => s
    case Resolving(job) =>
      if s.ledger.attribution.Some? then Put(s, t, Working(job, s.ledger.attribution.value))
      else if correlates then Put(s, t, Correlating(job))
      else Put(s, t, Idle)
    case Correlating(job) => if joined.Some? then Put(s, t, Setting(job, joined.value)) else Put(s, t, Idle)
    case Setting(job, joined) =>
      if s.ledger.attribution.Some? then Put(s, t, Working(job, s.ledger.attribution.value))
      else Put(s.(ledger := s.ledger.(attribution := Some(joined)), announcer := Some(t)), t, Announcing(job, joined))
    case Announcing(job, held) => Put(OfferUnder(s, held, TurnStarted), t, Working(job, held))
    case Working(job, held) =>
      (match job
       case AddTokens(total) => Put(s.(ledger := s.ledger.(tokens := SaturatingAdd(s.ledger.tokens, total))), t, Idle)
       case OfferFact(fact) => Put(s, t, Offering(fact, held))
       case OfferEnd => Put(s, t, Offering(TurnEnded(s.ledger.tokens), held))
       case JustResolve => Put(s, t, Idle))
    case Offering(fact, held) => Put(OfferUnder(s, held, fact), t, Idle)
  }

  function Act(s: Shared, action: Action): Shared {
    match action
    case Enter(t, job) =>
      if (t !in s.callers || s.callers[t].Idle?) && job != OfferFact(TurnStarted) then Put(s, t, Resolving(job)) else s
    case Advance(t, correlates, joined) => if t in s.callers then Proceed(s, t, correlates, joined) else s
  }

  function Interleave(s: Shared, schedule: seq<Action>): Shared
    decreases |schedule|
  {
    if schedule == [] then s else Interleave(Act(s, schedule[0]), schedule[1..])
  }

  predicate Holds(at: Location) {
    at.Announcing? || at.Working? || at.Offering?
  }

  /** A caller's own part: it holds the ledger's attribution, and announces only
      as the one that set it, before the start is offered. */
  ghost predicate Sound(s: Shared, t: ThreadId, at: Location) {
    && (Holds(at) ==> s.ledger.attribution == Some(at.held))
    && (at.Announcing? ==> s.announcer == Some(t) && !StartOffered(s))
    && ((at.Resolving? || at.Correlating? || at.Setting? || at.Announcing? || at.Working?) ==>
          at.job != OfferFact(TurnStarted))
    && (at.Offering? ==> at.fact != TurnStarted)
  }

  ghost predicate StartOffered(s: Shared) {
    exists i :: 0 <= i < |s.ledger.offered| && s.ledger.offered[i].fact == TurnStarted
  }

  ghost predicate Agreed(s: Shared) {
    && (forall t :: t in s.callers ==> Sound(s, t, s.callers[t]))
    && (s.ledger.attribution.None? <==> s.announcer.None?)
    && (s.ledger.attribution.None? ==> s.ledger.offered == [])
    && (forall i :: 0 <= i < |s.ledger.offered| ==> Some(s.ledger.offered[i].attribution) == s.ledger.attribution)
    && (forall i, j :: 0 <= i < j < |s.ledger.offered| ==>
          !(s.ledger.offered[i].fact == TurnStarted && s.ledger.offered[j].fact == TurnStarted))
    && (s.announcer.Some? ==> s.announcer.value in s.callers)
    && (s.announcer.Some? && !s.callers[s.announcer.value].Announcing? ==> StartOffered(s))
  }

  lemma OfferedStart(s: Shared, held: Attribution, fact: Fact)
    ensures StartOffered(OfferUnder(s, held, fact)) <==> StartOffered(s) || fact == TurnStarted
  {
    var offered := OfferUnder(s, held, fact).ledger.offered;
    if StartOffered(s) {
      var i :| 0 <= i < |s.ledger.offered| && s.ledger.offered[i].fact == TurnStarted;
      assert offered[i].fact == TurnStarted;
    }
    assert offered[|offered| - 1].fact == fact;
  }

  /** The steps that offer a fact. */
  lemma AgreedOffers(s: Shared, t: ThreadId)
    requires Agreed(s) && t in s.callers && (s.callers[t].Announcing? || s.callers[t].Offering?)
    ensures Agreed(Proceed(s, t, true, None))
  {
    var at := s.callers[t];
    assert Sound(s, t, at);
    OfferedStart(s, at.held, if at.Announcing? then TurnStarted else at.fact);
  }

  /** The steps that do not. */
  lemma AgreedMoves(s: Shared, t: ThreadId, correlates: bool, joined: Option<Attribution>)
    requires Agreed(s) && t in s.callers && !s.callers[t].Announcing? && !s.callers[t].Offering?
    ensures Agreed(Proceed(s, t, correlates, joined))
  {
    assert Sound(s, t, s.callers[t]);
    assert Proceed(s, t, correlates, joined).ledger.offered == s.ledger.offered;
  }

  lemma AgreedStep(s: Shared, action: Action)
    requires Agreed(s)
    ensures Agreed(Act(s, action))
  {
    if action.Advance? && action.thread in s.callers {
      if s.callers[action.thread].Announcing? || s.callers[action.thread].Offering? {
        AgreedOffers(s, action.thread);
      } else {
        AgreedMoves(s, action.thread, action.correlates, action.joined);
      }
    }
  }

  lemma {:induction false} AgreedInterleave(s: Shared, schedule: seq<Action>)
    requires Agreed(s)
    ensures Agreed(Interleave(s, schedule))
    decreases |schedule|
  {
    if schedule != [] {
      AgreedStep(s, schedule[0]);
      AgreedInterleave(Act(s, schedule[0]), schedule[1..]);
    }
  }

  const QUIESCENT := Shared(FRESH, map[], None)

  /** With any number of concurrent callers, every fact offered carries the one
      attribution, the turn's start is offered at most once, and it has been
      offered as soon as no caller is about to. */
  lemma ConcurrentCallersStartOnce(schedule: seq<Action>)
    ensures var s := Interleave(QUIESCENT, schedule); var offered := s.ledger.offered;
      && (forall i :: 0 <= i < |offered| ==> Some(offered[i].attribution) == s.ledger.attribution)
      && (forall i, j :: 0 <= i < j < |offered| ==>
            !(offered[i].fact == TurnStarted && offered[j].fact == TurnStarted))
      && (s.ledger.attribution.Some? && (forall t :: t in s.callers ==> !s.callers[t].Announcing?) ==> StartOffered(s))
  {
    AgreedInterleave(QUIESCENT, schedule);
  }

  /** A caller offers its own fact while another has set the attribution and not
      yet offered the start. */
  predicate Overtakes(s: Shared, action: Action) {
    && action.Advance? && action.thread in s.callers && s.callers[action.thread].Offering?
    && s.announcer.Some? && s.announcer.value in s.callers && s.callers[s.announcer.value].Announcing?
  }

  predicate NoOvertaking(s: Shared, schedule: seq<Action>)
    decreases |schedule|
  {
    schedule == [] || (!Overtakes(s, schedule[0]) && NoOvertaking(Act(s, schedule[0]), schedule[1..]))
  }

  predicate StartIsFirst(s: Shared) {
    s.ledger.offered != [] ==> s.ledger.offered[0].fact == TurnStarted
  }

  /** Before the start is offered the stream is empty, or something overtook it;
      and what is first stays first. */
  lemma StartIsFirstStep(s: Shared, action: Action)
    requires Agreed(s)
    ensures !StartIsFirst(s) ==> !StartIsFirst(Act(s, action))
    ensures StartIsFirst(s) ==> (StartIsFirst(Act(s, action)) <==> !Overtakes(s, action))
  {
    if action.Advance? && action.thread in s.callers {
      var t := action.thread;
      assert Sound(s, t, s.callers[t]);
      if s.announcer.Some? {
        assert Sound(s, s.announcer.value, s.callers[s.announcer.value]);
      }
    }
  }

  lemma {:induction false} NoOvertakingIff(s: Shared, schedule: seq<Action>)
    requires Agreed(s)
    ensures StartIsFirst(Interleave(s, schedule)) <==> StartIsFirst(s) && NoOvertaking(s, schedule)
    decreases |schedule|
  {
    if schedule != [] {
      AgreedStep(s, schedule[0]);
      StartIsFirstStep(s, schedule[0]);
      NoOvertakingIff(Act(s, schedule[0]), schedule[1..]);
    }
  }

  /** Among concurrent callers the start is the first fact offered exactly in the
      interleavings in which no caller overtakes the one that announces it. */
  lemma StartIsFirstIff(schedule: seq<Action>)
    ensures StartIsFirst(Interleave(QUIESCENT, schedule)) <==> NoOvertaking(QUIESCENT, schedule)
  {
    NoOvertakingIff(QUIESCENT, schedule);
  }

  /** What a caller has to do for a call, and whether it may correlate for it. */
  function JobOf(call: Call): (Job, bool) {
    match call
    case Observe(Usage(Some(total)), _) => (AddTokens(total), true)
    case Observe(ToolResultFacts(facts), _) => (OfferFact(ToolResult(facts)), true)
    case Observe(_, _) => (JustResolve, true)
    case ResolveAttempt(_) => (JustResolve, true)
    case ReportTurnEnded => (OfferEnd, false)
    case ReportQuotaReached => (OfferFact(QuotaReached), false)
  }

  function CorrelationOf(call: Call): Option<Attribution> {
    if call.Observe? || call.ResolveAttempt? then call.correlation else None
  }

  /** The whole of one call by one caller, with nobody in between. */
  function Uninterrupted(t: ThreadId, call: Call): seq<Action> {
    var step := Advance(t, JobOf(call).1, CorrelationOf(call));
    [Enter(t, JobOf(call).0), step, step, step, step, step, step]
  }

  lemma PutTwice(s: Shared, t: ThreadId, first: Location, second: Location)
    ensures Put(Put(s, t, first), t, second) == Put(s, t, second)
  {
    assert s.callers[t := first][t := second] == s.callers[t := second];
  }

  /** A caller with its job, holding the attribution, finishes it in two steps. */
  lemma WorkDone(s: Shared, t: ThreadId, job: Job, held: Attribution, step: Action)
    requires step.Advance? && step.thread == t
    ensures var last := Act(Act(Put(s, t, Working(job, held)), step), step);
      && last.callers == s.callers[t := Idle] && last.announcer == s.announcer
      && last.ledger == (match job
                         case AddTokens(total) => s.ledger.(tokens := SaturatingAdd(s.ledger.tokens, total))
                         case OfferFact(fact) => s.ledger.(offered := s.ledger.offered + [Offer(held, fact)])
                         case OfferEnd =>
                           s.ledger.(offered := s.ledger.offered + [Offer(held, TurnEnded(s.ledger.tokens))])
                         case JustResolve => s.ledger)
  {
  }

  /** Three steps of a caller whose ledger has an attribution. */
  lemma FoundAttribution(s: Shared, t: ThreadId, job: Job, step: Action)
    requires step.Advance? && step.thread == t && s.ledger.attribution.Some?
    ensures Three(Put(s, t, Resolving(job)), step)
            == Act(Act(Put(s, t, Working(job, s.ledger.attribution.value)), step), step)
  {
    PutTwice(s, t, Resolving(job), Working(job, s.ledger.attribution.value));
  }

  /** Three steps of a caller that correlates and sets the attribution. */
  lemma SetsAttribution(s: Shared, t: ThreadId, job: Job, step: Action)
    requires step.Advance? && step.thread == t && step.correlates && step.joined.Some?
    requires s.ledger.attribution.None?
    ensures Three(Put(s, t, Resolving(job)), step)
            == Put(Claimed(s, t, step.joined), t, Announcing(job, step.joined.value))
    ensures Act(Three(Put(s, t, Resolving(job)), step), step)
            == Put(s.(ledger := Attributed(s.ledger, step.joined), announcer := Some(t)), t,
                   Working(job, step.joined.value))
  {
    var joined := step.joined.value;
    PutTwice(s, t, Resolving(job), Correlating(job));
    PutTwice(s, t, Correlating(job), Setting(job, joined));
    var claimed := Claimed(s, t, step.joined);
    PutTwice(claimed, t, Setting(job, joined), Announcing(job, joined));
    PutTwice(s.(ledger := Attributed(s.ledger, step.joined), announcer := Some(t)), t, Announcing(job, joined),
             Working(job, joined));
  }

  function Claimed(s: Shared, t: ThreadId, joined: Option<Attribution>): Shared {
    s.(ledger := s.ledger.(attribution := joined), announcer := Some(t))
  }

  /** Three steps of a caller that finds no attribution and gets none. */
  lemma GoesWithout(s: Shared, t: ThreadId, job: Job, step: Action)
    requires step.Advance? && step.thread == t && !(step.correlates && step.joined.Some?)
    requires s.ledger.attribution.None?
    ensures Three(Put(s, t, Resolving(job)), step) == Put(s, t, Idle)
  {
    PutTwice(s, t, Resolving(job), Correlating(job));
    PutTwice(s, t, Resolving(job), Idle);
    PutTwice(s, t, Correlating(job), Idle);
    StaysIdle(Put(s, t, Idle), t, step);
  }

  lemma StaysIdle(s: Shared, t: ThreadId, step: Action)
    requires step.Advance? && step.thread == t && t in s.callers && s.callers[t].Idle?
    ensures Act(s, step) == s && Three(s, step) == s
  {
  }

  lemma HeldCallIsApply(s: Shared, t: ThreadId, call: Call, step: Action)
    requires s.ledger.attribution.Some? && step == Advance(t, JobOf(call).1, CorrelationOf(call))
    ensures var last := Three(Three(Put(s, t, Resolving(JobOf(call).0)), step), step);
      last.ledger == Apply(s.ledger, call) && last.callers == s.callers[t := Idle]
  {
    var job := JobOf(call).0;
    FoundAttribution(s, t, job, step);
    WorkDone(s, t, job, s.ledger.attribution.value, step);
    StaysIdle(Three(Put(s, t, Resolving(job)), step), t, step);
  }

  lemma FirstCallIsApply(s: Shared, t: ThreadId, call: Call, step: Action)
    requires s.ledger.attribution.None? && step == Advance(t, true, CorrelationOf(call))
    requires JobOf(call).1 && CorrelationOf(call).Some?
    ensures var last := Three(Three(Put(s, t, Resolving(JobOf(call).0)), step), step);
      last.ledger == Apply(s.ledger, call) && last.callers == s.callers[t := Idle]
  {
    var job := JobOf(call).0;
    SetsAttribution(s, t, job, step);
    WorkDone(s.(ledger := Attributed(s.ledger, step.joined), announcer := Some(t)), t, job, step.joined.value, step);
  }

  /** A call nobody interrupts does to the ledger what it does in turn, and its
      caller is idle again: the two descriptions are of the same code. */
  lemma UninterruptedCallIsApply(s: Shared, t: ThreadId, call: Call)
    requires t !in s.callers || s.callers[t].Idle?
    ensures var last := Interleave(s, Uninterrupted(t, call));
      last.ledger == Apply(s.ledger, call) && last.callers == s.callers[t := Idle]
  {
    var (job, correlates) := JobOf(call);
    var step := Advance(t, correlates, CorrelationOf(call));
    var entered := Put(s, t, Resolving(job));
    InterleaveFirst(s, Enter(t, job), [step, step, step, step, step, step]);
    SixSteps(entered, step);
    if s.ledger.attribution.Some? {
      HeldCallIsApply(s, t, call, step);
    } else if correlates && CorrelationOf(call).Some? {
      FirstCallIsApply(s, t, call, step);
    } else {
      GoesWithout(s, t, job, step);
      StaysIdle(Put(s, t, Idle), t, step);
    }
  }

  function Three(s: Shared, step: Action): Shared {
    Act(Act(Act(s, step), step), step)
  }

  lemma SixSteps(s: Shared, step: Action)
    ensures Interleave(s, [step, step, step, step, step, step]) == Three(Three(s, step), step)
  {
    ThreeSteps(s, step, [step, step, step]);
    assert [step, step, step] + [step, step, step] == [step, step, step, step, step, step];
    ThreeSteps(Three(s, step), step, []);
    assert [step, step, step] + [] == [step, step, step];
  }

  lemma ThreeSteps(s: Shared, step: Action, rest: seq<Action>)
    ensures Interleave(s, [step, step, step] + rest) == Interleave(Three(s, step), rest)
  {
    InterleaveFirst(Act(Act(s, step), step), step, rest);
    InterleaveFirst(Act(s, step), step, [step] + rest);
    InterleaveFirst(s, step, [step] + ([step] + rest));
    assert [step, step, step] + rest == [step] + ([step] + ([step] + rest));
  }

  lemma InterleaveFirst(s: Shared, action: Action, rest: seq<Action>)
    ensures Interleave(s, [action] + rest) == Interleave(Act(s, action), rest)
  {
    assert ([action] + rest)[1..] == rest;
  }

  /** One caller sets the attribution; before it offers the start, another finds
      the attribution set and offers its own fact. */
  function Overtaking(a: Attribution): seq<Action> {
    [Enter(1, JustResolve), Advance(1, true, None), Advance(1, true, Some(a)), Advance(1, true, None)] + Overtaken()
  }

  function Overtaken(): seq<Action> {
    [Enter(2, OfferFact(ToolResult(7))), Advance(2, true, None), Advance(2, true, None), Advance(2, true, None),
     Advance(1, true, None)]
  }

  lemma FirstCallerSets(a: Attribution)
    ensures Interleave(QUIESCENT, Overtaking(a))
            == Interleave(Shared(Ledger(Some(a), 0, []), map[1 := Announcing(JustResolve, a)], Some(1)), Overtaken())
  {
    var s := QUIESCENT;
    InterleaveFirst(s, Enter(1, JustResolve), Overtaking(a)[1..]);
    s := Act(s, Enter(1, JustResolve));
    assert s == Shared(FRESH, map[1 := Resolving(JustResolve)], None);
    InterleaveFirst(s, Advance(1, true, None), Overtaking(a)[2..]);
    s := Act(s, Advance(1, true, None));
    assert s == Shared(FRESH, map[1 := Correlating(JustResolve)], None);
    InterleaveFirst(s, Advance(1, true, Some(a)), Overtaking(a)[3..]);
    s := Act(s, Advance(1, true, Some(a)));
    assert s == Shared(FRESH, map[1 := Setting(JustResolve, a)], None);
    InterleaveFirst(s, Advance(1, true, None), Overtaken());
    assert Overtaking(a)[3..] == [Advance(1, true, None)] + Overtaken();
    assert Act(s, Advance(1, true, None))
           == Shared(Ledger(Some(a), 0, []), map[1 := Announcing(JustResolve, a)], Some(1));
  }

  /** Among concurrent callers the start need not come first: the mutex is
      released between setting the attribution and offering it. */
  lemma StartMayComeSecond(a: Attribution)
    ensures Interleave(QUIESCENT, Overtaking(a)).ledger.offered == [Offer(a, ToolResult(7)), Offer(a, TurnStarted)]
  {
    FirstCallerSets(a);
    var first := Announcing(JustResolve, a);
    var job := OfferFact(ToolResult(7));
    var s := Shared(Ledger(Some(a), 0, []), map[1 := first], Some(1));
    InterleaveFirst(s, Enter(2, job), Overtaken()[1..]);
    s := Act(s, Enter(2, job));
    assert s == Shared(Ledger(Some(a), 0, []), map[1 := first, 2 := Resolving(job)], Some(1));
    InterleaveFirst(s, Advance(2, true, None), Overtaken()[2..]);
    s := Act(s, Advance(2, true, None));
    assert s == Shared(Ledger(Some(a), 0, []), map[1 := first, 2 := Working(job, a)], Some(1));
    InterleaveFirst(s, Advance(2, true, None), Overtaken()[3..]);
    s := Act(s, Advance(2, true, None));
    assert s == Shared(Ledger(Some(a), 0, []), map[1 := first, 2 := Offering(ToolResult(7), a)], Some(1));
    InterleaveFirst(s, Advance(2, true, None), Overtaken()[4..]);
    s := Act(s, Advance(2, true, None));
    assert s == Shared(Ledger(Some(a), 0, [Offer(a, ToolResult(7))]), map[1 := first, 2 := Idle], Some(1));
    InterleaveFirst(s, Advance(1, true, None), []);
    assert Act(s, Advance(1, true, None)).ledger.offered == [Offer(a, ToolResult(7)), Offer(a, TurnStarted)];
  }
}
