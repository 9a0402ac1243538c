/**
  The bounded publish channel of agens-bus: many publishers, one receiver, a
  publication mutex taken with try_lock, a shared ordinal counter and a
  monotone close flag.

  Every shared access of `publish` is one location of a publisher, and a
  schedule is any sequence of actions, so a theorem about `Run` is a theorem
  about every interleaving. An action that is not enabled changes nothing.
  Atomics are read as sequentially consistent and the ordinal does not wrap.
*/
module Bus {
  import opened Wrappers

  type ThreadId = nat
  type Token = nat

  datatype Envelope<T> = Envelope(ordinal: nat, event: T)

  datatype Outcome =
    | Published(ordinal: nat)
    | Cancelled
    | DeadlineExpired
    | Disconnected
    | Closed

  /** The arguments of one call of `publish`. */
  datatype Call<T> = Call(event: T, cancellation: Token, deadline: Option<nat>)

  /** Where a publisher stands. The locations from TakeOrdinal on, Return
      excepted, are the ones inside the publication guard's scope. */
  datatype Location =
    | Idle
    | OrderClosed | OrderCancel | OrderDeadline | OrderLock | OrderWait
    | RefusedClosed | RefusedCancel | RefusedDeadline | RefusedFallback
    | Return(outcome: Outcome)
    | TakeOrdinal
    | SendClosed(ordinal: nat) | SendCancel(ordinal: nat) | SendDeadline(ordinal: nat)
    | TrySend(ordinal: nat) | SendWait(ordinal: nat)
    | Release(outcome: Outcome)

  /** One thread: the calls it has made, and the outcomes of those that returned. */
  datatype Publisher<T> = Publisher(at: Location, calls: seq<Call<T>>, outcomes: seq<Outcome>)

  /** One successful try_send: which call of which thread put what on the queue. */
  datatype Send<T> = Send(thread: ThreadId, call: nat, envelope: Envelope<T>)

  /** `sends`, `received`, `discarded` and `abandoned` record the history of a
      run; no step reads them. `discarded` is what the receiver left behind. */
  datatype Bridge<T> = Bridge(
    capacity: nat,
    closed: bool,
    nextOrdinal: nat,
    owner: Option<ThreadId>,
    queue: seq<Envelope<T>>,
    connected: bool,
    cancelled: set<Token>,
    now: nat,
    publishers: map<ThreadId, Publisher<T>>,
    received: seq<Envelope<T>>,
    discarded: seq<Envelope<T>>,
    sends: seq<Send<T>>,
    abandoned: nat)

  datatype Action<T> =
    | Begin(thread: ThreadId, call: Call<T>)
    | Step(thread: ThreadId)
    | Close
    | Cancel(token: Token)
    | Tick
    | Receive
    | DropReceiver

  function Initial<T>(capacity: nat): Bridge<T> {
    Bridge(capacity, false, 0, None, [], true, {}, 0, map[], [], [], [], 0)
  }

  predicate Critical(at: Location) {
    at.TakeOrdinal? || Carries(at) || at.Release?
  }

  /** The locations at which an ordinal has been taken and not yet settled. */
  predicate Carries(at: Location) {
    at.SendClosed? || at.SendCancel? || at.SendDeadline? || at.TrySend? || at.SendWait?
  }

  predicate Expired<T>(call: Call<T>, now: nat) {
    call.deadline.Some? && now >= call.deadline.value
  }

  predicate Busy<T>(s: Bridge<T>, t: ThreadId) {
    && t in s.publishers
    && !s.publishers[t].at.Idle?
    && |s.publishers[t].calls| == |s.publishers[t].outcomes| + 1
  }

  function Current<T>(p: Publisher<T>): Call<T>
    requires |p.outcomes| < |p.calls|
  {
    p.calls[|p.outcomes|]
  }

  /** What one shared access of a publisher does to the bridge. */
  datatype Effect = Look | Acquire | Take | Put(ordinal: nat) | Abandon | Unlock

  /** One shared access of `publish`, `wait_for_source_order` or
      `unavailable_outcome` at location `at` of thread `t`: its effect, and where
      it leads. Both waits only come back to the head of their loop. */
  function Access<T>(s: Bridge<T>, call: Call<T>, at: Location): (Effect, Location) {
    match at
    case Idle => (Look, Idle)
    case OrderClosed => (Look, if s.closed then RefusedClosed else OrderCancel)
    case OrderCancel => (Look, if call.cancellation in s.cancelled then RefusedClosed else OrderDeadline)
    case OrderDeadline => (Look, if Expired(call, s.now) then RefusedClosed else OrderLock)
    case OrderLock => if s.owner.None? then (Acquire, TakeOrdinal) else (Look, OrderWait)
    case OrderWait => (Look, OrderClosed)
    case RefusedClosed => (Look, if s.closed then Return(Closed) else RefusedCancel)
    case RefusedCancel =>
      (Look, if call.cancellation in s.cancelled then Return(Cancelled) else RefusedDeadline)
    case RefusedDeadline =>
      (Look, if Expired(call, s.now) then Return(DeadlineExpired) else RefusedFallback)
    case RefusedFallback => (Look, Return(Closed))
    case Return(_) => (Look, Idle)
    case TakeOrdinal => (Take, SendClosed(s.nextOrdinal))
    case SendClosed(n) => if s.closed then (Abandon, Release(Closed)) else (Look, SendCancel(n))
    case SendCancel(n) =>
      if call.cancellation in s.cancelled then (Abandon, Release(Cancelled)) else (Look, SendDeadline(n))
    case SendDeadline(n) =>
      if Expired(call, s.now) then (Abandon, Release(DeadlineExpired)) else (Look, TrySend(n))
    case TrySend(n) =>
      if !s.connected then (Abandon, Release(Disconnected))
      else if |s.queue| < s.capacity then (Put(n), Release(Published(n)))
      else (Look, SendWait(n))
    case SendWait(n) => (Look, SendClosed(n))
    case Release(_) => (Unlock, Idle)
  }

  /** The publisher after an access that leads to `next`: reaching Idle is
      returning from the call. */
  function Moved<T>(p: Publisher<T>, next: Location): Publisher<T> {
    if p.at.Return? || p.at.Release? then p.(at := next, outcomes := p.outcomes + [p.at.outcome])
    else p.(at := next)
  }

  function Perform<T>(s: Bridge<T>, t: ThreadId, effect: Effect): Bridge<T>
    requires Busy(s, t)
  {
    match effect
    case Look => s
    case Acquire => s.(owner := Some(t))
    case Take => s.(nextOrdinal := s.nextOrdinal + 1)
    case Put(n) =>
      var p := s.publishers[t];
      var envelope := Envelope(n, Current(p).event);
      s.(queue := s.queue + [envelope], sends := s.sends + [Send(t, |p.outcomes|, envelope)])
    case Abandon => s.(abandoned := s.abandoned + 1)
    case Unlock => s.(owner := None)
  }

  function Advance<T>(s: Bridge<T>, t: ThreadId): Bridge<T>
    requires Busy(s, t)
  {
    var p := s.publishers[t];
    var (effect, next) := Access(s, Current(p), p.at);
    Perform(s, t, effect).(publishers := s.publishers[t := Moved(p, next)])
  }

  function Begun<T>(s: Bridge<T>, t: ThreadId, call: Call<T>): Bridge<T> {
    if t !in s.publishers then
      s.(publishers := s.publishers[t := Publisher(OrderClosed, [call], [])])
    else if s.publishers[t].at.Idle? then
      var p := s.publishers[t];
      s.(publishers := s.publishers[t := p.(at := OrderClosed, calls := p.calls + [call])])
    else
      s
  }

  function Apply<T>(s: Bridge<T>, action: Action<T>): Bridge<T> {
    match action
    case Begin(t, call) => Begun(s, t, call)
    case Step(t) => if Busy(s, t) then Advance(s, t) else s
    case Close => s.(closed := true)
    case Cancel(token) => s.(cancelled := s.cancelled + {token})
    case Tick => s.(now := s.now + 1)
    case Receive =>
      if s.connected && s.queue != [] then
        s.(queue := s.queue[1..], received := s.received + [s.queue[0]])
      else s
    case DropReceiver =>
      if s.connected then s.(connected := false, queue := [], discarded := s.queue) else s
  }

  function Run<T>(s: Bridge<T>, schedule: seq<Action<T>>): Bridge<T>
    decreases |schedule|
  {
    if schedule == [] then s else Run(Apply(s, schedule[0]), schedule[1..])
  }

  // ---------------------------------------------------------------- invariants

  /** Everything the receiver has taken or can still take, in order. */
  function Accepted<T>(s: Bridge<T>): seq<Envelope<T>> {
    s.received + s.queue
  }

  ghost predicate Increasing<T>(envelopes: seq<Envelope<T>>) {
    forall i, j :: 0 <= i < j < |envelopes| ==> envelopes[i].ordinal < envelopes[j].ordinal
  }

  /** The channel is a bounded FIFO that holds exactly what was sent. */
  ghost predicate Channel<T>(s: Bridge<T>) {
    && |s.queue| <= s.capacity
    && (if s.connected then s.discarded == [] else s.queue == [])
    && |s.sends| == |s.received| + |s.queue| + |s.discarded|
    && forall i :: 0 <= i < |s.sends| ==>
         s.sends[i].envelope == (s.received + s.queue + s.discarded)[i]
  }

  /** One thread against the lock: it is inside the guard's scope exactly when
      it owns the lock, and its calls return in turn. */
  ghost predicate Placed<T>(owner: Option<ThreadId>, t: ThreadId, p: Publisher<T>) {
    && (Critical(p.at) <==> owner == Some(t))
    && |p.calls| == |p.outcomes| + if p.at.Idle? then 0 else 1
  }

  ghost predicate Exclusion<T>(s: Bridge<T>) {
    && (forall t :: t in s.publishers ==> Placed(s.owner, t, s.publishers[t]))
    && (s.owner.Some? ==> s.owner.value in s.publishers)
  }

  function InFlight<T>(s: Bridge<T>): nat {
    if s.owner.Some? && s.owner.value in s.publishers && Carries(s.publishers[s.owner.value].at) then 1 else 0
  }

  /** Ordinals are sent in the order they are taken, and none is lost count of. */
  ghost predicate Ordering<T>(s: Bridge<T>) {
    && s.nextOrdinal == |s.sends| + s.abandoned + InFlight(s)
    && (forall i :: 0 <= i < |s.sends| ==> s.sends[i].envelope.ordinal < s.nextOrdinal - InFlight(s))
    && (forall i, j :: 0 <= i < j < |s.sends| ==> s.sends[i].envelope.ordinal < s.sends[j].envelope.ordinal)
    && (InFlight(s) == 1 ==> s.publishers[s.owner.value].at.ordinal == s.nextOrdinal - 1)
  }

  ghost predicate Sent<T>(sends: seq<Send<T>>, t: ThreadId, call: nat, ordinal: nat) {
    exists i :: 0 <= i < |sends| && sends[i].thread == t && sends[i].call == call
                && sends[i].envelope.ordinal == ordinal
  }

  /** The sends of thread `t` are exactly its calls that returned Published, or
      are about to, in the order they were made. */
  ghost predicate Accounted<T>(sends: seq<Send<T>>, t: ThreadId, p: Publisher<T>) {
    && |p.outcomes| <= |p.calls|
    && (p.at.Release? ==> |p.outcomes| < |p.calls|)
    && (forall i :: 0 <= i < |sends| && sends[i].thread == t ==> Owned(sends[i], p))
    && (forall c :: 0 <= c < |p.outcomes| && p.outcomes[c].Published? ==>
          Sent(sends, t, c, p.outcomes[c].ordinal))
    && (p.at.Release? && p.at.outcome.Published? ==> Sent(sends, t, |p.outcomes|, p.at.outcome.ordinal))
    && (p.at.Return? ==> !p.at.outcome.Published?)
  }

  ghost predicate Owned<T>(e: Send<T>, p: Publisher<T>) {
    && e.call < |p.calls|
    && e.envelope.event == p.calls[e.call].event
    && (if e.call < |p.outcomes| then p.outcomes[e.call] == Published(e.envelope.ordinal)
        else e.call == |p.outcomes| && p.at == Release(Published(e.envelope.ordinal)))
  }

  ghost predicate Attribution<T>(s: Bridge<T>) {
    && (forall t :: t in s.publishers ==> Accounted(s.sends, t, s.publishers[t]))
    && (forall i :: 0 <= i < |s.sends| ==> s.sends[i].thread in s.publishers)
    && (forall i, j :: 0 <= i < j < |s.sends| && s.sends[i].thread == s.sends[j].thread ==>
          s.sends[i].call < s.sends[j].call)
  }

  /** The outcome names something that is the case. */
  ghost predicate Honest<T>(s: Bridge<T>, call: Call<T>, outcome: Outcome) {
    match outcome
    case Published(_) => true
    case Cancelled => call.cancellation in s.cancelled
    case DeadlineExpired => Expired(call, s.now)
    case Disconnected => !s.connected
    case Closed => s.closed
  }

  /** What a refusal already established still holds when its outcome is computed. */
  ghost predicate Refusable<T>(s: Bridge<T>, call: Call<T>, at: Location) {
    match at
    case RefusedClosed => s.closed || call.cancellation in s.cancelled || Expired(call, s.now)
    case RefusedCancel => call.cancellation in s.cancelled || Expired(call, s.now)
    case RefusedDeadline => Expired(call, s.now)
    case RefusedFallback => false
    case Return(outcome) => Honest(s, call, outcome)
    case Release(outcome) => Honest(s, call, outcome)
    case _ => true
  }

  ghost predicate Candid<T>(s: Bridge<T>, p: Publisher<T>) {
    && |p.outcomes| <= |p.calls|
    && (forall c :: 0 <= c < |p.outcomes| ==> Honest(s, p.calls[c], p.outcomes[c]))
    && (|p.outcomes| < |p.calls| ==> Refusable(s, Current(p), p.at))
  }

  ghost predicate Honesty<T>(s: Bridge<T>) {
    forall t :: t in s.publishers ==> Candid(s, s.publishers[t])
  }

  ghost predicate Inv<T>(s: Bridge<T>) {
    Channel(s) && Exclusion(s) && Ordering(s) && Attribution(s) && Honesty(s)
  }

  /** The thread an action belongs to, if it is a publisher's. */
  ghost predicate ActedBy<T>(action: Action<T>, t: ThreadId) {
    (action.Step? || action.Begin?) && action.thread == t
  }

  lemma Frame<T>(s: Bridge<T>, action: Action<T>)
    ensures var s' := Apply(s, action);
      && (s.closed ==> s'.closed) && s.cancelled <= s'.cancelled && s.now <= s'.now
      && (s'.connected ==> s.connected) && s.nextOrdinal <= s'.nextOrdinal
      && (forall u :: u in s.publishers ==> u in s'.publishers)
      && (forall u :: u in s'.publishers && !ActedBy(action, u) ==>
            u in s.publishers && s'.publishers[u] == s.publishers[u])
  {
    if action.Step? && Busy(s, action.thread) {
      assert Advance(s, action.thread).publishers.Keys == s.publishers.Keys;
    }
  }

  /** Of a publisher's effects only the put touches the channel. */
  lemma ChannelPerform<T>(s: Bridge<T>, t: ThreadId, effect: Effect)
    requires Channel(s) && Busy(s, t) && (effect.Put? ==> s.connected && |s.queue| < s.capacity)
    ensures Channel(Perform(s, t, effect))
  {
  }

  lemma ChannelAdvance<T>(s: Bridge<T>, t: ThreadId)
    requires Channel(s) && Busy(s, t)
    ensures Channel(Advance(s, t))
  {
    var p := s.publishers[t];
    ChannelPerform(s, t, Access(s, Current(p), p.at).0);
  }

  lemma ChannelStep<T>(s: Bridge<T>, action: Action<T>)
    requires Channel(s)
    ensures Channel(Apply(s, action))
  {
    if action.Step? && Busy(s, action.thread) {
      ChannelAdvance(s, action.thread);
    }
  }

  /** Only Acquire enters the guard's scope and only Unlock leaves it. */
  lemma AccessScope<T>(s: Bridge<T>, call: Call<T>, at: Location)
    requires !at.Idle?
    ensures var (effect, next) := Access(s, call, at);
      && (effect == Acquire ==> s.owner.None? && !Critical(at) && Critical(next) && !Carries(next))
      && (effect == Unlock ==> at.Release?)
      && (effect != Acquire && effect != Unlock ==> (Critical(next) <==> Critical(at)))
      && (next.Idle? <==> at.Return? || at.Release?)
      && (at.Release? ==> effect == Unlock)
  {
  }

  /** An ordinal is carried from Take to Put or Abandon and nowhere else. */
  lemma AccessCarries<T>(s: Bridge<T>, call: Call<T>, at: Location)
    ensures var (effect, next) := Access(s, call, at);
      && (effect == Take ==> Critical(at) && !Carries(at) && next == SendClosed(s.nextOrdinal))
      && (effect.Put? || effect == Abandon ==> Carries(at) && next.Release?)
      && (effect.Put? ==> effect.ordinal == at.ordinal && next.outcome == Published(at.ordinal))
      && (effect == Abandon ==> !next.outcome.Published?)
      && (effect != Take && !effect.Put? && effect != Abandon ==> (Carries(at) <==> Carries(next)))
      && (Carries(at) && Carries(next) ==> at.ordinal == next.ordinal)
  {
  }

  lemma ExclusionStep<T>(s: Bridge<T>, action: Action<T>)
    requires Exclusion(s)
    ensures Exclusion(Apply(s, action))
  {
    if action.Step? && Busy(s, action.thread) {
      ExclusionAdvance(s, action.thread);
    }
  }

  lemma ExclusionAdvance<T>(s: Bridge<T>, t: ThreadId)
    requires Exclusion(s) && Busy(s, t)
    ensures Exclusion(Advance(s, t))
  {
    var p := s.publishers[t];
    assert Placed(s.owner, t, p);
    AccessScope(s, Current(p), p.at);
    var s' := Advance(s, t);
    forall u | u in s'.publishers
      ensures Placed(s'.owner, u, s'.publishers[u])
    {
      if u != t {
        assert Placed(s.owner, u, s.publishers[u]);
      }
    }
  }

  lemma OrderingAdvance<T>(s: Bridge<T>, t: ThreadId)
    requires Exclusion(s) && Ordering(s) && Busy(s, t)
    ensures Ordering(Advance(s, t))
  {
    var p := s.publishers[t];
    assert Placed(s.owner, t, p);
    AccessScope(s, Current(p), p.at);
    AccessCarries(s, Current(p), p.at);
  }

  lemma CandidMonotone<T>(s: Bridge<T>, s': Bridge<T>, p: Publisher<T>)
    requires Candid(s, p)
    requires (s.closed ==> s'.closed) && s.cancelled <= s'.cancelled && s.now <= s'.now
    requires s'.connected ==> s.connected
    ensures Candid(s', p)
  {
  }

  /** An access keeps what a refusal established, and returns an honest outcome. */
  lemma AccessRefuses<T>(s: Bridge<T>, call: Call<T>, at: Location)
    requires !at.Idle? && Refusable(s, call, at)
    ensures var next := Access(s, call, at).1;
      && Refusable(s, call, next)
      && (next.Idle? ==> Honest(s, call, at.outcome))
  {
  }

  lemma CandidMoved<T>(s: Bridge<T>, p: Publisher<T>, next: Location)
    requires Candid(s, p) && |p.calls| == |p.outcomes| + 1 && !p.at.Idle?
    requires next.Idle? <==> p.at.Return? || p.at.Release?
    requires Refusable(s, Current(p), next) && (next.Idle? ==> Honest(s, Current(p), p.at.outcome))
    ensures Candid(s, Moved(p, next))
  {
  }

  lemma PerformKeepsCauses<T>(s: Bridge<T>, t: ThreadId, effect: Effect)
    requires Busy(s, t)
    ensures var s' := Perform(s, t, effect);
      s'.closed == s.closed && s'.cancelled == s.cancelled && s'.now == s.now && s'.connected == s.connected
  {
  }

  lemma CandidAdvance<T>(s: Bridge<T>, t: ThreadId)
    requires Busy(s, t) && Candid(s, s.publishers[t])
    ensures Candid(Advance(s, t), Advance(s, t).publishers[t])
  {
    var p := s.publishers[t];
    var (effect, next) := Access(s, Current(p), p.at);
    AccessRefuses(s, Current(p), p.at);
    AccessScope(s, Current(p), p.at);
    CandidMoved(s, p, next);
    PerformKeepsCauses(s, t, effect);
    CandidMonotone(s, Advance(s, t), Moved(p, next));
  }

  lemma OrderingStep<T>(s: Bridge<T>, action: Action<T>)
    requires Exclusion(s) && Ordering(s)
    ensures Ordering(Apply(s, action))
  {
    if action.Step? && Busy(s, action.thread) {
      OrderingAdvance(s, action.thread);
    } else if action.Begin? {
      assert action.thread in s.publishers ==> Placed(s.owner, action.thread, s.publishers[action.thread]);
    }
  }

  lemma HonestyStep<T>(s: Bridge<T>, action: Action<T>)
    requires Exclusion(s) && Honesty(s)
    ensures Honesty(Apply(s, action))
  {
    Frame(s, action);
    var s' := Apply(s, action);
    forall u | u in s'.publishers
      ensures Candid(s', s'.publishers[u])
    {
      if action == Step(u) && Busy(s, u) {
        CandidAdvance(s, u);
      } else if u in s.publishers {
        assert Placed(s.owner, u, s.publishers[u]);
        CandidMonotone(s, s', s.publishers[u]);
      }
    }
  }

  /** Sends of other threads do not touch this one's account. */
  lemma AccountedFrame<T>(sends: seq<Send<T>>, e: Send<T>, t: ThreadId, p: Publisher<T>)
    requires Accounted(sends, t, p) && e.thread != t
    ensures Accounted(sends + [e], t, p)
  {
    forall call, ordinal | Sent(sends, t, call, ordinal)
      ensures Sent(sends + [e], t, call, ordinal)
    {
      SentGrows(sends, e, t, call, ordinal);
    }
  }

  lemma SentGrows<T>(sends: seq<Send<T>>, e: Send<T>, t: ThreadId, call: nat, ordinal: nat)
    requires Sent(sends, t, call, ordinal)
    ensures Sent(sends + [e], t, call, ordinal)
  {
    var i :| 0 <= i < |sends| && sends[i].thread == t && sends[i].call == call
             && sends[i].envelope.ordinal == ordinal;
    assert (sends + [e])[i] == sends[i];
  }

  lemma AccountedAdvance<T>(s: Bridge<T>, t: ThreadId)
    requires Busy(s, t) && Accounted(s.sends, t, s.publishers[t])
    ensures Accounted(Advance(s, t).sends, t, Advance(s, t).publishers[t])
    ensures forall i :: 0 <= i < |s.sends| && s.sends[i].thread == t && |Advance(s, t).sends| > |s.sends| ==>
              s.sends[i].call < |s.publishers[t].outcomes|
  {
    var p := s.publishers[t];
    AccessScope(s, Current(p), p.at);
    AccessCarries(s, Current(p), p.at);
    var s' := Advance(s, t);
    if |s'.sends| > |s.sends| {
      var e := s'.sends[|s.sends|];
      forall call, ordinal | Sent(s.sends, t, call, ordinal)
        ensures Sent(s'.sends, t, call, ordinal)
      {
        SentGrows(s.sends, e, t, call, ordinal);
      }
      assert s'.sends[|s.sends|].thread == t;
    }
  }

  /** Whatever thread `t` does to its own account, the others' stay as they were. */
  lemma AttributionUpdate<T>(s: Bridge<T>, s': Bridge<T>, t: ThreadId, p: Publisher<T>)
    requires Attribution(s) && t in s.publishers
    requires s'.publishers == s.publishers[t := p] && Accounted(s'.sends, t, p)
    requires s'.sends == s.sends
             || (|s'.sends| > |s.sends| && s'.sends == s.sends + [s'.sends[|s.sends|]]
                 && s'.sends[|s.sends|].thread == t
                 && forall i :: 0 <= i < |s.sends| && s.sends[i].thread == t ==>
                      s.sends[i].call < s'.sends[|s.sends|].call)
    ensures Attribution(s')
  {
    forall u | u in s'.publishers
      ensures Accounted(s'.sends, u, s'.publishers[u])
    {
      if u != t && s'.sends != s.sends {
        AccountedFrame(s.sends, s'.sends[|s.sends|], u, s.publishers[u]);
      }
    }
  }

  lemma AttributionAdvance<T>(s: Bridge<T>, t: ThreadId)
    requires Attribution(s) && Busy(s, t)
    ensures Attribution(Advance(s, t))
  {
    assert Accounted(s.sends, t, s.publishers[t]);
    AccountedAdvance(s, t);
    AttributionUpdate(s, Advance(s, t), t, Advance(s, t).publishers[t]);
  }

  lemma AttributionBegin<T>(s: Bridge<T>, t: ThreadId, call: Call<T>)
    requires Exclusion(s) && Attribution(s)
    ensures Attribution(Begun(s, t, call))
  {
    var s' := Begun(s, t, call);
    forall u | u in s'.publishers
      ensures Accounted(s'.sends, u, s'.publishers[u])
    {
      if u in s.publishers {
        assert Accounted(s.sends, u, s.publishers[u]);
        assert Placed(s.owner, u, s.publishers[u]);
      }
    }
  }

  lemma AttributionStep<T>(s: Bridge<T>, action: Action<T>)
    requires Exclusion(s) && Attribution(s)
    ensures Attribution(Apply(s, action))
  {
    if action.Step? && Busy(s, action.thread) {
      AttributionAdvance(s, action.thread);
    } else if action.Begin? {
      AttributionBegin(s, action.thread, action.call);
    }
  }

  // ------------------------------------------------------------ whole runs

  lemma {:induction false} InvRun<T>(s: Bridge<T>, schedule: seq<Action<T>>)
    requires Inv(s)
    ensures Inv(Run(s, schedule))
    decreases |schedule|
  {
    if schedule != [] {
      ChannelStep(s, schedule[0]);
      ExclusionStep(s, schedule[0]);
      OrderingStep(s, schedule[0]);
      AttributionStep(s, schedule[0]);
      HonestyStep(s, schedule[0]);
      InvRun(Apply(s, schedule[0]), schedule[1..]);
    }
  }

  lemma Reachable<T>(capacity: nat, schedule: seq<Action<T>>)
    ensures Inv(Run(Initial<T>(capacity), schedule))
  {
    InvRun(Initial<T>(capacity), schedule);
  }

  /** What was received and what is still queued carry strictly increasing
      ordinals; no call is enqueued twice, and one thread's calls keep their order. */
  lemma OrderedDelivery<T>(capacity: nat, schedule: seq<Action<T>>)
    ensures var s := Run(Initial<T>(capacity), schedule);
      && Increasing(Accepted(s))
      && (forall i, j :: 0 <= i < j < |s.sends| && s.sends[i].thread == s.sends[j].thread ==>
            s.sends[i].call < s.sends[j].call)
      && (forall i :: 0 <= i < |Accepted(s)| ==> i < |s.sends| && s.sends[i].envelope == Accepted(s)[i])
  {
    Reachable(capacity, schedule);
    var s := Run(Initial<T>(capacity), schedule);
    forall i | 0 <= i < |Accepted(s)|
      ensures i < |s.sends| && s.sends[i].envelope == Accepted(s)[i]
    {
      assert (s.received + s.queue + s.discarded)[i] == Accepted(s)[i];
    }
  }

  /** A call returned Published{n} exactly when its envelope was enqueued under
      n; every other outcome enqueued nothing and names a cause that holds. An
      envelope whose call has not returned belongs to a call about to. */
  lemma HonestOutcomes<T>(capacity: nat, schedule: seq<Action<T>>, t: ThreadId, c: nat, n: nat)
    requires t in Run(Initial<T>(capacity), schedule).publishers
    ensures var s := Run(Initial<T>(capacity), schedule); var p := s.publishers[t];
      && |p.outcomes| <= |p.calls|
      && (c < |p.outcomes| ==>
            && Honest(s, p.calls[c], p.outcomes[c])
            && (p.outcomes[c] == Published(n) <==> Sent(s.sends, t, c, n)))
      && (c >= |p.outcomes| && Sent(s.sends, t, c, n) ==>
            c == |p.outcomes| && p.at == Release(Published(n)))
  {
    Reachable(capacity, schedule);
    var s := Run(Initial<T>(capacity), schedule);
    assert Accounted(s.sends, t, s.publishers[t]);
    assert Candid(s, s.publishers[t]);
  }

  /** Every ordinal taken was sent, abandoned, or is in flight under the lock;
      the queue stays within its bound, and the outcome of a refusal is never
      the fallback. */
  lemma Conservation<T>(capacity: nat, schedule: seq<Action<T>>)
    ensures var s := Run(Initial<T>(capacity), schedule);
      && s.nextOrdinal == |s.sends| + s.abandoned + InFlight(s)
      && |s.queue| <= capacity
      && |s.sends| == |s.received| + |s.queue| + |s.discarded|
      && (forall t, u :: (t in s.publishers && u in s.publishers
            && Critical(s.publishers[t].at) && Critical(s.publishers[u].at)) ==> t == u)
      && (forall t :: t in s.publishers ==> s.publishers[t].at != RefusedFallback)
  {
    Reachable(capacity, schedule);
    CapacityFixed(Initial<T>(capacity), schedule);
    var s := Run(Initial<T>(capacity), schedule);
    forall t | t in s.publishers
      ensures s.publishers[t].at != RefusedFallback
    {
      assert Placed(s.owner, t, s.publishers[t]);
      assert Candid(s, s.publishers[t]);
    }
    forall t, u | t in s.publishers && u in s.publishers && Critical(s.publishers[t].at) && Critical(s.publishers[u].at)
      ensures t == u
    {
      assert Placed(s.owner, t, s.publishers[t]) && Placed(s.owner, u, s.publishers[u]);
    }
  }

  lemma {:induction false} CapacityFixed<T>(s: Bridge<T>, schedule: seq<Action<T>>)
    ensures Run(s, schedule).capacity == s.capacity
    decreases |schedule|
  {
    if schedule != [] {
      CapacityFixed(Apply(s, schedule[0]), schedule[1..]);
    }
  }

  // ------------------------------------------------------- what actions leave

  ghost predicate Closes<T>(schedule: seq<Action<T>>) {
    exists i :: 0 <= i < |schedule| && schedule[i].Close?
  }

  ghost predicate Cancels<T>(schedule: seq<Action<T>>, token: Token) {
    exists i :: 0 <= i < |schedule| && schedule[i].Cancel? && schedule[i].token == token
  }

  ghost predicate DropsReceiver<T>(schedule: seq<Action<T>>) {
    exists i :: 0 <= i < |schedule| && schedule[i].DropReceiver?
  }

  function Ticks<T>(schedule: seq<Action<T>>): nat {
    if schedule == [] then 0 else (if schedule[0].Tick? then 1 else 0) + Ticks(schedule[1..])
  }

  /** One more action at the head of a schedule. */
  lemma HistoryCons<T>(schedule: seq<Action<T>>, token: Token)
    requires schedule != []
    ensures Closes(schedule) <==> schedule[0].Close? || Closes(schedule[1..])
    ensures Cancels(schedule, token) <==>
      (schedule[0].Cancel? && schedule[0].token == token) || Cancels(schedule[1..], token)
    ensures DropsReceiver(schedule) <==> schedule[0].DropReceiver? || DropsReceiver(schedule[1..])
  {
    var rest := schedule[1..];
    assert forall i :: 0 < i < |schedule| ==> schedule[i] == rest[i - 1];
    assert forall i :: 0 <= i < |rest| ==> rest[i] == schedule[i + 1];
  }

  lemma StateAfterOne<T>(s: Bridge<T>, action: Action<T>, token: Token)
    ensures var s' := Apply(s, action);
      && (s'.closed <==> s.closed || action.Close?)
      && (token in s'.cancelled <==> token in s.cancelled || action == Cancel(token))
      && (s'.connected <==> s.connected && !action.DropReceiver?)
      && s'.now == s.now + if action.Tick? then 1 else 0
  {
  }

  /** The flags and the clock say exactly which actions there have been. */
  lemma {:induction false} StateIsHistory<T>(s: Bridge<T>, schedule: seq<Action<T>>, token: Token)
    ensures var s' := Run(s, schedule);
      && (s'.closed <==> s.closed || Closes(schedule))
      && (token in s'.cancelled <==> token in s.cancelled || Cancels(schedule, token))
      && (s'.connected <==> s.connected && !DropsReceiver(schedule))
      && s'.now == s.now + Ticks(schedule)
    decreases |schedule|
  {
    if schedule != [] {
      HistoryCons(schedule, token);
      StateAfterOne(s, schedule[0], token);
      StateIsHistory(Apply(s, schedule[0]), schedule[1..], token);
    }
  }

  /** Past the closed check of the send loop, with an ordinal still to settle. */
  predicate PastCheck(at: Location) {
    at.SendCancel? || at.SendDeadline? || at.TrySend?
  }

  /** What a closed bridge `s0` leaves possible: nothing more is sent, or one
      send by the publisher that owned the lock and was past its check. */
  ghost predicate SinceClose<T>(s0: Bridge<T>, s: Bridge<T>) {
    && s.closed
    && if |s.sends| == |s0.sends| then
         s.sends == s0.sends
         && forall t :: t in s.publishers && PastCheck(s.publishers[t].at) ==>
              Surviving(s0, t, s.publishers[t].at.ordinal, |s.publishers[t].outcomes|)
       else
         && s.sends != [] && s.sends[..|s.sends| - 1] == s0.sends
         && var last := s.sends[|s.sends| - 1];
         && Surviving(s0, last.thread, last.envelope.ordinal, last.call)
         && forall t :: t in s.publishers ==> !PastCheck(s.publishers[t].at)
  }

  /** In `s0` thread `t` owns the lock, past its closed check, in call `call`. */
  ghost predicate Surviving<T>(s0: Bridge<T>, t: ThreadId, ordinal: nat, call: nat) {
    && s0.owner == Some(t) && t in s0.publishers
    && PastCheck(s0.publishers[t].at)
    && s0.publishers[t].at.ordinal == ordinal
    && |s0.publishers[t].outcomes| == call
  }

  /** On a closed bridge nobody gets past the check that was not past it. */
  lemma AccessWhenClosed<T>(s: Bridge<T>, call: Call<T>, at: Location)
    requires s.closed
    ensures var (effect, next) := Access(s, call, at);
      && (PastCheck(next) ==> PastCheck(at) && next.ordinal == at.ordinal && effect == Look)
      && (effect.Put? ==> PastCheck(at) && effect.ordinal == at.ordinal)
  {
  }

  /** Only the owner of the lock can be past the check. */
  lemma OnePastCheck<T>(s: Bridge<T>, t: ThreadId, u: ThreadId)
    requires Exclusion(s) && t in s.publishers && u in s.publishers
    requires PastCheck(s.publishers[t].at) && PastCheck(s.publishers[u].at)
    ensures t == u
  {
    assert Placed(s.owner, t, s.publishers[t]) && Placed(s.owner, u, s.publishers[u]);
  }

  /** The one send there can be. */
  lemma SinceClosePut<T>(s0: Bridge<T>, s: Bridge<T>, t: ThreadId)
    requires SinceClose(s0, s) && Exclusion(s) && Busy(s, t)
    requires Access(s, Current(s.publishers[t]), s.publishers[t].at).0.Put?
    ensures SinceClose(s0, Advance(s, t))
  {
    var p := s.publishers[t];
    var s' := Advance(s, t);
    AccessWhenClosed(s, Current(p), p.at);
    assert s'.sends[..|s'.sends| - 1] == s.sends;
    forall u | u in s'.publishers
      ensures !PastCheck(s'.publishers[u].at)
    {
      if u != t && PastCheck(s.publishers[u].at) {
        OnePastCheck(s, t, u);
      }
    }
  }

  /** Any other access. */
  lemma SinceCloseOther<T>(s0: Bridge<T>, s: Bridge<T>, t: ThreadId)
    requires SinceClose(s0, s) && Busy(s, t)
    requires !Access(s, Current(s.publishers[t]), s.publishers[t].at).0.Put?
    ensures SinceClose(s0, Advance(s, t))
  {
    var p := s.publishers[t];
    var s' := Advance(s, t);
    AccessWhenClosed(s, Current(p), p.at);
    assert s'.sends == s.sends && s'.closed;
    forall u | u in s'.publishers && PastCheck(s'.publishers[u].at)
      ensures u in s.publishers && PastCheck(s.publishers[u].at)
      ensures s'.publishers[u].at.ordinal == s.publishers[u].at.ordinal
      ensures |s'.publishers[u].outcomes| == |s.publishers[u].outcomes|
    {
    }
  }

  lemma SinceCloseAdvance<T>(s0: Bridge<T>, s: Bridge<T>, t: ThreadId)
    requires SinceClose(s0, s) && Exclusion(s) && Busy(s, t)
    ensures SinceClose(s0, Advance(s, t))
  {
    if Access(s, Current(s.publishers[t]), s.publishers[t].at).0.Put? {
      SinceClosePut(s0, s, t);
    } else {
      SinceCloseOther(s0, s, t);
    }
  }

  lemma SinceCloseStep<T>(s0: Bridge<T>, s: Bridge<T>, action: Action<T>)
    requires SinceClose(s0, s) && Exclusion(s)
    ensures SinceClose(s0, Apply(s, action))
  {
    if action.Step? && Busy(s, action.thread) {
      SinceCloseAdvance(s0, s, action.thread);
    }
  }

  lemma {:induction false} SinceCloseRun<T>(s0: Bridge<T>, s: Bridge<T>, schedule: seq<Action<T>>)
    requires SinceClose(s0, s) && Exclusion(s)
    ensures SinceClose(s0, Run(s, schedule))
    decreases |schedule|
  {
    if schedule != [] {
      SinceCloseStep(s0, s, schedule[0]);
      ExclusionStep(s, schedule[0]);
      SinceCloseRun(s0, Apply(s, schedule[0]), schedule[1..]);
    }
  }

  /** Once closed, at most one more envelope is ever enqueued, whatever happens
      next; if one is, its publisher held the publication lock at the close,
      already past its closed check, with that very ordinal in hand. */
  lemma AtMostOneAfterClose<T>(capacity: nat, before: seq<Action<T>>, after: seq<Action<T>>)
    requires Closes(before)
    ensures var s0 := Run(Initial<T>(capacity), before); var s := Run(s0, after);
      || s.sends == s0.sends
      || (|s.sends| == |s0.sends| + 1 && s.sends[..|s0.sends|] == s0.sends
          && var last := s.sends[|s0.sends|];
          Surviving(s0, last.thread, last.envelope.ordinal, last.call))
  {
    var s0 := Run(Initial<T>(capacity), before);
    var s := Run(s0, after);
    Reachable(capacity, before);
    StateIsHistory(Initial<T>(capacity), before, 0);
    forall t | t in s0.publishers && PastCheck(s0.publishers[t].at)
      ensures Surviving(s0, t, s0.publishers[t].at.ordinal, |s0.publishers[t].outcomes|)
    {
      assert Placed(s0.owner, t, s0.publishers[t]);
    }
    SinceCloseRun(s0, s0, after);
  }

  lemma {:induction false} SendsGrow<T>(s: Bridge<T>, schedule: seq<Action<T>>)
    ensures s.sends <= Run(s, schedule).sends
    decreases |schedule|
  {
    if schedule != [] {
      SendsGrow(Apply(s, schedule[0]), schedule[1..]);
    }
  }

  /** How many calls thread `t` has begun. */
  function CallsBegun<T>(s: Bridge<T>, t: ThreadId): nat {
    if t in s.publishers then |s.publishers[t].calls| else 0
  }

  /** Order across threads: a call that begins when an envelope is already
      enqueued can only be enqueued behind it, under a larger ordinal. */
  lemma LaterCallsComeLater<T>(capacity: nat, before: seq<Action<T>>, after: seq<Action<T>>, i: nat, j: nat)
    requires var s0 := Run(Initial<T>(capacity), before); var s := Run(s0, after);
      i < |s0.sends| && j < |s.sends| && s.sends[j].call >= CallsBegun(s0, s.sends[j].thread)
    ensures var s0 := Run(Initial<T>(capacity), before); var s := Run(s0, after);
      i < j && i < |s.sends| && s.sends[i] == s0.sends[i]
      && s.sends[i].envelope.ordinal < s.sends[j].envelope.ordinal
  {
    var s0 := Run(Initial<T>(capacity), before);
    var s := Run(s0, after);
    Reachable(capacity, before);
    InvRun(s0, after);
    SendsGrow(s0, after);
    SendsWereBegun(s0);
    assert forall k :: 0 <= k < |s0.sends| ==> s.sends[k] == s0.sends[k];
  }

  lemma SendsWereBegun<T>(s: Bridge<T>)
    requires Attribution(s)
    ensures forall i :: 0 <= i < |s.sends| ==> s.sends[i].call < CallsBegun(s, s.sends[i].thread)
  {
    forall i | 0 <= i < |s.sends|
      ensures s.sends[i].call < CallsBegun(s, s.sends[i].thread)
    {
      var t := s.sends[i].thread;
      assert Accounted(s.sends, t, s.publishers[t]);
      assert Owned(s.sends[i], s.publishers[t]);
    }
  }

  // ------------------------------------------------------ a call that must end

  datatype Cause = BridgeClosed | CallCancelled | DeadlinePassed

  predicate Holds<T>(s: Bridge<T>, call: Call<T>, cause: Cause) {
    match cause
    case BridgeClosed => s.closed
    case CallCancelled => call.cancellation in s.cancelled
    case DeadlinePassed => Expired(call, s.now)
  }

  /** How many more accesses a call takes at most once `cause` holds: both loops
      are cut at the check that reads it. */
  function Remaining(cause: Cause, at: Location): nat {
    match at
    case Idle => 0
    case Return(_) | Release(_) => 1
    case RefusedFallback => 2
    case RefusedDeadline => 3
    case RefusedCancel => 4
    case RefusedClosed => 5
    case OrderClosed => (match cause case BridgeClosed => 6 case CallCancelled => 7 case DeadlinePassed => 8)
    case OrderCancel => (match cause case BridgeClosed => 10 case CallCancelled => 6 case DeadlinePassed => 7)
    case OrderDeadline => (match cause case BridgeClosed => 9 case CallCancelled => 10 case DeadlinePassed => 6)
    case OrderLock => (match cause case BridgeClosed => 8 case CallCancelled => 9 case DeadlinePassed => 10)
    case OrderWait => (match cause case BridgeClosed => 7 case CallCancelled => 8 case DeadlinePassed => 9)
    case TakeOrdinal => (match cause case BridgeClosed => 3 case CallCancelled => 4 case DeadlinePassed => 5)
    case SendClosed(_) => (match cause case BridgeClosed => 2 case CallCancelled => 3 case DeadlinePassed => 4)
    case SendCancel(_) => (match cause case BridgeClosed => 6 case CallCancelled => 2 case DeadlinePassed => 3)
    case SendDeadline(_) => (match cause case BridgeClosed => 5 case CallCancelled => 6 case DeadlinePassed => 2)
    case TrySend(_) => (match cause case BridgeClosed => 4 case CallCancelled => 5 case DeadlinePassed => 6)
    case SendWait(_) => (match cause case BridgeClosed => 3 case CallCancelled => 4 case DeadlinePassed => 5)
  }

  lemma AccessApproachesReturn<T>(s: Bridge<T>, call: Call<T>, at: Location, cause: Cause)
    requires Holds(s, call, cause) && !at.Idle?
    ensures Remaining(cause, Access(s, call, at).1) < Remaining(cause, at) <= 10
  {
  }

  function StepsOf<T>(schedule: seq<Action<T>>, t: ThreadId): nat {
    if schedule == [] then 0
    else (if schedule[0] == Action.Step(t) then 1 else 0) + StepsOf(schedule[1..], t)
  }

  /** Call number `c` of thread `t` has returned, or has at most `budget`
      accesses left under a cause that holds. */
  ghost predicate Ending<T>(s: Bridge<T>, t: ThreadId, c: nat, cause: Cause, budget: int) {
    && t in s.publishers
    && var p := s.publishers[t];
    && (c < |p.outcomes|
        || (Busy(s, t) && c == |p.outcomes| && Holds(s, Current(p), cause) && Remaining(cause, p.at) <= budget))
  }

  lemma EndingStep<T>(s: Bridge<T>, action: Action<T>, t: ThreadId, c: nat, cause: Cause, budget: int)
    requires Ending(s, t, c, cause, budget)
    ensures Ending(Apply(s, action), t, c, cause, budget - if action == Action.Step(t) then 1 else 0)
  {
    Frame(s, action);
    if action == Action.Step(t) && Busy(s, t) {
      var p := s.publishers[t];
      if c == |p.outcomes| {
        AccessApproachesReturn(s, Current(p), p.at, cause);
        AccessScope(s, Current(p), p.at);
      }
    }
  }

  lemma {:induction false} EndingRun<T>(
    s: Bridge<T>, schedule: seq<Action<T>>, t: ThreadId, c: nat, cause: Cause, budget: int)
    requires Ending(s, t, c, cause, budget)
    ensures Ending(Run(s, schedule), t, c, cause, budget - StepsOf(schedule, t))
    decreases |schedule|
  {
    if schedule != [] {
      EndingStep(s, schedule[0], t, c, cause, budget);
      EndingRun(Apply(s, schedule[0]), schedule[1..], t, c, cause,
                budget - if schedule[0] == Action.Step(t) then 1 else 0);
    }
  }

  /** Once the bridge is closed, the call cancelled, or its deadline passed, the
      call returns within ten accesses of its own, however full the queue is and
      whoever holds the lock. */
  lemma DoomedCallReturns<T>(s: Bridge<T>, schedule: seq<Action<T>>, t: ThreadId, cause: Cause)
    requires Busy(s, t) && Holds(s, Current(s.publishers[t]), cause)
    requires StepsOf(schedule, t) >= 10
    ensures t in Run(s, schedule).publishers
    ensures |Run(s, schedule).publishers[t].outcomes| > |s.publishers[t].outcomes|
  {
    var c := |s.publishers[t].outcomes|;
    AccessApproachesReturn(s, Current(s.publishers[t]), s.publishers[t].at, cause);
    EndingRun(s, schedule, t, c, cause, 10);
  }

  // ------------------------------------------------- a call that starts doomed

  /** The causes, in the order the checks are made. */
  function Rank(cause: Cause): nat {
    match cause case BridgeClosed => 1 case CallCancelled => 2 case DeadlinePassed => 3
  }

  /** The outcome names `cause`, or one that is checked before it. */
  predicate NoLaterThan(outcome: Outcome, cause: Cause) {
    match outcome
    case Closed => true
    case Cancelled => Rank(cause) >= 2
    case DeadlineExpired => Rank(cause) >= 3
    case _ => false
  }

  /** How far a call gets that was doomed by `cause` before it began. */
  predicate Within(cause: Cause, at: Location) {
    match at
    case OrderClosed => true
    case OrderCancel => Rank(cause) >= 2
    case OrderDeadline => Rank(cause) >= 3
    case RefusedClosed => true
    case RefusedCancel => Rank(cause) >= 2
    case RefusedDeadline => Rank(cause) >= 3
    case Return(outcome) => NoLaterThan(outcome, cause)
    case _ => false
  }

  ghost predicate Refused<T>(s: Bridge<T>, t: ThreadId, c: nat, cause: Cause) {
    && t in s.publishers
    && var p := s.publishers[t];
    && if c < |p.outcomes| then NoLaterThan(p.outcomes[c], cause)
       else c == |p.outcomes| && Busy(s, t) && Holds(s, Current(p), cause) && Within(cause, p.at)
  }

  lemma RefusedStep<T>(s: Bridge<T>, action: Action<T>, t: ThreadId, c: nat, cause: Cause)
    requires Refused(s, t, c, cause)
    ensures Refused(Apply(s, action), t, c, cause)
  {
    Frame(s, action);
  }

  lemma {:induction false} RefusedRun<T>(s: Bridge<T>, schedule: seq<Action<T>>, t: ThreadId, c: nat, cause: Cause)
    requires Refused(s, t, c, cause)
    ensures Refused(Run(s, schedule), t, c, cause)
    decreases |schedule|
  {
    if schedule != [] {
      RefusedStep(s, schedule[0], t, c, cause);
      RefusedRun(Apply(s, schedule[0]), schedule[1..], t, c, cause);
    }
  }

  predicate Ready<T>(s: Bridge<T>, t: ThreadId) {
    t in s.publishers ==> s.publishers[t].at.Idle? && |s.publishers[t].calls| == |s.publishers[t].outcomes|
  }

  /** A call made when the bridge is closed, the call cancelled, or its deadline
      past never gets the lock, and returns that cause or one checked before it,
      within ten accesses: on a closed bridge every call returns Closed. */
  lemma DoomedCallIsRefused<T>(s: Bridge<T>, schedule: seq<Action<T>>, t: ThreadId, call: Call<T>, cause: Cause)
    requires Ready(s, t) && Holds(s, call, cause) && StepsOf(schedule, t) >= 10
    ensures var c := CallsBegun(s, t); var s' := Run(Begun(s, t, call), schedule);
      t in s'.publishers && c < |s'.publishers[t].outcomes| && NoLaterThan(s'.publishers[t].outcomes[c], cause)
  {
    var begun := Begun(s, t, call);
    RefusedRun(begun, schedule, t, CallsBegun(s, t), cause);
    DoomedCallReturns(begun, schedule, t, cause);
  }

  // ---------------------------------------------------- a call nothing obstructs

  function Steps<T>(t: ThreadId, n: nat): seq<Action<T>> {
    seq(n, _ => Step(t))
  }

  lemma StepFirst<T>(s: Bridge<T>, t: ThreadId, n: nat)
    requires n > 0 && Busy(s, t)
    ensures Run(s, Steps(t, n)) == Run(Advance(s, t), Steps(t, n - 1))
  {
    assert Steps<T>(t, n)[1..] == Steps(t, n - 1);
  }

  /** Nothing refuses a call or makes it wait for its turn. */
  predicate Unrefused<T>(s: Bridge<T>, call: Call<T>) {
    && !s.closed && call.cancellation !in s.cancelled
    && (call.deadline.Some? ==> s.now < call.deadline.value)
    && s.owner.None?
  }

  /** Nothing stands in the way of a call: the receiver is there as well, and the
      queue is not full. */
  predicate Clear<T>(s: Bridge<T>, call: Call<T>) {
    Unrefused(s, call) && s.connected && |s.queue| < s.capacity
  }

  /** The same bridge with thread `t` standing elsewhere. */
  function At<T>(s: Bridge<T>, t: ThreadId, at: Location): Bridge<T>
    requires t in s.publishers
  {
    s.(publishers := s.publishers[t := s.publishers[t].(at := at)])
  }

  /** An access that only looks moves its own thread and nothing else. */
  lemma Looks<T>(s: Bridge<T>, t: ThreadId, at: Location, next: Location, n: nat)
    requires Busy(s, t) && !at.Idle? && !at.Return? && !at.Release? && n > 0
    requires Access(s, Current(s.publishers[t]), at) == (Look, next)
    ensures Run(At(s, t, at), Steps(t, n)) == Run(At(s, t, next), Steps(t, n - 1))
  {
    StepFirst(At(s, t, at), t, n);
    var u := At(s, t, at);
    assert Access(u, Current(u.publishers[t]), at) == (Look, next);
    assert Advance(u, t).publishers == At(s, t, next).publishers;
  }

  /** Taking the lock. */
  lemma ClearLocks<T>(s: Bridge<T>, t: ThreadId)
    requires Busy(s, t) && s.owner.None?
    ensures Advance(At(s, t, OrderLock), t) == At(s.(owner := Some(t)), t, TakeOrdinal)
  {
    var u := At(s, t, OrderLock);
    assert Access(u, Current(u.publishers[t]), OrderLock) == (Acquire, TakeOrdinal);
    assert Advance(u, t).publishers == At(s, t, TakeOrdinal).publishers;
  }

  lemma ClearToLock<T>(s: Bridge<T>, t: ThreadId, n: nat)
    requires Busy(s, t) && Unrefused(s, Current(s.publishers[t])) && n >= 4
    ensures Run(At(s, t, OrderClosed), Steps(t, n)) == Run(At(s.(owner := Some(t)), t, TakeOrdinal), Steps(t, n - 4))
  {
    Looks(s, t, OrderClosed, OrderCancel, n);
    Looks(s, t, OrderCancel, OrderDeadline, n - 1);
    Looks(s, t, OrderDeadline, OrderLock, n - 2);
    ClearLocks(s, t);
    StepFirst(At(s, t, OrderLock), t, n - 3);
  }

  /** Taking the ordinal. */
  lemma ClearTakes<T>(s: Bridge<T>, t: ThreadId)
    requires Busy(s, t)
    ensures Advance(At(s, t, TakeOrdinal), t)
            == At(s.(nextOrdinal := s.nextOrdinal + 1), t, SendClosed(s.nextOrdinal))
  {
    var u := At(s, t, TakeOrdinal);
    assert Access(u, Current(u.publishers[t]), TakeOrdinal) == (Take, SendClosed(s.nextOrdinal));
    assert Advance(u, t).publishers == At(s, t, SendClosed(s.nextOrdinal)).publishers;
  }

  lemma ClearToChecks<T>(s: Bridge<T>, t: ThreadId, n: nat)
    requires Busy(s, t) && n > 0
    ensures Run(At(s, t, TakeOrdinal), Steps(t, n))
            == Run(At(s.(nextOrdinal := s.nextOrdinal + 1), t, SendClosed(s.nextOrdinal)), Steps(t, n - 1))
  {
    ClearTakes(s, t);
    StepFirst(At(s, t, TakeOrdinal), t, n);
  }

  lemma ClearToSend<T>(s: Bridge<T>, t: ThreadId, ordinal: nat, n: nat)
    requires Busy(s, t) && Unrefused(s.(owner := None), Current(s.publishers[t])) && n >= 3
    ensures Run(At(s, t, SendClosed(ordinal)), Steps(t, n)) == Run(At(s, t, TrySend(ordinal)), Steps(t, n - 3))
  {
    Looks(s, t, SendClosed(ordinal), SendCancel(ordinal), n);
    Looks(s, t, SendCancel(ordinal), SendDeadline(ordinal), n - 1);
    Looks(s, t, SendDeadline(ordinal), TrySend(ordinal), n - 2);
  }

  /** The put, with room on the queue. */
  lemma ClearPuts<T>(s: Bridge<T>, t: ThreadId, n: nat)
    requires Busy(s, t) && s.publishers[t].at == TrySend(n) && s.connected && |s.queue| < s.capacity
    ensures var p := s.publishers[t]; var envelope := Envelope(n, Current(p).event);
      Advance(s, t)
      == s.(queue := s.queue + [envelope], sends := s.sends + [Send(t, |p.outcomes|, envelope)],
            publishers := s.publishers[t := p.(at := Release(Published(n)))])
  {
    assert Access(s, Current(s.publishers[t]), TrySend(n)) == (Put(n), Release(Published(n)));
  }

  /** The unlock, which is the return from the call. */
  lemma ClearUnlocks<T>(s: Bridge<T>, t: ThreadId, outcome: Outcome)
    requires Busy(s, t) && s.publishers[t].at == Release(outcome)
    ensures var p := s.publishers[t];
      Advance(s, t)
      == s.(owner := None, publishers := s.publishers[t := p.(at := Idle, outcomes := p.outcomes + [outcome])])
  {
    assert Access(s, Current(s.publishers[t]), Release(outcome)) == (Unlock, Idle);
  }

  lemma ClearSends<T>(s: Bridge<T>, t: ThreadId, n: nat)
    requires Busy(s, t) && s.publishers[t].at == TrySend(n) && s.connected && |s.queue| < s.capacity
    ensures var p := s.publishers[t]; var envelope := Envelope(n, Current(p).event);
      Run(s, Steps(t, 2))
      == s.(owner := None, queue := s.queue + [envelope],
            sends := s.sends + [Send(t, |p.outcomes|, envelope)],
            publishers := s.publishers[t := p.(at := Idle, outcomes := p.outcomes + [Published(n)])])
  {
    ClearPuts(s, t, n);
    ClearUnlocks(Advance(s, t), t, Published(n));
    TwoSteps(s, t);
  }

  lemma TwoSteps<T>(s: Bridge<T>, t: ThreadId)
    requires Busy(s, t) && Busy(Advance(s, t), t)
    ensures Run(s, Steps(t, 2)) == Advance(Advance(s, t), t)
  {
    StepFirst(s, t, 2);
    StepFirst(Advance(s, t), t, 1);
  }

  /** The same bridge with the lock and the next ordinal taken by `t`. */
  function Holding<T>(s: Bridge<T>, t: ThreadId): Bridge<T> {
    s.(owner := Some(t)).(nextOrdinal := s.nextOrdinal + 1)
  }

  lemma ClearToHolding<T>(s: Bridge<T>, t: ThreadId, n: nat)
    requires Busy(s, t) && Unrefused(s, Current(s.publishers[t])) && n >= 5
    ensures Run(At(s, t, OrderClosed), Steps(t, n))
            == Run(At(Holding(s, t), t, SendClosed(s.nextOrdinal)), Steps(t, n - 5))
  {
    ClearToLock(s, t, n);
    var locked := s.(owner := Some(t));
    assert At(locked, t, TakeOrdinal).nextOrdinal == s.nextOrdinal;
    ClearToChecks(locked, t, n - 4);
    assert locked.(nextOrdinal := locked.nextOrdinal + 1) == Holding(s, t);
  }

  lemma ClearToTrySend<T>(s: Bridge<T>, t: ThreadId, n: nat)
    requires Busy(s, t) && Unrefused(s, Current(s.publishers[t])) && n >= 8
    ensures Run(At(s, t, OrderClosed), Steps(t, n))
            == Run(At(Holding(s, t), t, TrySend(s.nextOrdinal)), Steps(t, n - 8))
  {
    ClearToHolding(s, t, n);
    ClearToSend(Holding(s, t), t, s.nextOrdinal, n - 5);
  }

  /** A call nothing obstructs is published in ten accesses: its event goes to the
      back of the queue under the next ordinal, the lock is free again, and
      nothing else has changed. */
  lemma UnobstructedCallIsPublished<T>(s: Bridge<T>, t: ThreadId, call: Call<T>)
    requires Ready(s, t) && Clear(s, call)
    ensures var envelope := Envelope(s.nextOrdinal, call.event);
      var before := if t in s.publishers then s.publishers[t] else Publisher(Idle, [], []);
      Run(Begun(s, t, call), Steps(t, 10))
      == s.(nextOrdinal := s.nextOrdinal + 1, queue := s.queue + [envelope],
            sends := s.sends + [Send(t, CallsBegun(s, t), envelope)],
            publishers := s.publishers[t :=
              Publisher(Idle, before.calls + [call], before.outcomes + [Published(s.nextOrdinal)])])
  {
    var begun := Begun(s, t, call);
    assert At(begun, t, OrderClosed) == begun;
    ClearToTrySend(begun, t, 10);
    var trying := At(Holding(begun, t), t, TrySend(s.nextOrdinal));
    assert begun.nextOrdinal == s.nextOrdinal;
    ClearSends(trying, t, s.nextOrdinal);
    PublishedAlone(s, t, call);
  }

  /** What the ten accesses leave of the publishers is one more call and outcome. */
  lemma PublishedAlone<T>(s: Bridge<T>, t: ThreadId, call: Call<T>)
    requires Ready(s, t)
    ensures var p := At(Begun(s, t, call), t, TrySend(s.nextOrdinal)).publishers[t];
      var before := if t in s.publishers then s.publishers[t] else Publisher(Idle, [], []);
      && |p.outcomes| < |p.calls| && Current(p) == call && |p.outcomes| == CallsBegun(s, t)
      && At(Begun(s, t, call), t, TrySend(s.nextOrdinal)).publishers
           [t := p.(at := Idle, outcomes := p.outcomes + [Published(s.nextOrdinal)])]
         == s.publishers[t := Publisher(Idle, before.calls + [call], before.outcomes + [Published(s.nextOrdinal)])]
  {
    var p := At(Begun(s, t, call), t, TrySend(s.nextOrdinal)).publishers[t];
    var before := if t in s.publishers then s.publishers[t] else Publisher(Idle, [], []);
    assert p.calls == before.calls + [call] && p.outcomes == before.outcomes;
  }

  // ----------------------------------------------------- what the actions cause

  lemma {:induction false} RunConcat<T>(s: Bridge<T>, left: seq<Action<T>>, right: seq<Action<T>>)
    ensures Run(s, left + right) == Run(Run(s, left), right)
    decreases |left|
  {
    if left == [] {
      assert left + right == right;
    } else {
      RunConcat(Apply(s, left[0]), left[1..], right);
      assert (left + right)[1..] == left[1..] + right;
    }
  }

  /** A whole run: `before`, then a call by `t`, then `after`. */
  function Whole<T>(before: seq<Action<T>>, t: ThreadId, call: Call<T>, after: seq<Action<T>>): seq<Action<T>> {
    before + ([Action.Begin(t, call)] + after)
  }

  lemma WholeRun<T>(capacity: nat, before: seq<Action<T>>, t: ThreadId, call: Call<T>, after: seq<Action<T>>)
    ensures Run(Initial<T>(capacity), Whole(before, t, call, after))
            == Run(Begun(Run(Initial<T>(capacity), before), t, call), after)
  {
    RunConcat(Initial<T>(capacity), before, [Action.Begin(t, call)] + after);
    assert ([Action.Begin(t, call)] + after)[1..] == after;
  }

  /** What call number `c` of thread `t` came to, if it has returned. */
  function Outcomes<T>(s: Bridge<T>, t: ThreadId): seq<Outcome> {
    if t in s.publishers then s.publishers[t].outcomes else []
  }

  /** After a close, every call that begins returns Closed. */
  lemma CloseRefusesLaterCalls<T>(
    capacity: nat, before: seq<Action<T>>, t: ThreadId, call: Call<T>, after: seq<Action<T>>)
    requires Closes(before) && Ready(Run(Initial<T>(capacity), before), t) && StepsOf(after, t) >= 10
    ensures var c := CallsBegun(Run(Initial<T>(capacity), before), t);
      var outcomes := Outcomes(Run(Initial<T>(capacity), Whole(before, t, call, after)), t);
      c < |outcomes| && outcomes[c] == Closed
  {
    StateIsHistory(Initial<T>(capacity), before, 0);
    WholeRun(capacity, before, t, call, after);
    DoomedCallIsRefused(Run(Initial<T>(capacity), before), after, t, call, BridgeClosed);
  }

  /** After a cancellation, every call that begins under it returns Cancelled, or
      Closed. */
  lemma CancelRefusesLaterCalls<T>(
    capacity: nat, before: seq<Action<T>>, t: ThreadId, call: Call<T>, after: seq<Action<T>>)
    requires Cancels(before, call.cancellation)
    requires Ready(Run(Initial<T>(capacity), before), t) && StepsOf(after, t) >= 10
    ensures var c := CallsBegun(Run(Initial<T>(capacity), before), t);
      var outcomes := Outcomes(Run(Initial<T>(capacity), Whole(before, t, call, after)), t);
      c < |outcomes| && (outcomes[c] == Cancelled || outcomes[c] == Closed)
  {
    StateIsHistory(Initial<T>(capacity), before, call.cancellation);
    WholeRun(capacity, before, t, call, after);
    DoomedCallIsRefused(Run(Initial<T>(capacity), before), after, t, call, CallCancelled);
  }

  /** Once the clock has reached its deadline, a call that begins returns
      DeadlineExpired, Cancelled or Closed. */
  lemma DeadlineRefusesLaterCalls<T>(
    capacity: nat, before: seq<Action<T>>, t: ThreadId, call: Call<T>, after: seq<Action<T>>)
    requires call.deadline.Some? && Ticks(before) >= call.deadline.value
    requires Ready(Run(Initial<T>(capacity), before), t) && StepsOf(after, t) >= 10
    ensures var c := CallsBegun(Run(Initial<T>(capacity), before), t);
      var outcomes := Outcomes(Run(Initial<T>(capacity), Whole(before, t, call, after)), t);
      c < |outcomes| && outcomes[c] in {DeadlineExpired, Cancelled, Closed}
  {
    StateIsHistory(Initial<T>(capacity), before, 0);
    WholeRun(capacity, before, t, call, after);
    DoomedCallIsRefused(Run(Initial<T>(capacity), before), after, t, call, DeadlinePassed);
  }

  lemma {:induction false} NothingSentDisconnected<T>(s: Bridge<T>, schedule: seq<Action<T>>)
    requires !s.connected
    ensures Run(s, schedule).sends == s.sends
    decreases |schedule|
  {
    if schedule != [] {
      var action := schedule[0];
      if action.Step? && Busy(s, action.thread) {
        var p := s.publishers[action.thread];
        assert !Access(s, Current(p), p.at).0.Put?;
      }
      NothingSentDisconnected(Apply(s, action), schedule[1..]);
    }
  }

  /** Once the receiver is dropped nothing is ever enqueued again. */
  lemma NothingSentAfterDrop<T>(capacity: nat, before: seq<Action<T>>, after: seq<Action<T>>)
    requires DropsReceiver(before)
    ensures Run(Initial<T>(capacity), before + after).sends == Run(Initial<T>(capacity), before).sends
  {
    StateIsHistory(Initial<T>(capacity), before, 0);
    RunConcat(Initial<T>(capacity), before, after);
    NothingSentDisconnected(Run(Initial<T>(capacity), before), after);
  }

  /** The send that finds no receiver, and the unlock behind it. */
  lemma DisconnectedReturns<T>(s: Bridge<T>, t: ThreadId, n: nat)
    requires Busy(s, t) && s.publishers[t].at == TrySend(n) && !s.connected
    ensures Outcomes(Run(s, Steps(t, 2)), t) == s.publishers[t].outcomes + [Disconnected]
  {
    assert Access(s, Current(s.publishers[t]), TrySend(n)) == (Abandon, Release(Disconnected));
    ClearUnlocks(Advance(s, t), t, Disconnected);
    TwoSteps(s, t);
  }

  /** A call nothing else stops, on a bridge without its receiver. */
  lemma DisconnectedCall<T>(s: Bridge<T>, t: ThreadId, call: Call<T>)
    requires Ready(s, t) && Unrefused(s, call) && !s.connected
    ensures Outcomes(Run(Begun(s, t, call), Steps(t, 10)), t) == Outcomes(s, t) + [Disconnected]
  {
    var begun := Begun(s, t, call);
    assert At(begun, t, OrderClosed) == begun;
    ClearToTrySend(begun, t, 10);
    DisconnectedReturns(At(Holding(begun, t), t, TrySend(s.nextOrdinal)), t, s.nextOrdinal);
  }

  /** After the receiver is dropped, a call nothing else stops returns
      Disconnected. */
  lemma DropDisconnectsLaterCalls<T>(capacity: nat, before: seq<Action<T>>, t: ThreadId, call: Call<T>)
    requires DropsReceiver(before)
    requires Ready(Run(Initial<T>(capacity), before), t) && Unrefused(Run(Initial<T>(capacity), before), call)
    ensures Outcomes(Run(Initial<T>(capacity), Whole(before, t, call, Steps(t, 10))), t)
            == Outcomes(Run(Initial<T>(capacity), before), t) + [Disconnected]
  {
    var s := Run(Initial<T>(capacity), before);
    StateIsHistory(Initial<T>(capacity), before, 0);
    WholeRun(capacity, before, t, call, Steps(t, 10));
    DisconnectedCall(s, t, call);
  }

  /** A receive hands over the oldest envelope accepted and not yet received, and
      takes nothing else; on an empty queue it changes nothing. */
  lemma ReceiveHandsOver<T>(s: Bridge<T>)
    requires s.connected
    ensures var s' := Apply(s, Action.Receive);
      && Accepted(s') == Accepted(s)
      && |s'.received| == |s.received| + (if s.queue == [] then 0 else 1)
      && s'.received == Accepted(s)[..|s'.received|]
      && (s.queue == [] ==> s' == s)
  {
    if s.queue != [] {
      assert s.received + s.queue == (s.received + [s.queue[0]]) + s.queue[1..];
    }
  }

  function Receives<T>(n: nat): seq<Action<T>> {
    seq(n, _ => Action.Receive)
  }

  /** A connected receiver gets everything accepted, in order, by receiving as often
      as there are envelopes queued. */
  lemma {:induction false} ReceivesDrain<T>(s: Bridge<T>)
    requires s.connected
    ensures var s' := Run(s, Receives<T>(|s.queue|)); s'.received == Accepted(s) && s'.queue == []
    decreases |s.queue|
  {
    if s.queue != [] {
      var s' := Apply(s, Action.Receive);
      ReceiveHandsOver(s);
      ReceivesDrain(s');
      assert Receives<T>(|s.queue|)[1..] == Receives(|s'.queue|);
    }
  }
}
