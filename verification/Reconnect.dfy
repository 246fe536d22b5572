/** The shared event stream of the dashboard: one connection, one retry timer, a backoff counter. */
module Reconnect {
  import opened Basics

  datatype Status = Connecting | Live | Error

  /** A delay that was scheduled, with the count it was computed from. */
  datatype Delay = Delay(count: nat, ms: real)

  /** The module variables, and with them what the browser has open: sources that were created and
      not closed, and timeouts that were set and neither cleared nor fired. */
  datatype State = State(es: Option<nat>, retryTimer: Option<nat>, retryCount: nat,
                         lastData: Option<string>, lastStatus: Status, lastMsgAt: int, listeners: set<nat>,
                         openSources: set<nat>, pendingTimers: set<nat>, delays: seq<Delay>, nextId: nat)

  /** A frame holds data, or a payload whose status is ERROR, or something that does not parse. */
  datatype Frame = Data(data: string, now: int) | ErrorStatus | Malformed

  datatype Event =
    | Mount(listener: nat)
    | Unmount(listener: nat)
    | Message(source: nat, frame: Frame)
    | SourceError(source: nat, random: real)
    | TimerFires(timer: nat)
    | TabVisible

  const BASE_RETRY := 3000.0
  const MAX_RETRY := 30000.0

  function Pow2(n: nat): nat { if n == 0 then 1 else 2 * Pow2(n - 1) }

  function Backoff(count: nat): real {
    var ms := BASE_RETRY * Pow2(count) as real;
    if ms < MAX_RETRY then ms else MAX_RETRY
  }

  /** Jitter is applied after the cap. */
  function Jitter(ms: real, random: real): real { ms * (0.75 + random * 0.5) }

  // ---- The handlers, as state changes --------------------------------------------------------

  function Notified(s: State, data: Option<string>, status: Status): State {
    s.(lastData := data, lastStatus := status)
  }

  function Connected(s: State): State {
    if s.es.Some? then s
    else
      Notified(s, s.lastData, Connecting).(
        es := Some(s.nextId), openSources := s.openSources + {s.nextId}, nextId := s.nextId + 1)
  }

  function RetryScheduled(s: State, random: real): State {
    if s.retryTimer.Some? then s
    else
      var n := s.(retryCount := if s.retryCount + 1 < 5 then s.retryCount + 1 else 5,
                  delays := s.delays + [Delay(s.retryCount, Jitter(Backoff(s.retryCount), random))]);
      Notified(n, s.lastData, Error).(
        retryTimer := Some(s.nextId), pendingTimers := s.pendingTimers + {s.nextId}, nextId := s.nextId + 1)
  }

  function Disconnected(s: State): State {
    var closed := s.(es := None, openSources := if s.es.Some? then s.openSources - {s.es.value} else s.openSources);
    if s.retryTimer.None? then closed
    else closed.(retryTimer := None, pendingTimers := s.pendingTimers - {s.retryTimer.value})
  }

  /** A closed source and a cleared timer deliver nothing; only a mounted listener unmounts. */
  predicate Enabled(s: State, e: Event) {
    match e
    case Mount(_) => true
    case Unmount(l) => l in s.listeners
    case Message(source, _) => source in s.openSources
    case SourceError(source, random) => source in s.openSources && 0.0 <= random < 1.0
    case TimerFires(t) => t in s.pendingTimers
    case TabVisible => true
  }

  predicate VisibilityGuard(s: State) { |s.listeners| > 0 && s.es.None? && s.retryTimer.None? }

  function Step(s: State, e: Event): State
    requires Enabled(s, e)
  {
    match e
    case Mount(l) => Connected(s.(listeners := s.listeners + {l}))
    case Unmount(l) =>
      var rest := s.(listeners := s.listeners - {l});
      if rest.listeners == {} then Disconnected(rest) else rest
    case Message(_, frame) =>
      if frame.Data? then Notified(s.(retryCount := 0, lastMsgAt := frame.now), Some(frame.data), Live) else s
    case SourceError(source, random) =>
      RetryScheduled(s.(es := None, openSources := s.openSources - {source}), random)
    case TimerFires(t) => Connected(s.(retryTimer := None, pendingTimers := s.pendingTimers - {t}))
    case TabVisible => if VisibilityGuard(s) then Connected(s.(retryCount := 0)) else s
  }

  const START := State(None, None, 0, None, Connecting, 0, {}, {}, {}, [], 0)

  // ---- The handlers, as the module runs them -------------------------------------------------

  class AlephStream {
    var es: Option<nat>
    var retryTimer: Option<nat>
    var retryCount: nat
    var lastData: Option<string>
    var lastStatus: Status
    var lastMsgAt: int
    var listeners: set<nat>
    ghost var openSources: set<nat>
    ghost var pendingTimers: set<nat>
    ghost var delays: seq<Delay>
    var nextId: nat

    ghost function View(): State
      reads this
    {
      State(es, retryTimer, retryCount, lastData, lastStatus, lastMsgAt, listeners, openSources,
            pendingTimers, delays, nextId)
    }

    constructor ()
      ensures View() == START
    {
      es, retryTimer, retryCount := None, None, 0;
      lastData, lastStatus, lastMsgAt := None, Connecting, 0;
      listeners, openSources, pendingTimers, delays, nextId := {}, {}, {}, [], 0;
    }

    method Notify(data: Option<string>, status: Status)
      modifies `lastData, `lastStatus
      ensures View() == Notified(old(View()), data, status)
    {
      lastData := data;
      lastStatus := status;
    }

    method Connect()
      modifies this
      ensures View() == Connected(old(View()))
    {
      if es.Some? { return; }
      Notify(lastData, Connecting);
      es, openSources, nextId := Some(nextId), openSources + {nextId}, nextId + 1;
    }

    method ScheduleRetry(random: real)
      modifies this
      ensures View() == RetryScheduled(old(View()), random)
    {
      if retryTimer.Some? { return; }
      var delay := Jitter(Backoff(retryCount), random);
      delays := delays + [Delay(retryCount, delay)];
      retryCount := if retryCount + 1 < 5 then retryCount + 1 else 5;
      Notify(lastData, Error);
      retryTimer, pendingTimers, nextId := Some(nextId), pendingTimers + {nextId}, nextId + 1;
    }

    method Disconnect()
      modifies this
      ensures View() == Disconnected(old(View()))
    {
      if es.Some? { openSources := openSources - {es.value}; }
      es := None;
      if retryTimer.Some? {
        pendingTimers := pendingTimers - {retryTimer.value};
        retryTimer := None;
      }
    }

    method OnMount(listener: nat)
      modifies this
      ensures View() == Step(old(View()), Mount(listener))
    {
      listeners := listeners + {listener};
      Connect();
    }

    method OnUnmount(listener: nat)
      requires listener in listeners
      modifies this
      ensures View() == Step(old(View()), Unmount(listener))
    {
      listeners := listeners - {listener};
      if listeners == {} { Disconnect(); }
    }

    method OnMessage(source: nat, frame: Frame)
      requires source in openSources
      modifies this
      ensures View() == Step(old(View()), Message(source, frame))
    {
      if frame.Data? {
        retryCount := 0;
        lastMsgAt := frame.now;
        Notify(Some(frame.data), Live);
      }
    }

    method OnError(source: nat, random: real)
      requires source in openSources && 0.0 <= random < 1.0
      modifies this
      ensures View() == Step(old(View()), SourceError(source, random))
    {
      openSources := openSources - {source};
      es := None;
      ScheduleRetry(random);
    }

    method OnTimer(timer: nat)
      requires timer in pendingTimers
      modifies this
      ensures View() == Step(old(View()), TimerFires(timer))
    {
      pendingTimers := pendingTimers - {timer};
      retryTimer := None;
      Connect();
    }

    method OnVisible()
      modifies this
      ensures View() == Step(old(View()), TabVisible)
    {
      if |listeners| > 0 && es.None? && retryTimer.None? {
        retryCount := 0;
        Connect();
      }
    }
  }

  // ---- Every reachable state -----------------------------------------------------------------

  ghost predicate Runs(s: State, events: seq<Event>)
    decreases |events|
  {
    events == [] || (Enabled(s, events[0]) && Runs(Step(s, events[0]), events[1..]))
  }

  function Run(s: State, events: seq<Event>): State
    requires Runs(s, events)
    decreases |events|
  {
    if events == [] then s else Run(Step(s, events[0]), events[1..])
  }

  function AsSet(x: Option<nat>): set<nat> { if x.Some? then {x.value} else {} }

  ghost predicate Inv(s: State) {
    && s.openSources == AsSet(s.es) && s.pendingTimers == AsSet(s.retryTimer)
    && (s.es.Some? ==> s.es.value < s.nextId) && (s.retryTimer.Some? ==> s.retryTimer.value < s.nextId)
    && (s.listeners != {} <==> s.es.Some? || s.retryTimer.Some?)
    && s.retryCount <= 5
    && (forall d :: d in s.delays ==> DelayOk(d))
  }

  /** Within a quarter of the capped backoff of the count it was scheduled with. */
  ghost predicate DelayOk(d: Delay) {
    d.count <= 5 && 0.75 * Backoff(d.count) <= d.ms < 1.25 * Backoff(d.count)
  }

  lemma BackoffPositive(count: nat)
    ensures Pow2(count) > 0 && 0.0 < Backoff(count) <= MAX_RETRY
  {
  }

  lemma JitterInRange(ms: real, random: real)
    requires ms > 0.0 && 0.0 <= random < 1.0
    ensures 0.75 * ms <= Jitter(ms, random) < 1.25 * ms
  {
    assert Jitter(ms, random) == 0.75 * ms + 0.5 * (ms * random);
    assert 0.0 <= ms * random;
    assert ms * (1.0 - random) > 0.0;
  }

  lemma StepKeepsInv(s: State, e: Event)
    requires Inv(s) && Enabled(s, e)
    ensures Inv(Step(s, e))
  {
    match e {
      case SourceError(source, random) =>
        var s' := Step(s, e);
        BackoffPositive(s.retryCount);
        JitterInRange(Backoff(s.retryCount), random);
        forall d | d in s'.delays ensures DelayOk(d) {
          assert d in s.delays || d == Delay(s.retryCount, Jitter(Backoff(s.retryCount), random));
        }
      case _ =>
        assert Step(s, e).delays == s.delays;
    }
  }

  lemma {:induction false} RunKeepsInv(s: State, events: seq<Event>)
    requires Inv(s) && Runs(s, events)
    ensures Inv(Run(s, events))
    decreases |events|
  {
    if events != [] {
      StepKeepsInv(s, events[0]);
      RunKeepsInv(Step(s, events[0]), events[1..]);
    }
  }

  /** In every state reached from the start at most one source is open and at most one timer is
      pending, there are listeners exactly when there is one or the other, so the visibility handler
      never acts; the count stays at most 5 and every delay is within a quarter of the capped backoff
      of the count it was scheduled with. */
  lemma ReachableStates(events: seq<Event>)
    requires Runs(START, events)
    ensures var s := Run(START, events);
            && |s.openSources| <= 1 && |s.pendingTimers| <= 1
            && (s.listeners != {} <==> s.openSources != {} || s.pendingTimers != {})
            && !VisibilityGuard(s) && Step(s, TabVisible) == s
            && s.retryCount <= 5 && forall d :: d in s.delays ==> DelayOk(d)
  {
    RunKeepsInv(START, events);
  }

  lemma {:induction false} BackoffMonotone(a: nat, b: nat)
    requires a <= b
    ensures Pow2(a) <= Pow2(b) && Backoff(a) <= Backoff(b)
    decreases b
  {
    if a < b { BackoffMonotone(a, b - 1); }
  }

  /** Until the next good frame the backoff never falls. */
  lemma {:induction false} BackoffNeverFalls(s: State, events: seq<Event>)
    requires Inv(s) && Runs(s, events)
    requires forall e :: e in events ==> !(e.Message? && e.frame.Data?)
    ensures s.retryCount <= Run(s, events).retryCount
    ensures Backoff(s.retryCount) <= Backoff(Run(s, events).retryCount)
    decreases |events|
  {
    if events != [] {
      StepKeepsInv(s, events[0]);
      assert events[0] in events;
      BackoffNeverFalls(Step(s, events[0]), events[1..]);
    }
    BackoffMonotone(s.retryCount, Run(s, events).retryCount);
  }

  /** The cap comes before the jitter, so a delay can exceed 30 s: exactly in the upper half of the
      jitter once the count has reached 4. */
  lemma CapExceededExactly(count: nat, random: real)
    requires 0.0 <= random < 1.0
    ensures Jitter(Backoff(count), random) > MAX_RETRY <==> count >= 4 && random > 0.5
  {
    if count >= 4 {
      BackoffMonotone(4, count);
      assert Pow2(4) == 16;
      assert Backoff(count) == MAX_RETRY;
    } else {
      BackoffMonotone(count, 3);
      assert Pow2(3) == 8;
      BackoffPositive(count);
      JitterInRange(Backoff(count), random);
    }
  }

  /** A server that stays down: an error and the timer it sets, k times over, from source n on. */
  function Outage(n: nat, k: nat, random: real): seq<Event>
    decreases k
  {
    if k == 0 then [] else [SourceError(n, random), TimerFires(n + 1)] + Outage(n + 2, k - 1, random)
  }

  /** Only source n is open, and it is the last thing that was created. */
  ghost predicate Waiting(s: State, n: nat) {
    s.es == Some(n) && s.openSources == {n} && s.retryTimer.None? && s.pendingTimers == {} && s.nextId == n + 1
  }

  function NextCount(count: nat): nat { if count < 5 then count + 1 else 5 }

  /** The delays of k errors in a row: each count gives its own, until the count stays at 5. */
  function Retries(count: nat, k: nat, random: real): seq<Delay>
    decreases k
  {
    if k == 0 then []
    else [Delay(count, Jitter(Backoff(count), random))] + Retries(NextCount(count), k - 1, random)
  }

  lemma OneRetry(s: State, n: nat, random: real)
    requires Waiting(s, n) && 0.0 <= random < 1.0 && s.retryCount <= 5
    ensures Enabled(s, SourceError(n, random))
    ensures var failed := Step(s, SourceError(n, random));
            && Enabled(failed, TimerFires(n + 1))
            && var again := Step(failed, TimerFires(n + 1));
               && Waiting(again, n + 2) && again.retryCount == NextCount(s.retryCount)
               && again.delays == s.delays + Retries(s.retryCount, 1, random)
  {
  }

  lemma TwoEvents(s: State, a: Event, b: Event, rest: seq<Event>)
    requires Enabled(s, a) && Enabled(Step(s, a), b) && Runs(Step(Step(s, a), b), rest)
    ensures Runs(s, [a, b] + rest) && Run(s, [a, b] + rest) == Run(Step(Step(s, a), b), rest)
  {
    var events := [a, b] + rest;
    assert events[1..] == [b] + rest && events[1..][1..] == rest;
  }

  lemma {:induction false} OutageDelays(s: State, n: nat, k: nat, random: real)
    requires Waiting(s, n) && 0.0 <= random < 1.0 && s.retryCount <= 5
    ensures Runs(s, Outage(n, k, random))
    ensures Run(s, Outage(n, k, random)).delays == s.delays + Retries(s.retryCount, k, random)
    decreases k
  {
    if k > 0 {
      OneRetry(s, n, random);
      var again := Step(Step(s, SourceError(n, random)), TimerFires(n + 1));
      OutageDelays(again, n + 2, k - 1, random);
      TwoEvents(s, SourceError(n, random), TimerFires(n + 1), Outage(n + 2, k - 1, random));
      var one := Retries(s.retryCount, 1, random);
      assert Retries(s.retryCount, k, random) == one + Retries(again.retryCount, k - 1, random);
    } else {
      assert s.delays + [] == s.delays;
    }
  }

  /** One listener and five errors in a row, the last with a jitter draw of 0.9: a delay of 36 s. */
  lemma FifthRetryExceedsCap()
    ensures var events := [Mount(0)] + Outage(0, 5, 0.9);
            Runs(START, events) && Delay(4, 36000.0) in Run(START, events).delays
  {
    var events := [Mount(0)] + Outage(0, 5, 0.9);
    var mounted := Step(START, Mount(0));
    assert events[1..] == Outage(0, 5, 0.9);
    OutageDelays(mounted, 0, 5, 0.9);
    FifthOf(0.9);
    assert Run(START, events) == Run(mounted, Outage(0, 5, 0.9));
  }

  lemma FifthOf(random: real)
    ensures Delay(4, 30000.0 * (0.75 + random * 0.5)) in Retries(0, 5, random)
  {
    assert Pow2(4) == 16 && Backoff(4) == 30000.0;
    var last := Retries(4, 1, random);
    assert last[0] == Delay(4, 30000.0 * (0.75 + random * 0.5)) && last[0] in last;
    assert Retries(3, 2, random)[1..] == last && Retries(2, 3, random)[1..] == Retries(3, 2, random);
    assert Retries(1, 4, random)[1..] == Retries(2, 3, random) && Retries(0, 5, random)[1..] == Retries(1, 4, random);
  }

  // ---- What the count counts -----------------------------------------------------------------

  /** A tally of the events alone: who listens, whether a retry is due, and since the last good frame
      the errors that set a timer and all the errors. */
  datatype Tally = Tally(listeners: set<nat>, due: bool, retries: nat, errors: nat)

  const NO_EVENTS := Tally({}, false, 0, 0)

  function Counted(t: Tally, e: Event): Tally {
    match e
    case Mount(l) => t.(listeners := t.listeners + {l})
    case Unmount(l) => t.(listeners := t.listeners - {l}, due := t.due && t.listeners - {l} != {})
    case Message(_, frame) => if frame.Data? then t.(retries := 0, errors := 0) else t
    case SourceError(_, _) =>
      t.(due := true, retries := if t.due then t.retries else t.retries + 1, errors := t.errors + 1)
    case TimerFires(_) => t.(due := false)
    case TabVisible => t
  }

  function Count(t: Tally, events: seq<Event>): Tally
    decreases |events|
  {
    if events == [] then t else Count(Counted(t, events[0]), events[1..])
  }

  function AtMostFive(n: nat): nat { if n < 5 then n else 5 }

  ghost predicate Agrees(s: State, t: Tally) {
    && s.listeners == t.listeners && s.retryTimer.Some? == t.due && s.retryCount == AtMostFive(t.retries)
    && t.retries <= t.errors
  }

  lemma StepIsCounted(s: State, e: Event, t: Tally)
    requires Inv(s) && Enabled(s, e) && Agrees(s, t)
    ensures Agrees(Step(s, e), Counted(t, e))
  {
  }

  lemma {:induction false} RunIsCounted(s: State, events: seq<Event>, t: Tally)
    requires Inv(s) && Runs(s, events) && Agrees(s, t)
    ensures Agrees(Run(s, events), Count(t, events))
    decreases |events|
  {
    if events != [] {
      StepKeepsInv(s, events[0]);
      StepIsCounted(s, events[0], t);
      RunIsCounted(Step(s, events[0]), events[1..], Counted(t, events[0]));
    }
  }

  /** Over any run the retry count is the number of errors since the last good frame, capped at 5, if
      and only if each of them found no timer pending, or five of them did. An error that finds one, as
      can happen after a mount during the wait, is not counted. */
  lemma RetryCountExactly(events: seq<Event>)
    requires Runs(START, events)
    ensures var s, t := Run(START, events), Count(NO_EVENTS, events);
            && s.retryCount == AtMostFive(t.retries) && t.retries <= t.errors
            && (s.retryCount == AtMostFive(t.errors) <==> t.retries == t.errors || t.retries >= 5)
  {
    RunIsCounted(START, events, NO_EVENTS);
  }

  /** Two errors and a count of one: the second source was opened while the first retry was due. */
  lemma MountDuringWait()
    ensures var events := [Mount(0), SourceError(0, 0.5), Mount(1), SourceError(2, 0.5)];
            Runs(START, events) && Run(START, events).retryCount == 1 && Count(NO_EVENTS, events).errors == 2
  {
    var late := [Mount(1), SourceError(2, 0.5)];
    var failed := Step(Step(START, Mount(0)), SourceError(0, 0.5));
    assert [Mount(0), SourceError(0, 0.5), Mount(1), SourceError(2, 0.5)] == [Mount(0), SourceError(0, 0.5)] + late;
    assert late == late + [];
    TwoEvents(failed, Mount(1), SourceError(2, 0.5), []);
    TwoEvents(START, Mount(0), SourceError(0, 0.5), late);
    TwoCounted(NO_EVENTS, Mount(0), SourceError(0, 0.5), late);
    TwoCounted(Counted(Counted(NO_EVENTS, Mount(0)), SourceError(0, 0.5)), Mount(1), SourceError(2, 0.5), []);
  }

  lemma TwoCounted(t: Tally, a: Event, b: Event, rest: seq<Event>)
    ensures Count(t, [a, b] + rest) == Count(Counted(Counted(t, a), b), rest)
  {
    var events := [a, b] + rest;
    assert events[1..] == [b] + rest && events[1..][1..] == rest;
  }

  lemma {:induction false} RunAppend(s: State, a: seq<Event>, e: Event)
    requires Runs(s, a + [e])
    ensures Runs(s, a) && Enabled(Run(s, a), e) && Run(s, a + [e]) == Step(Run(s, a), e)
    decreases |a|
  {
    if a == [] {
      assert a + [e] == [e] && [e][1..] == [];
    } else {
      assert (a + [e])[1..] == a[1..] + [e];
      RunAppend(Step(s, a[0]), a[1..], e);
    }
  }

  /** Over any run an error with no retry due schedules the delay of the count so far; the first one
      after a good frame, or after the start, schedules between 2.25 s and 3.75 s. */
  lemma ErrorSchedules(events: seq<Event>, source: nat, random: real)
    requires Runs(START, events + [SourceError(source, random)]) && !Count(NO_EVENTS, events).due
    ensures Runs(START, events)
    ensures var before, after := Run(START, events).delays, Run(START, events + [SourceError(source, random)]).delays;
            && |after| == |before| + 1 && after[..|before|] == before && DelayOk(after[|before|])
            && after[|before|].count == AtMostFive(Count(NO_EVENTS, events).retries)
            && (Count(NO_EVENTS, events).retries == 0 ==> 2250.0 <= after[|before|].ms < 3750.0)
  {
    RunAppend(START, events, SourceError(source, random));
    RunIsCounted(START, events, NO_EVENTS);
    RunKeepsInv(START, events);
    var s := Run(START, events);
    BackoffPositive(s.retryCount);
    JitterInRange(Backoff(s.retryCount), random);
    assert Backoff(0) == 3000.0;
  }

  /** What the listeners are told: a good frame is shown live with its data and time and clears the
      count; data and time change with good frames only. */
  lemma StepShowsFrame(s: State, e: Event)
    requires Enabled(s, e)
    ensures var s' := Step(s, e);
            if e.Message? && e.frame.Data?
            then s'.lastStatus == Live && s'.lastData == Some(e.frame.data) && s'.lastMsgAt == e.frame.now
                 && s'.retryCount == 0
            else s'.lastData == s.lastData && s'.lastMsgAt == s.lastMsgAt
  {
  }

  /** Otherwise opening a source shows connecting, setting a timer shows the error, and nothing else
      changes the status shown. */
  lemma StepShowsStatus(s: State, e: Event)
    requires Inv(s) && Enabled(s, e) && !(e.Message? && e.frame.Data?)
    ensures var s' := Step(s, e);
            && (s'.openSources - s.openSources != {} ==> s'.lastStatus == Connecting)
            && (|s'.delays| > |s.delays| ==> s'.lastStatus == Error)
            && (s'.openSources - s.openSources == {} && |s'.delays| == |s.delays| ==> s'.lastStatus == s.lastStatus)
  {
    match e {
      case SourceError(_, _) => assert Step(s, e).openSources - s.openSources == {};
      case Mount(_) => NewSource(s.(listeners := s.listeners + {e.listener}));
      case TimerFires(t) => NewSource(s.(retryTimer := None, pendingTimers := s.pendingTimers - {t}));
      case _ => assert Step(s, e).openSources - s.openSources == {};
    }
  }

  lemma NewSource(s: State)
    requires s.openSources == AsSet(s.es) && (s.es.Some? ==> s.es.value < s.nextId)
    ensures if s.es.Some? then Connected(s) == s
            else s.nextId in Connected(s).openSources - s.openSources && Connected(s).lastStatus == Connecting
  {
  }

  function LastFrame(events: seq<Event>): Option<Frame> {
    if events == [] then None
    else
      var e := events[|events| - 1];
      if e.Message? && e.frame.Data? then Some(e.frame) else LastFrame(events[..|events| - 1])
  }

  /** After any run the data and the time shown are those of the last good frame. */
  lemma {:induction false} ShowsLastFrame(events: seq<Event>)
    requires Runs(START, events)
    ensures var s, frame := Run(START, events), LastFrame(events);
            && (frame.None? ==> s.lastData == None && s.lastMsgAt == 0)
            && (frame.Some? ==> frame.value.Data? && s.lastData == Some(frame.value.data)
                                && s.lastMsgAt == frame.value.now)
  {
    if events != [] {
      var n := |events| - 1;
      assert events == events[..n] + [events[n]];
      RunAppend(START, events[..n], events[n]);
      ShowsLastFrame(events[..n]);
      RunKeepsInv(START, events[..n]);
      StepShowsFrame(Run(START, events[..n]), events[n]);
    }
  }
}
