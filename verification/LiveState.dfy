/** Two small state machines over the server's module globals: regime alerts with their ring buffer,
    and the collector task that lives while someone is connected. */
module LiveState {
  import opened Basics

  // ---- Regime alerts -------------------------------------------------------------------------

  type Transition = (string, string)

  const RING_MAX := 30

  datatype Alert = Alert(oldRegime: string, newRegime: string, critical: bool)

  predicate Contains(s: string, part: string) {
    |part| <= |s| && (s[..|part|] == part || (s != "" && Contains(s[1..], part)))
  }

  function AlertOf(t: Transition): Alert { Alert(t.0, t.1, Contains(t.1, "CRISIS")) }

  /** The last label seen, the alert tasks created and not yet run, and the ring. `recorded` is every
      transition the ring has ever been given. */
  datatype Alerts = Alerts(last: string, queue: seq<Transition>, ring: seq<Alert>, recorded: seq<Transition>)

  datatype AlertEvent = Observe(regime: string) | RunTask

  function AlertStep(s: Alerts, e: AlertEvent): Alerts {
    match e
    case Observe(regime) =>
      s.(queue := if s.last != "" && regime != s.last then s.queue + [(s.last, regime)] else s.queue, last := regime)
    case RunTask =>
      if s.queue == [] then s
      else s.(queue := s.queue[1..], ring := Pushed(s.ring, AlertOf(s.queue[0])),
              recorded := s.recorded + [s.queue[0]])
  }

  /** Insert at the front; drop the oldest when there are more than RING_MAX. */
  function Pushed(ring: seq<Alert>, a: Alert): seq<Alert> {
    var longer := [a] + ring;
    if |longer| > RING_MAX then longer[..|longer| - 1] else longer
  }

  const NO_ALERTS := Alerts("", [], [], [])

  function AlertRun(events: seq<AlertEvent>): Alerts {
    if events == [] then NO_ALERTS else AlertStep(AlertRun(events[..|events| - 1]), events[|events| - 1])
  }

  function Labels(events: seq<AlertEvent>): seq<string> {
    if events == [] then []
    else
      var e := events[|events| - 1];
      Labels(events[..|events| - 1]) + if e.Observe? then [e.regime] else []
  }

  function StutterFree(labels: seq<string>): (r: seq<string>)
    ensures labels != [] ==> r != [] && r[|r| - 1] == labels[|labels| - 1]
    ensures labels == [] ==> r == []
  {
    if labels == [] then []
    else
      var n := |labels| - 1;
      var before := StutterFree(labels[..n]);
      if n > 0 && labels[n - 1] == labels[n] then before else before + [labels[n]]
  }

  /** Adjacent pairs, without those that leave the empty label. */
  function Changes(labels: seq<string>): seq<Transition> {
    if |labels| < 2 then []
    else
      var n := |labels| - 1;
      Changes(labels[..n]) + if labels[n - 1] != "" then [(labels[n - 1], labels[n])] else []
  }

  function Reverse<T>(s: seq<T>): (r: seq<T>)
    ensures |r| == |s|
    ensures forall i :: 0 <= i < |s| ==> r[i] == s[|s| - 1 - i]
  {
    if s == [] then [] else [s[|s| - 1]] + Reverse(s[..|s| - 1])
  }

  function Newest(log: seq<Transition>): seq<Transition> {
    if |log| > RING_MAX then log[|log| - RING_MAX..] else log
  }

  function AlertsOf(log: seq<Transition>): (r: seq<Alert>)
    ensures |r| == |log|
  {
    seq(|log|, i requires 0 <= i < |log| => AlertOf(log[i]))
  }

  /** The newest alerts of a log, newest first. */
  function RingOf(log: seq<Transition>): seq<Alert> { Reverse(AlertsOf(Newest(log))) }

  lemma RingAt(log: seq<Transition>, i: nat)
    requires i < |RingOf(log)|
    ensures i < |log| && RingOf(log)[i] == AlertOf(log[|log| - 1 - i])
  {
    var newest := Newest(log);
    assert RingOf(log)[i] == AlertsOf(newest)[|newest| - 1 - i] == AlertOf(newest[|newest| - 1 - i]);
  }

  /** The ring, described by its entries. */
  ghost predicate ListsNewest(ring: seq<Alert>, log: seq<Transition>) {
    && |ring| == (if |log| > RING_MAX then RING_MAX else |log|)
    && forall i :: 0 <= i < |ring| ==> ring[i] == AlertOf(log[|log| - 1 - i])
  }

  lemma RingListsNewest(ring: seq<Alert>, log: seq<Transition>)
    ensures ring == RingOf(log) <==> ListsNewest(ring, log)
  {
    forall i | 0 <= i < |RingOf(log)| ensures RingOf(log)[i] == AlertOf(log[|log| - 1 - i]) {
      RingAt(log, i);
    }
  }

  lemma PushedListsNewest(ring: seq<Alert>, log: seq<Transition>, t: Transition)
    requires ListsNewest(ring, log)
    ensures ListsNewest(Pushed(ring, AlertOf(t)), log + [t])
  {
  }

  lemma PushedIsNewest(log: seq<Transition>, t: Transition)
    ensures Pushed(RingOf(log), AlertOf(t)) == RingOf(log + [t])
  {
    RingListsNewest(RingOf(log), log);
    PushedListsNewest(RingOf(log), log, t);
    RingListsNewest(Pushed(RingOf(log), AlertOf(t)), log + [t]);
  }

  /** Over any run of observations, with the alert tasks running whenever the loop gets to them: the
      alerts recorded, followed by those still queued, are the adjacent pairs of the stutter-free
      label sequence, and the ring holds the newest 30 recorded, newest first. */
  lemma {:induction false} AlertsAreChanges(events: seq<AlertEvent>)
    ensures var s := AlertRun(events);
            && s.recorded + s.queue == Changes(StutterFree(Labels(events)))
            && s.ring == RingOf(s.recorded)
            && s.last == (if Labels(events) == [] then "" else Labels(events)[|Labels(events)| - 1])
  {
    if events != [] {
      var n := |events| - 1;
      AlertsAreChanges(events[..n]);
      var s := AlertRun(events[..n]);
      match events[n] {
        case Observe(regime) =>
          ObserveExtends(Labels(events[..n]), regime);
          QueueGrows(s, regime);
        case RunTask =>
          assert Labels(events) == Labels(events[..n]);
          TaskMovesOne(s);
      }
    }
  }

  lemma QueueGrows(s: Alerts, regime: string)
    ensures var s' := AlertStep(s, Observe(regime));
            s'.recorded + s'.queue
            == s.recorded + s.queue + (if s.last != "" && regime != s.last then [(s.last, regime)] else [])
  {
  }

  lemma TaskMovesOne(s: Alerts)
    requires s.ring == RingOf(s.recorded)
    ensures var s' := AlertStep(s, RunTask);
            s'.recorded + s'.queue == s.recorded + s.queue && s'.ring == RingOf(s'.recorded) && s'.last == s.last
  {
    if s.queue != [] {
      PushedIsNewest(s.recorded, s.queue[0]);
    }
  }

  lemma StutterStep(labels: seq<string>, regime: string)
    ensures StutterFree(labels + [regime])
            == if labels != [] && labels[|labels| - 1] == regime then StutterFree(labels)
               else StutterFree(labels) + [regime]
  {
    var more := labels + [regime];
    assert more[..|labels|] == labels;
    if labels != [] { assert more[|labels| - 1] == labels[|labels| - 1]; }
  }

  /** The changes after one more label, from the stutter-free labels before and after it. */
  lemma ChangesOfNext(before: seq<string>, after: seq<string>, last: string, regime: string)
    requires if before == [] then last == "" else last == before[|before| - 1]
    requires after == if before != [] && last == regime then before else before + [regime]
    ensures Changes(after) == Changes(before) + (if last != "" && regime != last then [(last, regime)] else [])
  {
    if before == [] {
      assert after == [regime];
    } else if last != regime {
      ChangesExtend(before, regime);
    } else {
      assert Changes(before) + [] == Changes(before);
    }
  }

  lemma ObserveExtends(labels: seq<string>, regime: string)
    ensures var last := if labels == [] then "" else labels[|labels| - 1];
            Changes(StutterFree(labels + [regime]))
            == Changes(StutterFree(labels)) + (if last != "" && regime != last then [(last, regime)] else [])
  {
    StutterStep(labels, regime);
    var last := if labels == [] then "" else labels[|labels| - 1];
    ChangesOfNext(StutterFree(labels), StutterFree(labels + [regime]), last, regime);
  }

  lemma ChangesExtend(s: seq<string>, regime: string)
    requires s != []
    ensures Changes(s + [regime]) == Changes(s) + if s[|s| - 1] != "" then [(s[|s| - 1], regime)] else []
  {
    assert (s + [regime])[..|s|] == s;
  }

  predicate MentionsAt(s: string, word: string, k: nat) { k + |word| <= |s| && s[k..k + |word|] == word }

  /** The word occurs somewhere in the label. */
  ghost predicate Mentions(s: string, word: string) { exists k: nat :: MentionsAt(s, word, k) }

  lemma MentionsShifted(s: string, word: string, k: nat)
    requires s != ""
    ensures MentionsAt(s, word, k + 1) <==> MentionsAt(s[1..], word, k)
  {
    if k + 1 + |word| <= |s| {
      assert s[k + 1..k + 1 + |word|] == s[1..][k..k + |word|];
    }
  }

  lemma {:induction false} ContainsExactly(s: string, word: string)
    ensures Contains(s, word) <==> Mentions(s, word)
  {
    if |word| <= |s| && s[..|word|] == word {
      assert MentionsAt(s, word, 0);
    } else if |word| <= |s| && s != "" {
      ContainsExactly(s[1..], word);
      if Mentions(s[1..], word) {
        var k: nat :| MentionsAt(s[1..], word, k);
        MentionsShifted(s, word, k);
      }
      if Mentions(s, word) {
        var k: nat :| MentionsAt(s, word, k);
        assert k > 0;
        MentionsShifted(s, word, k - 1);
      }
    }
  }

  /** The alert names the old and the new label, and is critical when the new one mentions a crisis. */
  ghost predicate Shows(a: Alert, t: Transition) {
    a.oldRegime == t.0 && a.newRegime == t.1 && (a.critical <==> Mentions(t.1, "CRISIS"))
  }

  lemma AlertShows(t: Transition)
    ensures Shows(AlertOf(t), t)
  {
    ContainsExactly(t.1, "CRISIS");
  }

  /** Over any run the ring shows, newest first, the last thirty transitions recorded. */
  lemma RingShowsTransitions(events: seq<AlertEvent>)
    ensures var s := AlertRun(events);
            && |s.ring| == (if |s.recorded| > 30 then 30 else |s.recorded|)
            && forall i :: 0 <= i < |s.ring| ==> Shows(s.ring[i], s.recorded[|s.recorded| - 1 - i])
  {
    AlertsAreChanges(events);
    ListedShows(AlertRun(events).ring, AlertRun(events).recorded);
  }

  lemma ListedShows(ring: seq<Alert>, log: seq<Transition>)
    requires ring == RingOf(log)
    ensures |ring| == (if |log| > 30 then 30 else |log|)
    ensures forall i :: 0 <= i < |ring| ==> Shows(ring[i], log[|log| - 1 - i])
  {
    RingListsNewest(ring, log);
    forall i | 0 <= i < |ring| ensures Shows(ring[i], log[|log| - 1 - i]) {
      AlertShows(log[|log| - 1 - i]);
    }
  }

  /** When no label is empty, each alert starts from the regime the one before it announced. */
  lemma {:induction false} AlertsChain(labels: seq<string>)
    requires forall l :: l in labels ==> l != ""
    ensures |Changes(labels)| == if labels == [] then 0 else |labels| - 1
    ensures forall i :: 0 <= i < |Changes(labels)| ==> Changes(labels)[i] == (labels[i], labels[i + 1])
  {
    if |labels| >= 2 {
      var n := |labels| - 1;
      assert forall l :: l in labels[..n] ==> l in labels;
      AlertsChain(labels[..n]);
      assert labels[n - 1] in labels;
    }
  }

  lemma {:induction false} StutterFreeIsStutterFree(labels: seq<string>)
    ensures forall i :: 0 <= i < |StutterFree(labels)| - 1 ==> StutterFree(labels)[i] != StutterFree(labels)[i + 1]
    ensures forall l :: l in StutterFree(labels) <==> l in labels
  {
    if labels != [] {
      var n := |labels| - 1;
      StutterFreeIsStutterFree(labels[..n]);
      assert labels == labels[..n] + [labels[n]];
    }
  }

  /** Each alert announces a change, and starts from the regime the one before it announced. */
  ghost predicate Chained(fired: seq<Transition>) {
    && (forall i :: 0 <= i < |fired| ==> fired[i].0 != fired[i].1)
    && (forall i :: 0 <= i < |fired| - 1 ==> fired[i].1 == fired[i + 1].0)
  }

  lemma ChangesChained(steady: seq<string>)
    requires forall l :: l in steady ==> l != ""
    requires forall i :: 0 <= i < |steady| - 1 ==> steady[i] != steady[i + 1]
    ensures Chained(Changes(steady))
  {
    var fired := Changes(steady);
    AlertsChain(steady);
    forall i | 0 <= i < |fired| ensures fired[i].0 != fired[i].1 {
      assert steady[i] != steady[i + 1];
    }
    forall i | 0 <= i < |fired| - 1 ensures fired[i].1 == fired[i + 1].0 {
      assert fired[i] == (steady[i], steady[i + 1]) && fired[i + 1] == (steady[i + 1], steady[i + 2]);
    }
  }

  /** So with non-empty labels the alerts fired over a run chain, old to new. */
  lemma AlertsChainOverRuns(events: seq<AlertEvent>)
    requires forall l :: l in Labels(events) ==> l != ""
    ensures Chained(AlertRun(events).recorded + AlertRun(events).queue)
  {
    AlertsAreChanges(events);
    StutterFreeIsStutterFree(Labels(events));
    ChangesChained(StutterFree(Labels(events)));
  }

  class AlertCentre {
    var lastNotifiedRegime: string
    var ring: seq<Alert>
    var queue: seq<Transition>
    ghost var recorded: seq<Transition>

    ghost function View(): Alerts
      reads this
    {
      Alerts(lastNotifiedRegime, queue, ring, recorded)
    }

    constructor ()
      ensures View() == NO_ALERTS
    {
      lastNotifiedRegime, ring, queue, recorded := "", [], [], [];
    }

    /** The transition check of one payload. */
    method ObserveRegime(regime: string)
      modifies `lastNotifiedRegime, `queue
      ensures View() == AlertStep(old(View()), Observe(regime))
    {
      if lastNotifiedRegime != "" && regime != lastNotifiedRegime {
        queue := queue + [(lastNotifiedRegime, regime)];
      }
      lastNotifiedRegime := regime;
    }

    /** The event loop starts the oldest alert task; it records before it first awaits. */
    method RunNextTask()
      modifies `ring, `queue, `recorded
      ensures View() == AlertStep(old(View()), RunTask)
    {
      if queue == [] { return; }
      RecordRegimeAlert(queue[0].0, queue[0].1);
      recorded := recorded + [queue[0]];
      queue := queue[1..];
    }

    method RecordRegimeAlert(oldRegime: string, newRegime: string)
      modifies `ring
      ensures ring == Pushed(old(ring), AlertOf((oldRegime, newRegime)))
      ensures |old(ring)| <= RING_MAX ==> |ring| <= RING_MAX
    {
      ring := [Alert(oldRegime, newRegime, Contains(newRegime, "CRISIS"))] + ring;
      if |ring| > RING_MAX {
        ring := ring[..|ring| - 1];
      }
    }
  }

  // ---- The collector task --------------------------------------------------------------------

  datatype TaskState = Running | CancelRequested | Finished

  /** The two globals, the tasks ever created, and the streams opened and finalised. */
  datatype Collector = Collector(count: int, task: Option<nat>, tasks: seq<TaskState>,
                                 started: set<nat>, finalised: set<nat>)

  datatype StreamEvent = Open(stream: nat) | Finalise(stream: nat) | TaskEnds(task: nat)

  const IDLE := Collector(0, None, [], {}, {})

  /** A stream is opened once and finalised once, after it was opened. */
  predicate Possible(s: Collector, e: StreamEvent) {
    match e
    case Open(i) => i !in s.started
    case Finalise(i) => i in s.started - s.finalised
    case TaskEnds(t) => t < |s.tasks|
  }

  function CollectorStep(s: Collector, e: StreamEvent): Collector
    requires Possible(s, e)
  {
    match e
    case Open(i) =>
      var more := s.(count := s.count + 1, started := s.started + {i});
      if s.task.None? || (s.task.value < |s.tasks| && s.tasks[s.task.value].Finished?)
      then more.(task := Some(|s.tasks|), tasks := s.tasks + [Running])
      else more
    case Finalise(i) =>
      var count := if s.count - 1 > 0 then s.count - 1 else 0;
      var fewer := s.(count := count, finalised := s.finalised + {i});
      if count == 0 && s.task.Some? then fewer.(task := None, tasks := Cancelled(s.tasks, s.task.value)) else fewer
    case TaskEnds(t) => s.(tasks := s.tasks[t := Finished])
  }

  function Cancelled(tasks: seq<TaskState>, t: nat): seq<TaskState> {
    if t < |tasks| && tasks[t].Running? then tasks[t := CancelRequested] else tasks
  }

  ghost predicate CollectorInv(s: Collector) {
    && s.finalised <= s.started
    && s.count == |s.started| - |s.finalised|
    && (s.task.Some? <==> s.count > 0)
    && (s.task.Some? ==> s.task.value < |s.tasks| && !s.tasks[s.task.value].CancelRequested?)
    && (forall t :: 0 <= t < |s.tasks| && s.tasks[t].Running? ==> s.task == Some(t))
  }

  ghost predicate Plays(s: Collector, events: seq<StreamEvent>)
    decreases |events|
  {
    events == [] || (Possible(s, events[0]) && Plays(CollectorStep(s, events[0]), events[1..]))
  }

  function Play(s: Collector, events: seq<StreamEvent>): Collector
    requires Plays(s, events)
    decreases |events|
  {
    if events == [] then s else Play(CollectorStep(s, events[0]), events[1..])
  }

  lemma SubsetSmaller(a: set<nat>, b: set<nat>)
    requires a <= b
    ensures |b - a| == |b| - |a|
  {
    assert b == a + (b - a);
  }

  lemma CollectorStepKeepsInv(s: Collector, e: StreamEvent)
    requires CollectorInv(s) && Possible(s, e)
    ensures CollectorInv(CollectorStep(s, e))
    ensures e.Finalise? ==> s.count >= 1
  {
    SubsetSmaller(s.finalised, s.started);
    if e.Finalise? {
      assert e.stream in s.started - s.finalised;
      assert |s.finalised + {e.stream}| == |s.finalised| + 1;
    }
  }

  lemma {:induction false} PlayKeepsInv(s: Collector, events: seq<StreamEvent>)
    requires CollectorInv(s) && Plays(s, events)
    ensures CollectorInv(Play(s, events))
    decreases |events|
  {
    if events != [] {
      CollectorStepKeepsInv(s, events[0]);
      PlayKeepsInv(CollectorStep(s, events[0]), events[1..]);
    }
  }

  /** Over any run in which every stream is finalised at most once: the count is the number of live
      streams and the clip at zero never bites; the task variable is set exactly while someone is
      connected; and the only task that can be running without a cancel request is the one it names. */
  lemma CollectorLifecycle(events: seq<StreamEvent>)
    requires Plays(IDLE, events)
    ensures var end := Play(IDLE, events);
            && end.count == |end.started - end.finalised|
            && (end.task.Some? <==> end.started != end.finalised)
            && (forall t :: 0 <= t < |end.tasks| && end.tasks[t].Running? ==> end.task == Some(t))
            && (forall i :: Possible(end, Finalise(i)) ==> CollectorStep(end, Finalise(i)).count == end.count - 1)
  {
    PlayKeepsInv(IDLE, events);
    var end := Play(IDLE, events);
    SubsetSmaller(end.finalised, end.started);
    assert end.started - end.finalised == {} ==> end.started == end.finalised;
    forall i | Possible(end, Finalise(i)) ensures CollectorStep(end, Finalise(i)).count == end.count - 1 {
      CollectorStepKeepsInv(end, Finalise(i));
    }
  }

  /** Whoever connects finds a running collector, also after the last one has ended on its own. */
  lemma OpenFindsCollector(s: Collector, i: nat)
    requires CollectorInv(s) && Possible(s, Open(i))
    ensures var s' := CollectorStep(s, Open(i));
            && s'.task.Some? && s'.task.value < |s'.tasks| && s'.tasks[s'.task.value].Running?
            && |s'.tasks| <= |s.tasks| + 1 && s'.tasks[..|s.tasks|] == s.tasks
            && (s.task.Some? && s.tasks[s.task.value].Running? ==> s'.task == s.task && s'.tasks == s.tasks)
  {
  }

  lemma LastLive(s: Collector, i: nat)
    requires CollectorInv(s) && i in s.started - s.finalised
    ensures s.count == 1 <==> s.started - s.finalised == {i}
  {
    SubsetSmaller(s.finalised, s.started);
    var live := s.started - s.finalised;
    if |live| == 1 {
      assert |live - {i}| == 0;
      assert live - {i} == {};
    }
  }

  /** Whoever leaves last asks the running collector to stop; everyone else leaves it running. */
  lemma LastOneStopsCollector(s: Collector, i: nat)
    requires CollectorInv(s) && Possible(s, Finalise(i)) && s.task.Some?
    ensures var s', t := CollectorStep(s, Finalise(i)), s.task.value;
            if s.started - s.finalised == {i}
            then s'.task == None && s'.tasks == if s.tasks[t].Running? then s.tasks[t := CancelRequested] else s.tasks
            else s'.task == s.task && s'.tasks == s.tasks
  {
    LastLive(s, i);
  }

  /** A stream that is opened but whose generator never runs is never finalised, and from then on the
      collector is never cancelled. */
  lemma {:induction false} UnstartedStreamKeepsCollector(s: Collector, events: seq<StreamEvent>, i: nat)
    requires CollectorInv(s) && Plays(s, events) && i in s.started - s.finalised
    requires Finalise(i) !in events
    ensures Play(s, events).task.Some?
    decreases |events|
  {
    if events == [] {
      SubsetSmaller(s.finalised, s.started);
      assert i in s.started - s.finalised;
    } else {
      CollectorStepKeepsInv(s, events[0]);
      assert events[0] in events;
      UnstartedStreamKeepsCollector(CollectorStep(s, events[0]), events[1..], i);
    }
  }

  class CollectorLife {
    var count: int
    var task: Option<nat>
    var tasks: seq<TaskState>
    ghost var started: set<nat>
    ghost var finalised: set<nat>

    ghost function View(): Collector
      reads this
    {
      Collector(count, task, tasks, started, finalised)
    }

    constructor ()
      ensures View() == IDLE
    {
      count, task, tasks, started, finalised := 0, None, [], {}, {};
    }

    /** intelligence_stream, up to the response it returns. */
    method OpenStream(stream: nat)
      requires Possible(View(), Open(stream))
      modifies this
      ensures View() == CollectorStep(old(View()), Open(stream))
    {
      count := count + 1;
      if task.None? || (task.value < |tasks| && tasks[task.value].Finished?) {
        task, tasks := Some(|tasks|), tasks + [Running];
      }
      started := started + {stream};
    }

    method OnSseDisconnect(stream: nat)
      requires Possible(View(), Finalise(stream))
      modifies this
      ensures View() == CollectorStep(old(View()), Finalise(stream))
    {
      count := if count - 1 > 0 then count - 1 else 0;
      if count == 0 && task.Some? {
        tasks := Cancelled(tasks, task.value);
        task := None;
      }
      finalised := finalised + {stream};
    }
  }
}
