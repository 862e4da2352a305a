/**
  The status detector of the chat view.  Backend events, a periodic timer and the analysis of
  streamed content all update one current status and append to one history.

  Which status a text matches (regular expressions) is an arbitrary answer from outside.
*/
module StatusDetector {

  datatype Status =
    | Thinking | Routing | Checking | Finding | Loading
    | Swapping | Transferring | CheckingBalance | ComplianceCheck
    | TeeVerification | KycCheck | RouteFinding | Error | Idle

  /** Backend operation names; an unknown one means loading. */
  function MapOperation(operation: string): Status {
    match operation
    case "swapping" => Swapping
    case "transferring" => Transferring
    case "checking_balance" => CheckingBalance
    case "compliance_check" => ComplianceCheck
    case "tee_verification" => TeeVerification
    case "kyc_check" => KycCheck
    case "route_finding" => RouteFinding
    case "error" => Error
    case "idle" => Idle
    case _ => Loading
  }

  /** The operations that have a status of their own; any other one shows as loading. */
  lemma OperationsAre(operation: string)
    ensures operation == "swapping" <==> MapOperation(operation) == Swapping
    ensures operation == "transferring" <==> MapOperation(operation) == Transferring
    ensures operation == "checking_balance" <==> MapOperation(operation) == CheckingBalance
    ensures operation == "compliance_check" <==> MapOperation(operation) == ComplianceCheck
    ensures operation == "tee_verification" <==> MapOperation(operation) == TeeVerification
    ensures operation == "kyc_check" <==> MapOperation(operation) == KycCheck
    ensures operation == "route_finding" <==> MapOperation(operation) == RouteFinding
    ensures operation == "error" <==> MapOperation(operation) == Error
    ensures operation == "idle" <==> MapOperation(operation) == Idle
    ensures MapOperation(operation) !in {Thinking, Routing, Checking, Finding}
  {
  }

  datatype Thresholds = Thresholds(thinking: int, routing: int, checking: int, finding: int)

  function FromTiming(t: Thresholds, elapsed: int): Status {
    if elapsed < t.thinking then Thinking
    else if elapsed < t.routing then Routing
    else if elapsed < t.checking then Checking
    else if elapsed < t.finding then Finding
    else Loading
  }

  function Stage(s: Status): int {
    match s case Thinking => 1 case Routing => 2 case Checking => 3 case Finding => 4 case Loading => 5 case _ => 0
  }

  datatype State = State(last: Status, history: seq<Status>, startTime: int, connected: bool, enabled: bool)

  datatype Event =
    | Backend(operation: string)
    | Tick(now: int)
    | Content(detected: Status, now: int)
    | Connection(connected: bool)
    | Start(now: int)
    | Reset
    | SetEnabled(enabled: bool)

  function Enter(s: State, status: Status): State {
    if status != s.last then s.(last := status, history := s.history + [status]) else s
  }

  /** What content analysis decides, and whether it records the decision. */
  function Decide(t: Thresholds, s: State, detected: Status, now: int): Status {
    if s.connected && s.enabled && detected != Idle then detected
    else if s.connected && s.enabled then s.last
    else if detected != Idle then detected
    else FromTiming(t, now - s.startTime)
  }

  function ShouldUpdate(s: State, status: Status, detected: Status): bool {
    status != s.last || (detected != Idle && detected != s.last && s.connected)
  }

  function Step(t: Thresholds, s: State, e: Event): State {
    match e
    case Backend(op) => Enter(s, MapOperation(op))
    case Tick(now) => if s.connected && s.enabled then s else Enter(s, FromTiming(t, now - s.startTime))
    case Content(detected, now) =>
      var status := Decide(t, s, detected, now);
      if ShouldUpdate(s, status, detected) then s.(last := status, history := s.history + [status]) else s
    case Connection(connected) => s.(connected := connected)
    case Start(now) => s.(startTime := now, last := Idle, history := [])
    case Reset => s.(startTime := 0, last := Idle, history := [], connected := false)
    case SetEnabled(enabled) => if enabled == s.enabled then s else if enabled then s.(enabled := true) else s.(enabled := false, connected := false)
  }

  function Run(t: Thresholds, s: State, events: seq<Event>): State {
    if events == [] then s else Step(t, Run(t, s, events[..|events| - 1]), events[|events| - 1])
  }

  /** The current status is the last one recorded, and no status is recorded twice in a row. */
  ghost predicate Faithful(s: State) {
    && s.last == (if s.history == [] then Idle else s.history[|s.history| - 1])
    && (s.history != [] ==> s.history[0] != Idle)
    && forall i :: 0 < i < |s.history| ==> s.history[i - 1] != s.history[i]
  }

  /** The second disjunct of the update test decides nothing: whenever it holds, so does the first. */
  lemma SecondDisjunctIsRedundant(t: Thresholds, s: State, detected: Status, now: int)
    ensures ShouldUpdate(s, Decide(t, s, detected, now), detected) <==> Decide(t, s, detected, now) != s.last
  {
  }

  lemma AnotherStatus(s: State, status: Status)
    requires Faithful(s) && status != s.last
    ensures Faithful(s.(last := status, history := s.history + [status]))
  {
  }

  lemma StepIsFaithful(t: Thresholds, s: State, e: Event)
    requires Faithful(s)
    ensures Faithful(Step(t, s, e))
  {
    match e
    case Backend(op) => if MapOperation(op) != s.last { AnotherStatus(s, MapOperation(op)); }
    case Tick(now) =>
      var status := FromTiming(t, now - s.startTime);
      if status != s.last { AnotherStatus(s, status); }
    case Content(detected, now) =>
      var status := Decide(t, s, detected, now);
      SecondDisjunctIsRedundant(t, s, detected, now);
      if status != s.last { AnotherStatus(s, status); }
    case _ =>
  }

  lemma {:induction false} HistoryIsFaithful(t: Thresholds, s: State, events: seq<Event>)
    requires Faithful(s)
    ensures Faithful(Run(t, s, events))
  {
    if events == [] {
    } else {
      var before := events[..|events| - 1];
      HistoryIsFaithful(t, s, before);
      StepIsFaithful(t, Run(t, s, before), events[|events| - 1]);
    }
  }

  /** The timer's guess for thresholds in order: how many of them have passed. */
  lemma TimingIs(t: Thresholds, elapsed: int)
    requires t.thinking <= t.routing <= t.checking <= t.finding
    ensures var guess := FromTiming(t, elapsed);
      && (guess == Thinking <==> elapsed < t.thinking)
      && (guess == Routing <==> t.thinking <= elapsed < t.routing)
      && (guess == Checking <==> t.routing <= elapsed < t.checking)
      && (guess == Finding <==> t.checking <= elapsed < t.finding)
      && (guess == Loading <==> t.finding <= elapsed)
  {
  }

  /** The controls: disabling backend events disconnects them, enabling does not connect; a session starts
      with an empty history, and so does a reset, which also disconnects. */
  lemma ControlsDo(t: Thresholds, s: State, enabled: bool, connected: bool, now: int)
    ensures var r := Step(t, s, SetEnabled(enabled));
      && r.enabled == enabled && r.last == s.last && r.history == s.history && r.startTime == s.startTime
      && (enabled || !s.enabled ==> r.connected == s.connected) && (!enabled && s.enabled ==> !r.connected)
    ensures Step(t, s, Connection(connected)) == s.(connected := connected)
    ensures Step(t, s, Start(now)) == State(Idle, [], now, s.connected, s.enabled)
    ensures Step(t, s, Reset) == State(Idle, [], 0, false, s.enabled)
  {
  }

  /** What shows after some content: what it matched; without a match nothing new while backend events
      are followed, and the timer's guess otherwise.  It is recorded if it is a change. */
  lemma ContentShows(t: Thresholds, s: State, detected: Status, now: int)
    ensures var r := Step(t, s, Content(detected, now));
      && (detected != Idle ==> r.last == detected)
      && (detected == Idle && s.connected && s.enabled ==> r == s)
      && (detected == Idle && !(s.connected && s.enabled) ==> r.last == FromTiming(t, now - s.startTime))
      && r.history == s.history + if r.last == s.last then [] else [r.last]
  {
    SecondDisjunctIsRedundant(t, s, detected, now);
    assert s.history + [] == s.history;
  }

  /** The timer's guess never moves back, whatever the thresholds are. */
  lemma TimingAdvances(t: Thresholds, e: int, e': int)
    requires e <= e'
    ensures 1 <= Stage(FromTiming(t, e)) <= Stage(FromTiming(t, e'))
  {
  }

  ghost predicate Ticks(events: seq<Event>) {
    && (forall i :: 0 <= i < |events| ==> events[i].Tick?)
    && (forall i, j :: 0 <= i < j < |events| ==> events[i].now <= events[j].now)
  }

  ghost predicate Climbs(history: seq<Status>) {
    forall i, j :: 0 <= i < j < |history| ==> Stage(history[i]) < Stage(history[j])
  }

  /** A history that climbs, no longer than the stage of the current status, its last entry. */
  ghost predicate Climbed(s: State) {
    Climbs(s.history) && |s.history| <= Stage(s.last) && s.last == (if s.history == [] then Idle else s.history[|s.history| - 1])
  }

  /** One tick, no earlier than the last, extends a climb by at most one higher stage. */
  lemma TickClimbs(t: Thresholds, s: State, now: int)
    requires Climbed(s)
    requires s.history != [] ==> Stage(s.last) <= Stage(FromTiming(t, now - s.startTime))
    ensures var r := Step(t, s, Tick(now));
      && Climbed(r)
      && (s.connected && s.enabled ==> r == s)
      && (!(s.connected && s.enabled) ==> r.history != [] && r.last == FromTiming(t, now - s.startTime))
  {
    var next := FromTiming(t, now - s.startTime);
    TimingAdvances(t, now - s.startTime, now - s.startTime);
    if next != s.last {
      assert s.history != [] ==> Stage(s.last) < Stage(next);
      NextStage(s.history, next);
    }
  }

  lemma NextStage(history: seq<Status>, next: Status)
    requires Climbs(history) && (history != [] ==> Stage(history[|history| - 1]) < Stage(next))
    ensures Climbs(history + [next])
  {
    forall i | 0 <= i < |history| ensures Stage(history[i]) < Stage(next) {
      assert i == |history| - 1 || Stage(history[i]) < Stage(history[|history| - 1]);
    }
  }

  /** With the timer alone the history climbs strictly through the stages: at most five entries. */
  lemma {:induction false} TimerHistoryClimbs(t: Thresholds, s: State, events: seq<Event>)
    requires Ticks(events) && s.last == Idle && s.history == []
    ensures var r := Run(t, s, events);
      && Climbed(r) && |r.history| <= 5
      && r.startTime == s.startTime && r.connected == s.connected && r.enabled == s.enabled
    ensures events != [] ==>
      var r := Run(t, s, events);
      if s.connected && s.enabled then r.history == [] else r.history != [] && r.last == FromTiming(t, events[|events| - 1].now - s.startTime)
  {
    if events == [] {
    } else {
      var n := |events| - 1;
      TimerHistoryClimbs(t, s, events[..n]);
      if n > 0 { TimingAdvances(t, events[n - 1].now - s.startTime, events[n].now - s.startTime); }
      TickClimbs(t, Run(t, s, events[..n]), events[n].now);
    }
  }

  class LLMStatusDetector {
    const thresholds: Thresholds
    var startTime: int
    var lastStatus: Status
    var statusHistory: seq<Status>
    var realTimeEnabled: bool
    var isRealTimeConnected: bool

    ghost function View(): State
      reads this
    {
      State(lastStatus, statusHistory, startTime, isRealTimeConnected, realTimeEnabled)
    }

    constructor (thresholds: Thresholds)
      ensures Faithful(View()) && this.thresholds == thresholds
    {
      this.thresholds := thresholds;
      startTime, lastStatus, statusHistory, realTimeEnabled, isRealTimeConnected := 0, Idle, [], true, false;
    }

    method HandleRealTimeStatusEvent(operation: string)
      requires Faithful(View())
      modifies this`lastStatus, this`statusHistory
      ensures View() == Step(thresholds, old(View()), Backend(operation)) && Faithful(View())
    {
      StepIsFaithful(thresholds, View(), Backend(operation));
      var status := MapOperation(operation);
      if status != lastStatus {
        lastStatus, statusHistory := status, statusHistory + [status];
      }
    }

    method PeriodicUpdate(now: int)
      requires Faithful(View())
      modifies this`lastStatus, this`statusHistory
      ensures View() == Step(thresholds, old(View()), Tick(now)) && Faithful(View())
    {
      StepIsFaithful(thresholds, View(), Tick(now));
      if isRealTimeConnected && realTimeEnabled { return; }
      var heuristic := FromTiming(thresholds, now - startTime);
      if heuristic != lastStatus {
        lastStatus, statusHistory := heuristic, statusHistory + [heuristic];
      }
    }

    method AnalyzeContent(detected: Status, now: int) returns (status: Status)
      requires Faithful(View())
      modifies this`lastStatus, this`statusHistory
      ensures View() == Step(thresholds, old(View()), Content(detected, now)) && Faithful(View())
      ensures status == lastStatus
    {
      StepIsFaithful(thresholds, View(), Content(detected, now));
      var heuristic := FromTiming(thresholds, now - startTime);
      if isRealTimeConnected && realTimeEnabled && detected != Idle {
        status := detected;
      } else if isRealTimeConnected && realTimeEnabled {
        status := lastStatus;
      } else {
        status := if detected != Idle then detected else heuristic;
      }
      if status != lastStatus || (detected != Idle && detected != lastStatus && isRealTimeConnected) {
        lastStatus, statusHistory := status, statusHistory + [status];
        return status;
      }
      status := lastStatus;
    }

    method OnConnectionChange(connected: bool)
      requires Faithful(View())
      modifies this`isRealTimeConnected
      ensures View() == Step(thresholds, old(View()), Connection(connected)) && Faithful(View())
    {
      isRealTimeConnected := connected;
    }

    method SetRealTimeEnabled(enabled: bool)
      requires Faithful(View())
      modifies this`realTimeEnabled, this`isRealTimeConnected
      ensures View() == Step(thresholds, old(View()), SetEnabled(enabled)) && Faithful(View())
    {
      if realTimeEnabled == enabled { return; }
      realTimeEnabled := enabled;
      if !enabled { isRealTimeConnected := false; }
    }

    method StartSession(now: int)
      modifies this`startTime, this`lastStatus, this`statusHistory
      ensures View() == Step(thresholds, old(View()), Start(now)) && Faithful(View())
    {
      startTime, lastStatus, statusHistory := now, Idle, [];
    }

    method ResetState()
      modifies this`startTime, this`lastStatus, this`statusHistory, this`isRealTimeConnected
      ensures View() == Step(thresholds, old(View()), Reset) && Faithful(View())
    {
      startTime, lastStatus, statusHistory, isRealTimeConnected := 0, Idle, [], false;
    }
  }
}
