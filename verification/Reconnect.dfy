/**
  The connection to the status stream: an EventSource, its handlers, and a reconnect timer
  with growing delays.

  `connect` replaces the current EventSource without closing the one before, so any number of
  sources may be alive and call the handlers; the model keeps them all.
*/
module Reconnect {
  import opened Common

  const MAX_ATTEMPTS := 5
  const BASE_DELAY := 2000.0
  const DELAY_CAP := 30000.0

  datatype ReadyState = Connecting | Open | Closed

  /** `scheduled` and `delays` are bookkeeping: the pending timeouts, and what was scheduled since
      the last open or disconnect. */
  datatype Service = Service(
    connected: bool, attempts: nat, timer: bool,
    current: Option<nat>, sources: map<nat, ReadyState>, nextId: nat,
    pending: int, delays: seq<real>)

  const FRESH := Service(false, 0, false, None, map[], 0, 0, [])

  function Power(attempts: nat): real {
    if attempts == 0 then 1.0 else 1.5 * Power(attempts - 1)
  }

  function Delay(attempts: nat): real {
    BASE_DELAY * Power(attempts)
  }

  function Capped(delay: real): real {
    if delay < DELAY_CAP then delay else DELAY_CAP
  }

  function Connect(s: Service): Service {
    if s.current.Some? && s.current.value in s.sources && s.sources[s.current.value] == Open then s
    else s.(current := Some(s.nextId), sources := s.sources[s.nextId := Connecting], nextId := s.nextId + 1)
  }

  function ScheduleReconnect(s: Service): Service {
    if s.timer || s.attempts >= MAX_ATTEMPTS then s
    else s.(timer := true, pending := s.pending + 1, delays := s.delays + [Capped(Delay(s.attempts))])
  }

  function Disconnect(s: Service): Service {
    s.(timer := false, pending := if s.timer then s.pending - 1 else s.pending,
       sources := if s.current.Some? && s.current.value in s.sources then s.sources[s.current.value := Closed] else s.sources,
       current := None, connected := false, attempts := 0, delays := [])
  }

  /** Browser events come from sources that are not closed; a fatal error closes its source. */
  datatype Event =
    | ConnectCalled
    | Opened(source: nat)
    | Received(source: nat)
    | Failed(source: nat, fatal: bool)
    | TimerFired
    | DisconnectCalled

  predicate Alive(s: Service, id: nat) {
    id in s.sources && s.sources[id] != Closed
  }

  function Step(s: Service, e: Event): Service {
    match e
    case ConnectCalled => Connect(s)
    case Opened(id) =>
      if !Alive(s, id) then s
      else s.(sources := s.sources[id := Open], connected := true, attempts := 0, delays := [])
    case Received(id) => if !Alive(s, id) then s else s.(connected := true)
    case Failed(id, fatal) =>
      if !Alive(s, id) then s
      else ScheduleReconnect(s.(sources := s.sources[id := if fatal then Closed else Connecting],
                                connected := false, attempts := s.attempts + 1))
    case TimerFired => if s.pending <= 0 then s else Connect(s.(timer := false, pending := s.pending - 1))
    case DisconnectCalled => Disconnect(s)
  }

  function Run(events: seq<Event>): Service {
    if events == [] then FRESH else Step(Run(events[..|events| - 1]), events[|events| - 1])
  }

  // ---------------------------------------------------------------------------
  // The schedule
  // ---------------------------------------------------------------------------

  ghost predicate Growing(delays: seq<real>) {
    forall i, j :: 0 <= i < j < |delays| ==> delays[i] < delays[j]
  }

  /** Each delay belongs to an attempt number of its own, at least its position plus one and no
      more than the current count. */
  ghost predicate Scheduled(s: Service) {
    && s.pending == (if s.timer then 1 else 0)
    && |s.delays| <= s.attempts
    && |s.delays| < MAX_ATTEMPTS
    && Growing(s.delays)
    && (s.delays != [] ==>
        && s.delays[|s.delays| - 1] <= Delay(if s.attempts < MAX_ATTEMPTS then s.attempts else MAX_ATTEMPTS - 1)
        && s.delays[0] >= Delay(1))
  }

  lemma Delays()
    ensures Delay(1) == 3000.0 && Delay(2) == 4500.0 && Delay(3) == 6750.0 && Delay(4) == 10125.0
  {
  }

  lemma DelayGrows(attempts: nat)
    ensures 0.0 < Delay(attempts) < Delay(attempts + 1)
  {
    PowerPositive(attempts);
  }

  lemma {:induction false} PowerPositive(attempts: nat)
    ensures Power(attempts) > 0.0
  {
    if attempts == 0 {
    } else {
      PowerPositive(attempts - 1);
    }
  }

  lemma AnotherDelay(delays: seq<real>, d: real)
    requires Growing(delays) && (delays != [] ==> delays[|delays| - 1] < d)
    ensures Growing(delays + [d])
  {
  }

  /** An error of a live source counts as one more attempt and schedules a reconnect exactly if none is
      pending and it is not the fifth; the delays are 3, 4.5, 6.75 and 10.125 seconds. */
  lemma ErrorSchedulesIff(s: Service, id: nat, fatal: bool)
    requires Alive(s, id)
    ensures var r := Step(s, Failed(id, fatal));
      && r.attempts == s.attempts + 1 && !r.connected && r.current == s.current
      && r.sources == s.sources[id := if fatal then Closed else Connecting]
      && (!s.timer && s.attempts + 1 < 5 ==> r.timer && r.pending == s.pending + 1 && |r.delays| == |s.delays| + 1)
      && (s.timer || s.attempts + 1 >= 5 ==> r.timer == s.timer && r.pending == s.pending && r.delays == s.delays)
    ensures var r := Step(s, Failed(id, fatal));
      !s.timer && s.attempts + 1 < 5 ==>
        r.delays == s.delays + [if s.attempts == 0 then 3000.0 else if s.attempts == 1 then 4500.0
                                else if s.attempts == 2 then 6750.0 else 10125.0]
  {
    Delays();
  }

  /** What the other events do to a live source, and what connecting and disconnecting do. */
  lemma HandlersDo(s: Service, id: nat)
    ensures Alive(s, id) ==>
      var r := Step(s, Opened(id));
      r == s.(sources := s.sources[id := Open], connected := true, attempts := 0, delays := [])
    ensures Alive(s, id) ==> Step(s, Received(id)) == s.(connected := true)
    ensures var r := Step(s, ConnectCalled);
      if s.current.Some? && s.current.value in s.sources && s.sources[s.current.value] == Open then r == s
      else r.current == Some(s.nextId) && r.nextId == s.nextId + 1 && r.sources == s.sources[s.nextId := Connecting]
    ensures var r := Step(s, DisconnectCalled);
      && !r.connected && r.attempts == 0 && !r.timer && r.current == None
      && (s.current.Some? && s.current.value in s.sources ==> r.sources == s.sources[s.current.value := Closed])
  {
  }

  lemma ErrorKeepsSchedule(s: Service)
    requires s.attempts > 0 && Scheduled(s.(attempts := s.attempts - 1))
    ensures Scheduled(ScheduleReconnect(s))
  {
    Delays();
    if s.attempts < MAX_ATTEMPTS {
      DelayGrows(s.attempts - 1);
      if !s.timer { AnotherDelay(s.delays, Delay(s.attempts)); }
    }
  }

  lemma OtherStepsKeepSchedule(s: Service, e: Event)
    requires Scheduled(s) && !e.Failed?
    ensures Scheduled(Step(s, e))
  {
  }

  lemma StepKeepsSchedule(s: Service, e: Event)
    requires Scheduled(s)
    ensures Scheduled(Step(s, e))
  {
    match e
    case Failed(id, fatal) =>
      if Alive(s, id) {
        ErrorKeepsSchedule(s.(sources := s.sources[id := if fatal then Closed else Connecting],
                              connected := false, attempts := s.attempts + 1));
      }
    case _ => OtherStepsKeepSchedule(s, e);
  }

  lemma {:induction false} RunKeepsSchedule(events: seq<Event>)
    ensures Scheduled(Run(events))
  {
    if events == [] {
    } else {
      RunKeepsSchedule(events[..|events| - 1]);
      StepKeepsSchedule(Run(events[..|events| - 1]), events[|events| - 1]);
    }
  }

  /**
    In every run there is at most one pending reconnect timer, and it is the one the service
    knows of.  Since the last open or disconnect at most four reconnects were scheduled, with
    strictly growing delays from 3 seconds to 10.125, so the 30-second cap never applies.
  */
  lemma ScheduleBounded(events: seq<Event>)
    ensures var s := Run(events);
      && s.pending == (if s.timer then 1 else 0)
      && |s.delays| <= 4
      && Growing(s.delays)
      && (forall d :: d in s.delays ==> 3000.0 <= d <= 10125.0 < DELAY_CAP == 30000.0)
  {
    RunKeepsSchedule(events);
    DelaysInRange(Run(events));
    Delays();
  }

  lemma DelaysInRange(s: Service)
    requires Scheduled(s)
    ensures forall d :: d in s.delays ==> Delay(1) <= d <= Delay(4) < DELAY_CAP
  {
    Delays();
    forall d | d in s.delays ensures Delay(1) <= d <= Delay(4) {
      var i :| 0 <= i < |s.delays| && s.delays[i] == d;
      assert s.delays[0] <= d <= s.delays[|s.delays| - 1];
      assert s.attempts >= 1;
    }
  }

  // ---------------------------------------------------------------------------
  // Disconnecting
  // ---------------------------------------------------------------------------

  /** Neither a connect call nor, therefore, an event of a source made by one. */
  ghost predicate Unattended(events: seq<Event>) {
    forall e :: e in events ==> !e.ConnectCalled?
  }

  function RunFrom(s: Service, events: seq<Event>): Service {
    if events == [] then s else Step(RunFrom(s, events[..|events| - 1]), events[|events| - 1])
  }

  /** The source the service holds is the only one alive. */
  ghost predicate NoStrays(s: Service) {
    forall id: nat :: Alive(s, id) ==> s.current == Some(id)
  }

  ghost predicate Silent(s: Service) {
    !s.connected && !s.timer && s.pending == 0 && forall id: nat :: !Alive(s, id)
  }

  lemma StepStaysSilent(s: Service, e: Event)
    requires Silent(s) && !e.ConnectCalled?
    ensures Silent(Step(s, e))
  {
    forall id: nat ensures !Alive(Step(s, e), id) { assert !Alive(s, id); }
  }

  lemma {:induction false} RunStaysSilent(s: Service, events: seq<Event>)
    requires Silent(s) && Unattended(events)
    ensures Silent(RunFrom(s, events))
  {
    if events == [] {
    } else {
      var before, e := events[..|events| - 1], events[|events| - 1];
      assert forall x :: x in before ==> x in events;
      RunStaysSilent(s, before);
      assert e in events;
      StepStaysSilent(RunFrom(s, before), e);
    }
  }

  /**
    A disconnect silences the service for good (no connection and no timer until the next
    connect call) exactly when no stray source is alive: `connect` never closed the sources it
    replaced, and `disconnect` closes only the current one.
  */
  lemma DisconnectSilencesIff(events: seq<Event>)
    ensures var s := Run(events);
      (forall after :: Unattended(after) ==>
        !RunFrom(Disconnect(s), after).connected && RunFrom(Disconnect(s), after).pending == 0)
      <==> NoStrays(s)
  {
    var s := Run(events);
    var d := Disconnect(s);
    ScheduleBounded(events);
    if NoStrays(s) {
      forall id: nat ensures !Alive(d, id) { assert Alive(s, id) ==> s.current == Some(id); }
      forall after | Unattended(after) ensures !RunFrom(d, after).connected && RunFrom(d, after).pending == 0 {
        RunStaysSilent(d, after);
      }
    } else {
      var id: nat :| Alive(s, id) && s.current != Some(id);
      assert Alive(d, id);
      var stray := [Failed(id, false)];
      assert stray[..0] == [];
      assert RunFrom(d, stray) == Step(d, Failed(id, false));
      assert RunFrom(d, stray).pending == 1;
      assert Unattended(stray);
    }
  }

  /** Sources are numbered as they are made. */
  ghost predicate Numbered(s: Service) {
    forall id: nat :: id in s.sources ==> id < s.nextId
  }

  lemma StepIsNumbered(s: Service, e: Event)
    requires Numbered(s)
    ensures Numbered(Step(s, e))
  {
  }

  lemma {:induction false} RunIsNumbered(events: seq<Event>)
    ensures Numbered(Run(events))
  {
    if events == [] {
    } else {
      RunIsNumbered(events[..|events| - 1]);
      StepIsNumbered(Run(events[..|events| - 1]), events[|events| - 1]);
    }
  }

  predicate Connects(s: Service, e: Event) {
    e.ConnectCalled? || (e.TimerFired? && s.pending > 0)
  }

  /** A step makes a stray exactly by connecting, on a call or by the timer, while the current source
      is alive and not open: still on its first attempt, or being retried by the browser. */
  lemma StrayMadeIff(events: seq<Event>, e: Event)
    requires NoStrays(Run(events))
    ensures var s := Run(events);
      !NoStrays(Step(s, e)) <==>
        Connects(s, e) && s.current.Some? && Alive(s, s.current.value) && s.sources[s.current.value] != Open
  {
    var s := Run(events);
    RunIsNumbered(events);
    var s' := Step(s, e);
    if Connects(s, e) && s.current.Some? && Alive(s, s.current.value) && s.sources[s.current.value] != Open {
      assert Alive(s', s.current.value) && s'.current != s.current;
    } else {
      forall id: nat | Alive(s', id) ensures s'.current == Some(id) {
        assert Alive(s, id) ==> s.current == Some(id);
      }
    }
  }

  /** A stray needs no misuse: one error, one timed reconnect, and the first source, which the
      browser keeps retrying, is still alive beside its replacement. */
  lemma ReconnectLeavesStray()
    ensures !NoStrays(Run([ConnectCalled, Failed(0, false), TimerFired]))
  {
    var a, b, c := ConnectCalled, Failed(0, false), TimerFired;
    RunSnoc([], a);
    RunSnoc([a], b);
    RunSnoc([a, b], c);
    assert [] + [a] == [a] && [a] + [b] == [a, b] && [a, b] + [c] == [a, b, c];
    assert Run([a]).sources == map[0 := Connecting];
    assert Run([a, b]).pending == 1;
    assert Alive(Run([a, b, c]), 0) && Run([a, b, c]).current == Some(1);
  }

  lemma RunSnoc(events: seq<Event>, e: Event)
    ensures Run(events + [e]) == Step(Run(events), e)
  {
    assert (events + [e])[..|events|] == events;
  }

  // ---------------------------------------------------------------------------
  // The service object
  // ---------------------------------------------------------------------------

  class RealTimeStatusService {
    var connected: bool
    var reconnectAttempts: nat
    var reconnectTimer: bool
    var eventSource: Option<nat>
    var sources: map<nat, ReadyState>
    var nextId: nat
    ghost var pending: int
    ghost var delays: seq<real>

    ghost function View(): Service
      reads this
    {
      Service(connected, reconnectAttempts, reconnectTimer, eventSource, sources, nextId, pending, delays)
    }

    constructor ()
      ensures View() == FRESH == Service(false, 0, false, None, map[], 0, 0, [])
    {
      connected, reconnectAttempts, reconnectTimer, eventSource := false, 0, false, None;
      sources, nextId, pending, delays := map[], 0, 0, [];
    }

    method ConnectStream()
      requires Scheduled(View())
      modifies this
      ensures View() == Connect(old(View())) && Scheduled(View())
    {
      if eventSource.Some? && eventSource.value in sources && sources[eventSource.value] == Open { return; }
      eventSource, sources, nextId := Some(nextId), sources[nextId := Connecting], nextId + 1;
    }

    method OnOpen(id: nat)
      requires Scheduled(View()) && Alive(View(), id)
      modifies this
      ensures View() == Step(old(View()), Opened(id)) && Scheduled(View())
    {
      StepKeepsSchedule(View(), Opened(id));
      sources := sources[id := Open];
      connected, reconnectAttempts, delays := true, 0, [];
    }

    /** Messages and heartbeats confirm the connection but do not reset the attempts. */
    method OnMessage(id: nat)
      requires Scheduled(View()) && Alive(View(), id)
      modifies this`connected
      ensures View() == Step(old(View()), Received(id)) && Scheduled(View())
    {
      connected := true;
    }

    method OnError(id: nat, fatal: bool)
      requires Scheduled(View()) && Alive(View(), id)
      modifies this
      ensures View() == Step(old(View()), Failed(id, fatal)) && Scheduled(View())
    {
      StepKeepsSchedule(View(), Failed(id, fatal));
      sources := sources[id := if fatal then Closed else Connecting];
      connected, reconnectAttempts := false, reconnectAttempts + 1;
      if reconnectTimer || reconnectAttempts >= MAX_ATTEMPTS { return; }
      var delay := Delay(reconnectAttempts);
      reconnectTimer, pending, delays := true, pending + 1, delays + [Capped(delay)];
    }

    /** The timeout callback; it runs only while a timeout is pending. */
    method OnTimer()
      requires Scheduled(View()) && pending > 0
      modifies this
      ensures View() == Step(old(View()), TimerFired) && Scheduled(View())
    {
      StepKeepsSchedule(View(), TimerFired);
      reconnectTimer, pending := false, pending - 1;
      ConnectStream();
    }

    method DisconnectStream()
      requires Scheduled(View())
      modifies this
      ensures View() == Disconnect(old(View())) && Scheduled(View())
      ensures pending == 0 && !connected && eventSource == None
    {
      if reconnectTimer { reconnectTimer, pending := false, pending - 1; }
      if eventSource.Some? {
        if eventSource.value in sources { sources := sources[eventSource.value := Closed]; }
        eventSource := None;
      }
      connected, reconnectAttempts, delays := false, 0, [];
    }
  }
}
