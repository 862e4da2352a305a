/**
  The token lifecycle of the chat front end: login, refresh, logout, a refresh timer, and a
  mirror of the state in browser storage.

  Every operation that awaits the server is split at the await; finishing pieces arrive in
  any order, also after a logout or a new login has replaced the state they started from.
  Times are in milliseconds. An expiry that is no number counts as a missing one: both are
  falsy, and both are stored as null.
*/
module AuthService {
  import opened Common

  const REFRESH_MARGIN := 60_000

  /** The empty string stands for a missing field. */
  datatype Tokens = Tokens(access: string, refresh: string, expiresIn: Option<int>, kind: string, tee: bool)

  datatype LoginMethod = Origin | Wallet | ApiKey

  datatype AuthState = AuthState(authenticated: bool, tokens: Option<Tokens>, expiresAt: Option<int>,
                                 via: Option<LoginMethod>, teeVerified: bool)

  const SIGNED_OUT := AuthState(false, None, None, None, false)

  /** The stored item: something that does not parse, or the saved fields. */
  datatype Item = Junk | Saved(tokens: Option<Tokens>, expiresAt: Option<int>, via: Option<LoginMethod>, teeVerified: bool)

  datatype Timer = Timer(armedAt: int, fireAt: int)

  /** The client, the storage slot it writes, and the timeouts the browser still holds. */
  datatype Client = Client(state: AuthState, handle: Option<nat>, storage: Option<Item>, timers: map<nat, Timer>, nextId: nat)

  // ---------------------------------------------------------------------------
  // Operations
  // ---------------------------------------------------------------------------

  /** `saveToStorage` */
  function Projection(st: AuthState): Option<Item> {
    if st.authenticated && st.tokens.Some? then Some(Saved(st.tokens, st.expiresAt, st.via, st.teeVerified)) else None
  }

  function SetState(c: Client, st: AuthState): Client {
    c.(state := st, storage := Projection(st))
  }

  function Cancel(timers: map<nat, Timer>, handle: Option<nat>): map<nat, Timer> {
    if handle.Some? then timers - {handle.value} else timers
  }

  function ClearState(c: Client): Client {
    SetState(c.(timers := Cancel(c.timers, c.handle), handle := None), SIGNED_OUT)
  }

  function Max(a: int, b: int): int { if a < b then b else a }

  const TWO_TO_THE_31 := 0x8000_0000
  const TWO_TO_THE_32 := 0x1_0000_0000

  /** `setTimeout` takes its delay as a signed 32-bit number, and a negative one as 0. */
  function Timeout(delay: int): int {
    var wrapped := delay % TWO_TO_THE_32;
    if wrapped < TWO_TO_THE_31 then wrapped else 0
  }

  function ScheduleRefresh(c: Client, now: int): Client {
    var timers := Cancel(c.timers, c.handle);
    if c.state.expiresAt.None? || c.state.expiresAt.value == 0 then c.(timers := timers)
    else
      var delay := Max(0, c.state.expiresAt.value - now - REFRESH_MARGIN);
      c.(timers := timers[c.nextId := Timer(now, now + Timeout(delay))], handle := Some(c.nextId), nextId := c.nextId + 1)
  }

  datatype LoginAnswer = LoginOk(tokens: Tokens) | LoginFailed

  datatype RefreshAnswer = RefreshOk(access: string, expiresIn: Option<int>) | RefreshFailed

  function Expiry(now: int, expiresIn: Option<int>): Option<int> {
    match expiresIn
    case None => None
    case Some(seconds) => Some(now + seconds * 1000)
  }

  function LoginFinish(c: Client, answer: LoginAnswer, via: LoginMethod, now: int): Client {
    match answer
    case LoginFailed => ClearState(c)
    case LoginOk(t) =>
      ScheduleRefresh(SetState(c, AuthState(true, Some(t), Expiry(now, t.expiresIn), Some(via), t.tee)), now)
  }

  predicate CanRefresh(c: Client) {
    c.state.tokens.Some? && c.state.tokens.value.refresh != ""
  }

  /** Spreads the answer over whatever tokens are there when it arrives, even none. */
  function RefreshFinish(c: Client, answer: RefreshAnswer, now: int): Client {
    match answer
    case RefreshFailed => ClearState(c)
    case RefreshOk(access, expiresIn) =>
      var tokens := match c.state.tokens
        case Some(t) => t.(access := access, expiresIn := expiresIn)
        case None => Tokens(access, "", expiresIn, "", false);
      ScheduleRefresh(SetState(c, c.state.(tokens := Some(tokens), expiresAt := Expiry(now, expiresIn))), now)
  }

  /** `loadFromStorage`, on a new page: no state, no timers, only the stored item. */
  function Load(storage: Option<Item>, now: int): Client {
    var blank := Client(SIGNED_OUT, None, None, map[], 0);
    match storage
    case None => blank
    case Some(Junk) => blank
    case Some(Saved(tokens, expiresAt, via, tee)) =>
      if tokens.None? || expiresAt.None? || expiresAt.value == 0 then blank
      else if now >= expiresAt.value then blank
      else if tokens.value.access == "" || tokens.value.refresh == "" then blank
      else ScheduleRefresh(Client(AuthState(true, tokens, expiresAt, via, tee), None, storage, map[], 0), now)
  }

  // ---------------------------------------------------------------------------
  // Runs
  // ---------------------------------------------------------------------------

  /**
    The client, the logins and refreshes waiting for the server, and which session each token is
    of. Every successful login begins a session; the pair found in storage is of session 0. A
    waiting refresh is mapped to the session whose refresh token it sent, and so is the access
    token that answers it.
  */
  datatype World = World(client: Client, logins: nat, refreshes: map<nat, nat>, calls: nat,
                         access: nat, refresh: nat, sessions: nat)

  datatype Event =
    | LoginSent
    | LoginAnswered(login: LoginAnswer, via: LoginMethod, at: int)
    | RefreshCalled
    | TimerFired(id: nat)
    | RefreshAnswered(call: nat, answer: RefreshAnswer, at: int)
    | LoggedOut           // the end of `logout`, or `clearStoredData`
    | Reloaded(at: int)

  function StartRefresh(w: World): World {
    if CanRefresh(w.client) then w.(refreshes := w.refreshes[w.calls := w.refresh], calls := w.calls + 1) else w
  }

  function BeginSession(w: World): World {
    w.(access := w.sessions + 1, refresh := w.sessions + 1, sessions := w.sessions + 1)
  }

  function Step(w: World, e: Event): World {
    match e
    case LoginSent => w.(logins := w.logins + 1)
    case LoginAnswered(a, m, at) =>
      if w.logins == 0 then w
      else (if a.LoginOk? then BeginSession(w) else w).(client := LoginFinish(w.client, a, m, at), logins := w.logins - 1)
    case RefreshCalled => StartRefresh(w)
    case TimerFired(id) =>
      if id !in w.client.timers then w
      else StartRefresh(w.(client := w.client.(timers := w.client.timers - {id})))
    case RefreshAnswered(call, a, at) =>
      if call !in w.refreshes then w
      else w.(client := RefreshFinish(w.client, a, at), refreshes := w.refreshes - {call},
              access := if a.RefreshOk? then w.refreshes[call] else w.access)
    case LoggedOut => w.(client := ClearState(w.client))
    case Reloaded(at) => w.(client := Load(w.client.storage, at), logins := 0, refreshes := map[])
  }

  function Run(w: World, events: seq<Event>): World {
    if events == [] then w else Step(Run(w, events[..|events| - 1]), events[|events| - 1])
  }

  /** A page that opens on any stored item whatever. */
  function Opened(storage: Option<Item>, now: int): World {
    World(Load(storage, now), 0, map[], 0, 0, 0, 0)
  }

  predicate SignsIn(w: World, e: Event) {
    e.LoginAnswered? && w.logins > 0 && e.login.LoginOk?
  }

  predicate SignsOut(w: World, e: Event) {
    || e.LoggedOut?
    || (e.LoginAnswered? && w.logins > 0 && e.login.LoginFailed?)
    || (e.RefreshAnswered? && e.call in w.refreshes && e.answer.RefreshFailed?)
  }

  predicate Renews(w: World, e: Event) {
    e.RefreshAnswered? && e.call in w.refreshes && e.answer.RefreshOk?
  }

  /** What waits for the server: a login from its sending, a refresh from its sending, which needs a refresh
      token, to its answer; a timer fires once; nothing survives a reload. */
  lemma StepWaitsFor(w: World, e: Event)
    ensures e.LoginSent? ==> Step(w, e).logins == w.logins + 1
    ensures e.LoginAnswered? && w.logins > 0 ==> Step(w, e).logins == w.logins - 1
    ensures e.Reloaded? ==> Step(w, e).logins == 0 && Step(w, e).refreshes == map[]
    ensures e.RefreshAnswered? ==> Step(w, e).refreshes == w.refreshes - {e.call}
    ensures var tokens := w.client.state.tokens;
      e.RefreshCalled? || (e.TimerFired? && e.id in w.client.timers) ==>
        Step(w, e).refreshes ==
          if tokens.Some? && tokens.value.refresh != "" then w.refreshes[w.calls := w.refresh] else w.refreshes
    ensures e.TimerFired? ==> Step(w, e).client == w.client.(timers := w.client.timers - {e.id})
    ensures e.TimerFired? && e.id !in w.client.timers ==> Step(w, e) == w
  {
    if e.RefreshAnswered? && e.call !in w.refreshes { assert w.refreshes - {e.call} == w.refreshes; }
    if e.TimerFired? && e.id !in w.client.timers { assert w.client.timers - {e.id} == w.client.timers; }
  }

  // ---------------------------------------------------------------------------
  // Safety
  // ---------------------------------------------------------------------------

  /** When a refresh armed for an expiry goes out. */
  function RefreshAt(armedAt: int, expiresAt: int): int {
    armedAt + Timeout(Max(0, expiresAt - armedAt - REFRESH_MARGIN))
  }

  /** That is a minute before the expiry, or at once when it is nearer, exactly up to 2^31
      milliseconds ahead, which is less than 25 days; and never later. */
  lemma RefreshInTimeIff(armedAt: int, expiresAt: int)
    ensures armedAt <= RefreshAt(armedAt, expiresAt) <= Max(armedAt, expiresAt - 60_000)
    ensures RefreshAt(armedAt, expiresAt) == Max(armedAt, expiresAt - 60_000)
      <==> expiresAt - 60_000 - armedAt < 0x8000_0000
  {
  }

  /** A refresh that was meant for a day in the next month goes out at once. */
  lemma LongGrantRefreshesAtOnce(armedAt: int)
    ensures RefreshAt(armedAt, armedAt + 30 * 86_400_000) == armedAt
  {
  }

  /**
    What every step keeps: authenticated means that tokens are there; storage holds
    exactly the projection of the state; at most one timeout is pending, it is the one the
    client can cancel, and it fires when one armed for the current expiry does.
  */
  ghost predicate Safe(c: Client) {
    && (c.state.authenticated ==> c.state.tokens.Some?)
    && c.storage == Projection(c.state)
    && (forall id :: id in c.timers ==>
        && c.handle == Some(id)
        && c.state.expiresAt.Some?
        && c.timers[id].fireAt == RefreshAt(c.timers[id].armedAt, c.state.expiresAt.value))
    && (c.handle.Some? ==> c.handle.value < c.nextId)
  }

  lemma ClearIsSafe(c: Client)
    requires Safe(c)
    ensures Safe(ClearState(c))
  {
  }

  /** Storing a new state, after which the old timer is replaced, is safe if the state itself is. */
  lemma RescheduleIsSafe(c: Client, st: AuthState, now: int)
    requires Safe(c) && st.tokens.Some?
    ensures Safe(ScheduleRefresh(SetState(c, st), now))
  {
  }

  lemma LoadIsSafe(storage: Option<Item>, now: int)
    ensures Safe(Load(storage, now))
  {
  }

  lemma LoginIsSafe(c: Client, answer: LoginAnswer, via: LoginMethod, now: int)
    requires Safe(c)
    ensures Safe(LoginFinish(c, answer, via, now))
  {
    match answer
    case LoginFailed => ClearIsSafe(c);
    case LoginOk(t) => RescheduleIsSafe(c, AuthState(true, Some(t), Expiry(now, t.expiresIn), Some(via), t.tee), now);
  }

  lemma RefreshIsSafe(c: Client, answer: RefreshAnswer, now: int)
    requires Safe(c)
    ensures Safe(RefreshFinish(c, answer, now))
  {
    match answer
    case RefreshFailed => ClearIsSafe(c);
    case RefreshOk(access, expiresIn) =>
      var tokens := if c.state.tokens.Some? then c.state.tokens.value.(access := access, expiresIn := expiresIn)
                    else Tokens(access, "", expiresIn, "", false);
      RescheduleIsSafe(c, c.state.(tokens := Some(tokens), expiresAt := Expiry(now, expiresIn)), now);
  }

  lemma FiringIsSafe(c: Client, id: nat)
    requires Safe(c)
    ensures Safe(c.(timers := c.timers - {id}))
  {
  }

  lemma StepIsSafe(w: World, e: Event)
    requires Safe(w.client)
    ensures Safe(Step(w, e).client)
  {
    match e
    case LoginAnswered(a, via, at) => LoginIsSafe(w.client, a, via, at);
    case RefreshAnswered(_, a, at) => RefreshIsSafe(w.client, a, at);
    case TimerFired(id) => FiringIsSafe(w.client, id);
    case LoggedOut => ClearIsSafe(w.client);
    case Reloaded(at) => LoadIsSafe(w.client.storage, at);
    case _ =>
  }

  lemma {:induction false} RunIsSafe(storage: Option<Item>, now: int, events: seq<Event>)
    ensures Safe(Run(Opened(storage, now), events).client)
  {
    if events == [] {
    } else {
      RunIsSafe(storage, now, events[..|events| - 1]);
      StepIsSafe(Run(Opened(storage, now), events[..|events| - 1]), events[|events| - 1]);
    }
  }

  lemma AtMostOneTimer(c: Client)
    requires Safe(c)
    ensures |c.timers| <= 1
  {
    if c.handle.Some? && c.handle.value in c.timers {
      assert c.timers.Keys == {c.handle.value};
    } else {
      assert c.timers.Keys == {};
    }
    assert |c.timers| == |c.timers.Keys|;
  }

  predicate IsAuthenticated(c: Client, now: int) {
    c.state.authenticated && c.state.expiresAt.Some? && c.state.expiresAt.value != 0 && now < c.state.expiresAt.value
  }

  /** A login gives a session of exactly the granted number of seconds, with one refresh pending: a
      minute before its end, or at once when it is shorter than that, if the timeout is not too
      long for the browser. */
  lemma SessionLifetime(c: Client, t: Tokens, via: LoginMethod, now: int, later: int)
    requires Safe(c) && t.expiresIn.Some? && now + t.expiresIn.value * 1000 != 0
    ensures var c' := LoginFinish(c, LoginOk(t), via, now);
      && (IsAuthenticated(c', later) <==> later - now < t.expiresIn.value * 1000)
      && c'.handle.Some?
      && c'.timers == map[c'.handle.value := Timer(now, RefreshAt(now, now + t.expiresIn.value * 1000))]
      && (t.expiresIn.value * 1000 - 60_000 < 0x8000_0000 ==>
            c'.timers[c'.handle.value].fireAt == Max(now, now + (t.expiresIn.value - 60) * 1000))
  {
    var c' := LoginFinish(c, LoginOk(t), via, now);
    assert Cancel(c.timers, c.handle) == map[];
    assert c'.timers.Keys == {c.nextId};
    RefreshInTimeIff(now, now + t.expiresIn.value * 1000);
  }

  /** A login answer without `expires_in` authenticates a session that never counts as
      authenticated, is never refreshed by a timer and does not survive a reload. */
  lemma UndatedLogin(c: Client, t: Tokens, via: LoginMethod, now: int, later: int)
    requires Safe(c) && t.expiresIn.None?
    ensures var c' := LoginFinish(c, LoginOk(t), via, now);
      && c'.state.authenticated && c'.timers == map[]
      && !IsAuthenticated(c', later) && Load(c'.storage, later).state == SIGNED_OUT
  {
    assert Cancel(c.timers, c.handle) == map[];
  }

  ghost predicate Dated(c: Client) {
    c.state.authenticated ==> c.state.expiresAt.Some?
  }

  /** The session loses its expiry exactly when an answer without `expires_in` is taken. */
  lemma StepKeepsExpiryIff(w: World, e: Event)
    requires Safe(w.client) && Dated(w.client)
    ensures !Dated(Step(w, e).client) <==>
      || (SignsIn(w, e) && e.login.tokens.expiresIn.None?)
      || (Renews(w, e) && e.answer.expiresIn.None? && w.client.state.authenticated)
  {
  }

  predicate CarriesExpiry(e: Event) {
    match e
    case LoginAnswered(LoginOk(t), _, _) => t.expiresIn.Some?
    case RefreshAnswered(_, RefreshOk(_, expiresIn), _) => expiresIn.Some?
    case _ => true
  }

  lemma {:induction false} RunIsDated(storage: Option<Item>, now: int, events: seq<Event>)
    requires forall e :: e in events ==> CarriesExpiry(e)
    ensures Dated(Run(Opened(storage, now), events).client)
  {
    if events == [] {
    } else {
      var before := events[..|events| - 1];
      RunIsDated(storage, now, before);
      RunIsSafe(storage, now, before);
      assert CarriesExpiry(events[|events| - 1]);
      StepKeepsExpiryIff(Run(Opened(storage, now), before), events[|events| - 1]);
    }
  }

  predicate Complete(t: Tokens) { t.access != "" && t.refresh != "" }

  /**
    A reload restores the state exactly when there is nothing to restore, or the session is
    authenticated with both tokens and an expiry that has not passed.
  */
  lemma ReloadRestoresIff(storage: Option<Item>, openedAt: int, events: seq<Event>, now: int)
    ensures Safe(Run(Opened(storage, openedAt), events).client)
    ensures var st := Run(Opened(storage, openedAt), events).client.state;
      Load(Run(Opened(storage, openedAt), events).client.storage, now).state == st <==>
        || st == SIGNED_OUT
        || (&& st.authenticated && Complete(st.tokens.value)
            && st.expiresAt.Some? && st.expiresAt.value != 0 && now < st.expiresAt.value)
  {
    RunIsSafe(storage, openedAt, events);
  }

  /** Only a successful login can turn a session that is not authenticated into one that is: neither
      a reload nor a refresh that answers after the logout brings the session back. */
  lemma {:induction false} NoLoginNoSession(w: World, events: seq<Event>)
    requires Safe(w.client) && !w.client.state.authenticated
    requires forall e :: e in events ==> !(e.LoginAnswered? && e.login.LoginOk?)
    ensures !Run(w, events).client.state.authenticated
    ensures Safe(Run(w, events).client)
  {
    if events == [] {
    } else {
      var before := events[..|events| - 1];
      NoLoginNoSession(w, before);
      StepIsSafe(Run(w, before), events[|events| - 1]);
    }
  }

  /** Signed out does not mean empty: wherever a refresh can be sent, a logout before its answer ends
      in a state that holds the new access token, and an armed timer if the answer says when it
      expires, although nobody is signed in. */
  lemma LateRefreshLeavesToken(w: World, access: string, expiresIn: Option<int>, at: int)
    requires Safe(w.client) && CanRefresh(w.client)
    ensures
      var c := Step(Step(Step(w, RefreshCalled), LoggedOut), RefreshAnswered(w.calls, RefreshOk(access, expiresIn), at)).client;
      && !c.state.authenticated && c.storage == None
      && c.state.tokens == Some(Tokens(access, "", expiresIn, "", false))
      && (c.timers != map[] <==> Expiry(at, expiresIn) !in {None, Some(0)})
  {
    var c0 := Step(Step(w, RefreshCalled), LoggedOut).client;
    assert c0.timers == map[];
    var c := RefreshFinish(c0, RefreshOk(access, expiresIn), at);
    assert Expiry(at, expiresIn) !in {None, Some(0)} ==> c0.nextId in c.timers;
  }

  /** Leftover tokens arise in no other way: without an answered refresh while signed out, a
      session that is not authenticated is empty. */
  lemma StepKeepsSignedOutEmpty(w: World, e: Event)
    requires Safe(w.client)
    requires !w.client.state.authenticated ==> w.client.state == SIGNED_OUT
    ensures (!Step(w, e).client.state.authenticated ==> Step(w, e).client.state == SIGNED_OUT)
      <==> !(Renews(w, e) && !w.client.state.authenticated)
  {
  }

  // ---------------------------------------------------------------------------
  // What the client holds
  // ---------------------------------------------------------------------------

  /** Which stored items a new page takes over, and that it takes all of one: both tokens and an expiry
      that has not passed. */
  lemma LoadIff(storage: Option<Item>, now: int)
    ensures var st := Load(storage, now).state;
      var fits := match storage
        case Some(Saved(Some(t), Some(expiresAt), _, _)) =>
          t.access != "" && t.refresh != "" && expiresAt != 0 && now < expiresAt
        case _ => false;
      && (fits ==> st == AuthState(true, storage.value.tokens, storage.value.expiresAt, storage.value.via, storage.value.teeVerified))
      && (!fits ==> st == AuthState(false, None, None, None, false) && Load(storage, now).storage == None)
  {
  }

  /** When tokens that were granted for a number of seconds expire. */
  function ExpiryOf(at: int, seconds: Option<int>): Option<int> {
    if seconds.Some? then Some(at + 1000 * seconds.value) else None
  }

  /** After a good login the state holds the answer and nothing else. */
  lemma LoginStores(c: Client, t: Tokens, via: LoginMethod, now: int)
    ensures LoginFinish(c, LoginOk(t), via, now).state ==
      AuthState(true, Some(Tokens(t.access, t.refresh, t.expiresIn, t.kind, t.tee)), ExpiryOf(now, t.expiresIn), Some(via), t.tee)
  {
  }

  /** After a good refresh it holds the new access token and its expiry, and everything else as before. */
  lemma RefreshStores(c: Client, access: string, expiresIn: Option<int>, now: int)
    ensures var st, st' := c.state, RefreshFinish(c, RefreshOk(access, expiresIn), now).state;
      && st'.authenticated == st.authenticated && st'.via == st.via && st'.teeVerified == st.teeVerified
      && st'.expiresAt == ExpiryOf(now, expiresIn)
      && st'.tokens.Some? && st'.tokens.value.access == access && st'.tokens.value.expiresIn == expiresIn
      && st'.tokens.value.refresh == (if st.tokens.Some? then st.tokens.value.refresh else "")
  {
  }

  /** The reference: what the answers have granted so far, without a client, a clock or a store. */
  datatype Grant = Grant(access: string, refresh: string, expiresAt: Option<int>, via: Option<LoginMethod>, tee: bool)

  function Stored(storage: Option<Item>): Grant {
    match storage
    case Some(Saved(Some(t), expiresAt, via, tee)) => Grant(t.access, t.refresh, expiresAt, via, tee)
    case _ => Grant("", "", None, None, false)
  }

  /** The last good login grants everything, a good refresh since then another access token. */
  function Granted(stored: Grant, w: World, events: seq<Event>): Grant {
    if events == [] then stored
    else
      var before, last := events[..|events| - 1], events[|events| - 1];
      if SignsIn(Run(w, before), last) then
        var t := last.login.tokens;
        Grant(t.access, t.refresh, ExpiryOf(last.at, t.expiresIn), Some(last.via), t.tee)
      else if Renews(Run(w, before), last) then
        Granted(stored, w, before).(access := last.answer.access, expiresAt := ExpiryOf(last.at, last.answer.expiresIn))
      else Granted(stored, w, before)
  }

  ghost predicate Holds(st: AuthState, g: Grant) {
    st.authenticated ==>
      && st.tokens.Some? && st.tokens.value.access == g.access && st.tokens.value.refresh == g.refresh
      && st.expiresAt == g.expiresAt && st.via == g.via && st.teeVerified == g.tee
  }

  lemma StepHolds(w: World, e: Event, g: Grant)
    requires Safe(w.client) && Holds(w.client.state, g)
    ensures Holds(Step(w, e).client.state,
      if SignsIn(w, e) then
        Grant(e.login.tokens.access, e.login.tokens.refresh, ExpiryOf(e.at, e.login.tokens.expiresIn), Some(e.via), e.login.tokens.tee)
      else if Renews(w, e) then g.(access := e.answer.access, expiresAt := ExpiryOf(e.at, e.answer.expiresIn))
      else g)
  {
    match e
    case LoginAnswered(LoginOk(t), via, at) => LoginStores(w.client, t, via, at);
    case RefreshAnswered(_, RefreshOk(access, expiresIn), at) => RefreshStores(w.client, access, expiresIn, at);
    case _ =>
  }

  /** In every run: whoever is authenticated holds what the last good answers granted, or the stored item
      if there was no login since the page opened. */
  lemma {:induction false} RunHoldsGrant(storage: Option<Item>, now: int, events: seq<Event>)
    ensures Holds(Run(Opened(storage, now), events).client.state, Granted(Stored(storage), Opened(storage, now), events))
  {
    if events == [] {
      LoadIff(storage, now);
    } else {
      var before := events[..|events| - 1];
      RunHoldsGrant(storage, now, before);
      RunIsSafe(storage, now, before);
      StepHolds(Run(Opened(storage, now), before), events[|events| - 1], Granted(Stored(storage), Opened(storage, now), before));
    }
  }

  // ---------------------------------------------------------------------------
  // Sessions
  // ---------------------------------------------------------------------------

  /** An authenticated client has the refresh token of the newest session. */
  ghost predicate Tagged(w: World) {
    && (w.client.state.authenticated ==> w.refresh == w.sessions)
    && (forall call :: call in w.refreshes ==> call < w.calls)
  }

  lemma StepIsTagged(w: World, e: Event)
    requires Safe(w.client) && Tagged(w)
    ensures Tagged(Step(w, e))
  {
  }

  lemma {:induction false} RunIsTagged(storage: Option<Item>, now: int, events: seq<Event>)
    ensures Tagged(Run(Opened(storage, now), events))
  {
    if events == [] {
    } else {
      var before := events[..|events| - 1];
      RunIsTagged(storage, now, before);
      RunIsSafe(storage, now, before);
      StepIsTagged(Run(Opened(storage, now), before), events[|events| - 1]);
    }
  }

  /** An access token of one session beside a refresh token of another. */
  ghost predicate Mixed(w: World) {
    w.client.state.authenticated && w.access != w.refresh
  }

  /** The pair is mixed up in one way only: a refresh sent for another session is answered well. */
  lemma StepMixesIff(w: World, e: Event)
    requires Safe(w.client) && !Mixed(w)
    ensures Mixed(Step(w, e)) <==> Renews(w, e) && w.client.state.authenticated && w.refreshes[e.call] != w.refresh
  {
  }

  datatype Change = Unchanged | SignedIn | SignedOut

  /** What the last sign-in or sign-out among the events was. */
  function LastChange(w: World, events: seq<Event>): Change {
    if events == [] then Unchanged
    else
      var before, last := events[..|events| - 1], events[|events| - 1];
      if SignsIn(Run(w, before), last) then SignedIn
      else if SignsOut(Run(w, before), last) then SignedOut
      else LastChange(w, before)
  }

  /** The events keep the page, and do not answer this call. */
  ghost predicate LeavesWaiting(e: Event, call: nat) {
    !e.Reloaded? && !(e.RefreshAnswered? && e.call == call)
  }

  /** The world `w` after events that followed the sending of refresh `call` in session `session`. */
  ghost predicate Waits(w: World, call: nat, session: nat, change: Change) {
    && Safe(w.client) && Tagged(w)
    && call < w.calls && call in w.refreshes && w.refreshes[call] == session
    && match change
       case Unchanged => w.client.state.authenticated && w.sessions == session
       case SignedIn => w.client.state.authenticated && w.sessions > session
       case SignedOut => !w.client.state.authenticated && w.sessions >= session
  }

  lemma StepWaits(w: World, e: Event, call: nat, session: nat, change: Change)
    requires Waits(w, call, session, change) && LeavesWaiting(e, call)
    ensures Waits(Step(w, e), call, session,
      if SignsIn(w, e) then SignedIn else if SignsOut(w, e) then SignedOut else change)
  {
    StepIsSafe(w, e);
    StepIsTagged(w, e);
  }

  lemma {:induction false} RunWaits(w: World, events: seq<Event>, call: nat, session: nat)
    requires Waits(w, call, session, Unchanged)
    requires forall e :: e in events ==> LeavesWaiting(e, call)
    ensures Waits(Run(w, events), call, session, LastChange(w, events))
  {
    if events == [] {
    } else {
      var before := events[..|events| - 1];
      RunWaits(w, before, call, session);
      StepWaits(Run(w, before), events[|events| - 1], call, session, LastChange(w, before));
    }
  }

  datatype Access = NoToken | Got(token: string) | Raises

  /** `getAccessToken` after the refresh it awaited: it does not look at `authenticated` again, and
      reading the token of a state that has none raises. */
  function AccessResume(c: Client, refreshed: bool): Access {
    if !refreshed then NoToken
    else if c.state.tokens.None? then Raises
    else Got(c.state.tokens.value.access)
  }

  /** A refresh is sent, other things happen, and its answer comes. */
  function Answered(w: World, during: seq<Event>, answer: RefreshAnswer, at: int): World {
    Step(Run(Step(w, RefreshCalled), during), RefreshAnswered(w.calls, answer, at))
  }

  function ChangeDuring(w: World, during: seq<Event>): Change {
    LastChange(Step(w, RefreshCalled), during)
  }

  lemma GoodAnswer(w: World, call: nat, session: nat, change: Change, access: string, expiresIn: Option<int>, at: int)
    requires Waits(w, call, session, change)
    ensures var r := Step(w, RefreshAnswered(call, RefreshOk(access, expiresIn), at));
      && AccessResume(r.client, true) == Got(access)
      && (!r.client.state.authenticated <==> change == SignedOut)
      && (Mixed(r) <==> change == SignedIn)
  {
  }

  /**
    A refresh is sent while authenticated, anything but its answer and a reload happens, and a
    good answer comes. Then `getAccessToken` hands out the new token in every case: to nobody
    exactly when the last change meanwhile was a sign-out, and beside the refresh token of
    another session exactly when it was a sign-in.
  */
  lemma LateAnswer(w: World, during: seq<Event>, access: string, expiresIn: Option<int>, at: int)
    requires Safe(w.client) && Tagged(w) && w.client.state.authenticated && CanRefresh(w.client)
    requires forall e :: e in during ==> LeavesWaiting(e, w.calls)
    ensures var r := Answered(w, during, RefreshOk(access, expiresIn), at);
      && AccessResume(r.client, true) == Got(access)
      && (!r.client.state.authenticated <==> ChangeDuring(w, during) == SignedOut)
      && (Mixed(r) <==> ChangeDuring(w, during) == SignedIn)
  {
    var sent := Step(w, RefreshCalled);
    RunWaits(sent, during, w.calls, w.refresh);
    GoodAnswer(Run(sent, during), w.calls, w.refresh, LastChange(sent, during), access, expiresIn, at);
  }

  /** A bad answer signs out whoever is signed in by then, be it another session than the one whose
      refresh failed. */
  lemma LateFailure(w: World, during: seq<Event>, at: int)
    requires Safe(w.client) && Tagged(w) && w.client.state.authenticated && CanRefresh(w.client)
    requires forall e :: e in during ==> LeavesWaiting(e, w.calls)
    ensures Answered(w, during, RefreshFailed, at).client.state == SIGNED_OUT
    ensures ChangeDuring(w, during) == SignedIn ==>
      Run(Step(w, RefreshCalled), during).client.state.authenticated && Run(Step(w, RefreshCalled), during).sessions > w.refresh
  {
    RunWaits(Step(w, RefreshCalled), during, w.calls, w.refresh);
  }

  // ---------------------------------------------------------------------------
  // The client object
  // ---------------------------------------------------------------------------

  class AuthServiceClient {
    var state: AuthState
    var refreshTimer: Option<nat>
    var storage: Option<Item>
    var timers: map<nat, Timer>
    var nextId: nat

    ghost function View(): Client
      reads this
    {
      Client(state, refreshTimer, storage, timers, nextId)
    }

    constructor (stored: Option<Item>, now: int)
      ensures View() == Load(stored, now) && Safe(View())
    {
      state, refreshTimer, storage, timers, nextId := SIGNED_OUT, None, None, map[], 0;
      new;
      if stored.Some? && stored.value.Saved? {
        var data := stored.value;
        if data.tokens.Some? && data.expiresAt.Some? && data.expiresAt.value != 0 && now < data.expiresAt.value
          && data.tokens.value.access != "" && data.tokens.value.refresh != "" {
          state, storage := AuthState(true, data.tokens, data.expiresAt, data.via, data.teeVerified), stored;
          ScheduleRefreshTimer(now);
        }
      }
    }

    method ReplaceState(st: AuthState)
      modifies this`state, this`storage
      ensures View() == SetState(old(View()), st)
    {
      state := st;
      if st.authenticated && st.tokens.Some? {
        storage := Some(Saved(st.tokens, st.expiresAt, st.via, st.teeVerified));
      } else {
        storage := None;
      }
    }

    method Clear()
      modifies this
      ensures View() == ClearState(old(View()))
    {
      if refreshTimer.Some? {
        timers := timers - {refreshTimer.value};
        refreshTimer := None;
      }
      ReplaceState(SIGNED_OUT);
    }

    method ScheduleRefreshTimer(now: int)
      modifies this`timers, this`refreshTimer, this`nextId
      ensures View() == ScheduleRefresh(old(View()), now)
    {
      if refreshTimer.Some? { timers := timers - {refreshTimer.value}; }
      if state.expiresAt.None? || state.expiresAt.value == 0 { return; }
      var delay := Max(0, state.expiresAt.value - now - REFRESH_MARGIN);
      timers := timers[nextId := Timer(now, now + Timeout(delay))];
      refreshTimer, nextId := Some(nextId), nextId + 1;
    }

    method FinishLogin(answer: LoginAnswer, via: LoginMethod, now: int)
      requires Safe(View())
      modifies this
      ensures View() == LoginFinish(old(View()), answer, via, now) && Safe(View())
      ensures match answer
        case LoginOk(t) => state == AuthState(true, Some(t), ExpiryOf(now, t.expiresIn), Some(via), t.tee)
        case LoginFailed => state == AuthState(false, None, None, None, false) && storage == None
    {
      LoginIsSafe(View(), answer, via, now);
      match answer
      case LoginFailed => Clear();
      case LoginOk(t) =>
        ReplaceState(AuthState(true, Some(t), Expiry(now, t.expiresIn), Some(via), t.tee));
        ScheduleRefreshTimer(now);
    }

    /** The timeout callback: the handle is left behind, and the refresh goes out if there is a token for it. */
    method OnTimer(id: nat) returns (sent: bool)
      requires Safe(View()) && id in timers
      modifies this`timers
      ensures View() == old(View()).(timers := old(timers) - {id}) && Safe(View())
      ensures sent <==> state.tokens.Some? && state.tokens.value.refresh != ""
    {
      timers := timers - {id};
      sent := state.tokens.Some? && state.tokens.value.refresh != "";
    }

    method FinishRefresh(answer: RefreshAnswer, now: int)
      requires Safe(View())
      modifies this
      ensures View() == RefreshFinish(old(View()), answer, now) && Safe(View())
    {
      RefreshIsSafe(View(), answer, now);
      match answer
      case RefreshFailed => Clear();
      case RefreshOk(access, expiresIn) =>
        var tokens := if state.tokens.Some? then state.tokens.value.(access := access, expiresIn := expiresIn)
                      else Tokens(access, "", expiresIn, "", false);
        ReplaceState(state.(tokens := Some(tokens), expiresAt := Expiry(now, expiresIn)));
        ScheduleRefreshTimer(now);
    }

    /** The end of `logout`: whatever the server said, the session is gone from memory, storage
        and the timer queue. */
    method FinishLogout()
      requires Safe(View())
      modifies this
      ensures View() == ClearState(old(View())) && Safe(View())
      ensures state == SIGNED_OUT && storage == None && timers == map[]
    {
      Clear();
    }

    /** The first piece of `getAccessToken`: no token unless authenticated, and, close to expiry,
        none before a refresh, which is awaited here. */
    method AccessToken(now: int) returns (token: Option<string>, refreshFirst: bool)
      requires Safe(View())
      ensures token.Some? || refreshFirst <==> state.authenticated
      ensures refreshFirst <==>
        && state.authenticated
        && state.expiresAt.Some? && state.expiresAt.value != 0 && now > state.expiresAt.value - 60_000
      ensures token.Some? ==> token.value == state.tokens.value.access && !refreshFirst
    {
      if !state.authenticated || state.tokens.None? { return None, false; }
      if state.expiresAt.Some? && state.expiresAt.value != 0 && now > state.expiresAt.value - REFRESH_MARGIN {
        return None, true;
      }
      return Some(state.tokens.value.access), false;
    }

    /** The second piece, over whatever state it finds: it raises only for a good refresh that a
        sign-out followed, and never while authenticated. */
    method FinishAccessToken(refreshed: bool) returns (r: Access)
      requires Safe(View())
      ensures r == AccessResume(View(), refreshed)
      ensures r == Raises <==> refreshed && state.tokens.None?
      ensures state.authenticated ==> (r.Got? <==> refreshed) && !r.Raises?
      ensures r.Got? ==> state.tokens.Some? && r.token == state.tokens.value.access
    {
      if !refreshed { return NoToken; }
      if state.tokens.None? { return Raises; }
      return Got(state.tokens.value.access);
    }
  }
}
