/**
  The KYC gateway: a credential cache with a time limit in front of a record store, and an
  awaited call to the identity provider in the middle of a verification.

  A verification is therefore two atomic pieces, before and after the await, and pieces of
  different verifications interleave.
*/
module Kyc {
  import opened Common

  const CREDENTIAL_CACHE_TTL := 86_400.0

  datatype Level = Unverified | Basic | Standard | Enhanced

  function Rank(l: Level): nat {
    match l case Unverified => 0 case Basic => 1 case Standard => 2 case Enhanced => 3
  }

  function MaxSingleTransfer(l: Level): real {
    match l case Unverified => 50.0 case Basic => 1000.0 case Standard => 10_000.0 case Enhanced => 100_000.0
  }

  /** The levels one may ask for, by name. */
  function Requested(name: string): Option<Level> {
    if name == "basic" then Some(Basic)
    else if name == "standard" then Some(Standard)
    else if name == "enhanced" then Some(Enhanced)
    else None
  }

  /** The three names there are, and what each asks for. */
  lemma NamesAre(name: string, level: Level)
    ensures Requested(name) == Some(level)
      <==> (name, level) in {("basic", Basic), ("standard", Standard), ("enhanced", Enhanced)}
  {
  }

  /** A higher level admits more. */
  lemma LimitsGrow(a: Level, b: Level)
    ensures Rank(a) < Rank(b) <==> MaxSingleTransfer(a) < MaxSingleTransfer(b)
    ensures Rank(a) == Rank(b) <==> a == b
  {
  }

  datatype Credential = Credential(level: Level, expiresAt: real)

  datatype State = State(records: map<string, Level>, cache: map<string, Credential>)

  const EMPTY := State(map[], map[])

  function LevelOf(records: map<string, Level>, user: string): Level {
    if user in records then records[user] else Unverified
  }

  datatype Begun = InvalidLevel | AlreadyVerified(level: Level, cached: bool) | Calling(level: Level)

  datatype Finished = NowVerified(level: Level) | Pending(level: Level)

  /** `_get_cached_credential`: an expired credential is dropped on the way. */
  function Evict(cache: map<string, Credential>, user: string, now: real): map<string, Credential> {
    if user in cache && cache[user].expiresAt <= now then cache - {user} else cache
  }

  function Cache(st: State, user: string, level: Level, now: real): State {
    st.(cache := st.cache[user := Credential(level, now + CREDENTIAL_CACHE_TTL)])
  }

  /** What is cached answers for 24 hours, for its own user alone, and is dropped by the first lookup after. */
  lemma CachedForADay(st: State, user: string, level: Level, at: real, other: string, now: real)
    ensures var cache := Evict(Cache(st, user, level, at).cache, user, now);
      && (user in cache <==> now < at + 24.0 * 3600.0)
      && (user in cache ==> cache[user].level == level)
      && (other != user ==> (other in cache <==> other in st.cache) && (other in cache ==> cache[other] == st.cache[other]))
  {
  }

  /** `verify_kyc` up to the provider call; the clock is read at the lookup and at the caching. */
  function Begin(st: State, user: string, name: string, lookedUp: real, cachedAt: real): (State, Begun) {
    match Requested(name)
    case None => (st, InvalidLevel)
    case Some(level) =>
      var st' := st.(cache := Evict(st.cache, user, lookedUp));
      var current := LevelOf(st.records, user);
      if user in st'.cache && Rank(st'.cache[user].level) >= Rank(level) then
        (st', AlreadyVerified(st'.cache[user].level, true))
      else if Rank(current) >= Rank(level) then
        (Cache(st', user, current, cachedAt), AlreadyVerified(current, false))
      else
        (st', Calling(level))
  }

  /** Which of the three answers the first piece gives: from the cache if that has an unexpired credential
      of sufficient level, else from the record if that suffices, else the provider is called. */
  lemma BeginAnswers(st: State, user: string, name: string, level: Level, lookedUp: real, cachedAt: real)
    requires Requested(name) == Some(level)
    ensures var (st', b) := Begin(st, user, name, lookedUp, cachedAt);
      var hit := user in st.cache && lookedUp < st.cache[user].expiresAt && Rank(st.cache[user].level) >= Rank(level);
      var record := if user in st.records then st.records[user] else Unverified;
      && (hit ==> b == AlreadyVerified(st.cache[user].level, true) && st' == st)
      && (!hit && Rank(record) >= Rank(level) ==>
            b == AlreadyVerified(record, false) && user in st'.cache && st'.cache[user] == Credential(record, cachedAt + 86_400.0))
      && (!hit && Rank(record) < Rank(level) ==> b == Calling(level))
      && st'.records == st.records
  {
  }

  /** `verify_kyc` after the provider's answer. */
  function Finish(st: State, user: string, level: Level, verified: bool, cachedAt: real): (State, Finished) {
    if verified then (Cache(st.(records := st.records[user := level]), user, level, cachedAt), NowVerified(level))
    else (st, Pending(level))
  }

  // ---------------------------------------------------------------------------
  // Runs: any number of verifications, interleaved in any way
  // ---------------------------------------------------------------------------

  datatype Event =
    | Verify(call: nat, user: string, name: string, lookedUp: real, cachedAt: real)
    | Answer(call: nat, verified: bool, cachedAt: real)

  /** A verification waiting for its answer; `since` lists what the same user was granted meanwhile. */
  datatype Flight = Flight(user: string, level: Level, since: seq<Level>)

  datatype World = World(st: State, inFlight: map<nat, Flight>)

  /** What the caller of a piece learns, with the difference between cache and record erased. */
  datatype Reply = Refused | Verified(level: Level) | Waiting | StillPending(level: Level) | Ignored

  function ReplyOf(b: Begun): Reply {
    match b
    case InvalidLevel => Refused
    case AlreadyVerified(l, _) => Verified(l)
    case Calling(_) => Waiting
  }

  function Launch(inFlight: map<nat, Flight>, call: nat, user: string, b: Begun): map<nat, Flight> {
    if b.Calling? then inFlight[call := Flight(user, b.level, [])] else inFlight
  }

  function Land(inFlight: map<nat, Flight>, call: nat, verified: bool): map<nat, Flight>
    requires call in inFlight
  {
    var f := inFlight[call];
    map c | c in inFlight && c != call ::
      if verified && inFlight[c].user == f.user then inFlight[c].(since := inFlight[c].since + [f.level]) else inFlight[c]
  }

  function Step(w: World, e: Event): (World, Reply) {
    match e
    case Verify(call, user, name, lookedUp, cachedAt) =>
      if call in w.inFlight then (w, Ignored)
      else
        var (st, b) := Begin(w.st, user, name, lookedUp, cachedAt);
        (World(st, Launch(w.inFlight, call, user, b)), ReplyOf(b))
    case Answer(call, verified, cachedAt) =>
      if call !in w.inFlight then (w, Ignored)
      else
        var f := w.inFlight[call];
        var (st, r) := Finish(w.st, f.user, f.level, verified, cachedAt);
        (World(st, Land(w.inFlight, call, verified)), if verified then Verified(f.level) else StillPending(f.level))
  }

  /** A piece of a run does to the state what the piece does. */
  lemma StepIsPiece(w: World, call: nat, user: string, name: string, lookedUp: real, cachedAt: real)
    requires call !in w.inFlight
    ensures Step(w, Verify(call, user, name, lookedUp, cachedAt)).0.st == Begin(w.st, user, name, lookedUp, cachedAt).0
  {
  }

  function Run(events: seq<Event>): (World, seq<Reply>) {
    if events == [] then (World(EMPTY, map[]), [])
    else
      var (w, replies) := Run(events[..|events| - 1]);
      var (w', r) := Step(w, events[|events| - 1]);
      (w', replies + [r])
  }

  // ---------------------------------------------------------------------------
  // The cache is invisible
  // ---------------------------------------------------------------------------

  /** The reference gateway: records only, no cache and no clock. */
  datatype Plain = Plain(records: map<string, Level>, inFlight: map<nat, Flight>)

  function PlainStep(p: Plain, e: Event): (Plain, Reply) {
    match e
    case Verify(call, user, name, _, _) =>
      if call in p.inFlight then (p, Ignored)
      else
        var level, current := Requested(name), LevelOf(p.records, user);
        if level.None? then (p, Refused)
        else if Rank(current) >= Rank(level.value) then (p, Verified(current))
        else (p.(inFlight := p.inFlight[call := Flight(user, level.value, [])]), Waiting)
    case Answer(call, verified, _) =>
      if call !in p.inFlight then (p, Ignored)
      else
        var f := p.inFlight[call];
        if verified then (Plain(p.records[f.user := f.level], Land(p.inFlight, call, true)), Verified(f.level))
        else (p.(inFlight := Land(p.inFlight, call, false)), StillPending(f.level))
  }

  function PlainRun(events: seq<Event>): (Plain, seq<Reply>) {
    if events == [] then (Plain(map[], map[]), [])
    else
      var (p, replies) := PlainRun(events[..|events| - 1]);
      var (p', r) := PlainStep(p, events[|events| - 1]);
      (p', replies + [r])
  }

  /** A cached credential has the level of the user's record. */
  ghost predicate CacheAgrees(st: State) {
    forall u :: u in st.cache ==> u in st.records && st.cache[u].level == st.records[u]
  }

  lemma BeginKeepsAgreement(st: State, user: string, name: string, lookedUp: real, cachedAt: real)
    requires CacheAgrees(st)
    ensures CacheAgrees(Begin(st, user, name, lookedUp, cachedAt).0)
    ensures Begin(st, user, name, lookedUp, cachedAt).0.records == st.records
  {
  }

  lemma FinishKeepsAgreement(st: State, user: string, level: Level, verified: bool, cachedAt: real)
    requires CacheAgrees(st)
    ensures CacheAgrees(Finish(st, user, level, verified, cachedAt).0)
  {
  }

  /**
    In every run, whatever the clock does, a cached credential agrees with the record, and the
    gateway answers every piece of every verification as the gateway without a cache would.
  */
  lemma {:induction false} CacheIsInvisible(events: seq<Event>)
    ensures CacheAgrees(Run(events).0.st)
    ensures Run(events).1 == PlainRun(events).1
    ensures Run(events).0.st.records == PlainRun(events).0.records && Run(events).0.inFlight == PlainRun(events).0.inFlight
  {
    if events == [] {
    } else {
      var before, e := events[..|events| - 1], events[|events| - 1];
      CacheIsInvisible(before);
      var w := Run(before).0;
      match e
      case Verify(call, user, name, lookedUp, cachedAt) => BeginKeepsAgreement(w.st, user, name, lookedUp, cachedAt);
      case Answer(call, verified, cachedAt) =>
        if call in w.inFlight {
          FinishKeepsAgreement(w.st, w.inFlight[call].user, w.inFlight[call].level, verified, cachedAt);
        }
    }
  }

  // ---------------------------------------------------------------------------
  // When a level goes down
  // ---------------------------------------------------------------------------

  function LevelIn(w: World, user: string): Level {
    LevelOf(w.st.records, user)
  }

  /** A waiting verification asks for more than its user had when it began, and what the user has
      now is what was granted last since then. */
  ghost predicate FlightsTracked(w: World) {
    forall c :: c in w.inFlight ==>
      var f := w.inFlight[c];
      if f.since == [] then Rank(LevelIn(w, f.user)) < Rank(f.level)
      else LevelIn(w, f.user) == f.since[|f.since| - 1]
  }

  lemma LaunchTracksFlights(w: World, call: nat, user: string, name: string, lookedUp: real, cachedAt: real)
    requires CacheAgrees(w.st) && FlightsTracked(w)
    ensures var (st, b) := Begin(w.st, user, name, lookedUp, cachedAt);
      FlightsTracked(World(st, Launch(w.inFlight, call, user, b)))
  {
    BeginKeepsAgreement(w.st, user, name, lookedUp, cachedAt);
  }

  lemma LandTracksFlights(w: World, call: nat, verified: bool, cachedAt: real)
    requires call in w.inFlight && FlightsTracked(w)
    ensures var f := w.inFlight[call];
      FlightsTracked(World(Finish(w.st, f.user, f.level, verified, cachedAt).0, Land(w.inFlight, call, verified)))
  {
    var f := w.inFlight[call];
    var w' := World(Finish(w.st, f.user, f.level, verified, cachedAt).0, Land(w.inFlight, call, verified));
    forall c | c in w'.inFlight
      ensures var g := w'.inFlight[c];
        if g.since == [] then Rank(LevelIn(w', g.user)) < Rank(g.level) else LevelIn(w', g.user) == g.since[|g.since| - 1]
    {
      assert c in w.inFlight;
    }
  }

  lemma StepTracksFlights(w: World, e: Event)
    requires CacheAgrees(w.st) && FlightsTracked(w)
    ensures FlightsTracked(Step(w, e).0)
  {
    match e
    case Verify(call, user, name, lookedUp, cachedAt) => LaunchTracksFlights(w, call, user, name, lookedUp, cachedAt);
    case Answer(call, verified, cachedAt) =>
      if call in w.inFlight { LandTracksFlights(w, call, verified, cachedAt); }
  }

  lemma {:induction false} RunTracksFlights(events: seq<Event>)
    ensures FlightsTracked(Run(events).0)
  {
    if events == [] {
    } else {
      var before := events[..|events| - 1];
      RunTracksFlights(before);
      CacheIsInvisible(before);
      StepTracksFlights(Run(before).0, events[|events| - 1]);
    }
  }

  /**
    In every run, a step lowers a user's level exactly when it is the successful answer to a
    verification that was overtaken: the last level granted to the same user since it began
    is higher than the one it brings.
  */
  lemma LevelDropsIff(events: seq<Event>, e: Event, user: string)
    ensures Rank(LevelIn(Step(Run(events).0, e).0, user)) < Rank(LevelIn(Run(events).0, user)) <==>
      && e.Answer? && e.verified && e.call in Run(events).0.inFlight
      && var f := Run(events).0.inFlight[e.call];
         f.user == user && f.since != [] && Rank(f.since[|f.since| - 1]) > Rank(f.level)
  {
    RunTracksFlights(events);
    CacheIsInvisible(events);
    var w := Run(events).0;
    match e
    case Verify(_, u, name, lookedUp, cachedAt) => BeginKeepsAgreement(w.st, u, name, lookedUp, cachedAt);
    case Answer(_, _, _) =>
  }

  lemma BothWait()
    ensures Run([Verify(0, "ana", "standard", 0.0, 0.0), Verify(1, "ana", "basic", 0.0, 0.0)]).0.inFlight
      == map[0 := Flight("ana", Standard, []), 1 := Flight("ana", Basic, [])]
  {
    var a, b := Verify(0, "ana", "standard", 0.0, 0.0), Verify(1, "ana", "basic", 0.0, 0.0);
    RunSnoc([], a);
    RunSnoc([a], b);
    assert [] + [a] == [a] && [a] + [b] == [a, b];
    assert Run([a]).0 == World(EMPTY, map[0 := Flight("ana", Standard, [])]);
  }

  /** It does happen: "basic" overtaken by "standard". */
  lemma LevelCanDrop()
    ensures exists events, e, user ::
      Rank(LevelIn(Step(Run(events).0, e).0, user)) < Rank(LevelIn(Run(events).0, user))
  {
    BothWait();
    Overtaken([Verify(0, "ana", "standard", 0.0, 0.0), Verify(1, "ana", "basic", 0.0, 0.0)]);
  }

  lemma Overtaken(events: seq<Event>)
    requires Run(events).0.inFlight == map[0 := Flight("ana", Standard, []), 1 := Flight("ana", Basic, [])]
    ensures exists events', e, user ::
      Rank(LevelIn(Step(Run(events').0, e).0, user)) < Rank(LevelIn(Run(events').0, user))
  {
    var done, late := Answer(0, true, 1.0), Answer(1, true, 2.0);
    RunSnoc(events, done);
    var landed := Land(Run(events).0.inFlight, 0, true);
    assert landed[1].since == [] + [Standard];
    LevelDropsIff(events + [done], late, "ana");
  }

  lemma RunSnoc(events: seq<Event>, e: Event)
    ensures Run(events + [e]).0 == Step(Run(events).0, e).0
  {
    assert (events + [e])[..|events|] == events;
  }

  /** At no point of the run do two verifications of the user wait at the same time. */
  ghost predicate OneAtATime(events: seq<Event>, user: string) {
    forall n | 0 <= n <= |events| :: AtMostOne(Run(events[..n]).0.inFlight, user)
  }

  ghost predicate AtMostOne(inFlight: map<nat, Flight>, user: string) {
    forall c, d | c in inFlight && d in inFlight :: inFlight[c].user == inFlight[d].user == user ==> c == d
  }

  lemma {:induction false} NeverOvertaken(events: seq<Event>, user: string)
    requires OneAtATime(events, user)
    ensures forall c :: c in Run(events).0.inFlight && Run(events).0.inFlight[c].user == user ==>
      Run(events).0.inFlight[c].since == []
  {
    if events == [] {
    } else {
      var n := |events| - 1;
      var before := events[..n];
      forall k | 0 <= k <= n ensures before[..k] == events[..k] { }
      assert OneAtATime(before, user);
      NeverOvertaken(before, user);
      assert before[..n] == before;
      var w, w' := Run(before).0, Run(events).0;
      assert w' == Step(w, events[n]).0;
      forall c | c in w'.inFlight && w'.inFlight[c].user == user ensures w'.inFlight[c].since == [] {
        if c in w.inFlight {
          assert w.inFlight[c].user == user;
          assert AtMostOne(w.inFlight, user);
        }
      }
    }
  }

  /** While a user's verifications do not overlap, that user's level never goes down. */
  lemma LevelNeverDropsAlone(events: seq<Event>, e: Event, user: string)
    requires OneAtATime(events, user)
    ensures Rank(LevelIn(Run(events).0, user)) <= Rank(LevelIn(Step(Run(events).0, e).0, user))
  {
    NeverOvertaken(events, user);
    LevelDropsIff(events, e, user);
  }

  // ---------------------------------------------------------------------------
  // The plugin
  // ---------------------------------------------------------------------------

  class Plugin {
    var userRecords: map<string, Level>
    var credentialCache: map<string, Credential>

    ghost function View(): State
      reads this
    {
      State(userRecords, credentialCache)
    }

    constructor ()
      ensures View() == EMPTY
    {
      userRecords, credentialCache := map[], map[];
    }

    method CacheCredential(user: string, level: Level, now: real)
      modifies this`credentialCache
      ensures View() == Cache(old(View()), user, level, now)
    {
      credentialCache := credentialCache[user := Credential(level, now + CREDENTIAL_CACHE_TTL)];
    }

    method GetCachedCredential(user: string, now: real) returns (c: Option<Credential>)
      modifies this`credentialCache
      ensures credentialCache == Evict(old(credentialCache), user, now)
      ensures c == if user in credentialCache then Some(credentialCache[user]) else None
    {
      if user in credentialCache && credentialCache[user].expiresAt > now { return Some(credentialCache[user]); }
      if user in credentialCache { credentialCache := credentialCache - {user}; }
      c := None;
    }

    method VerifyBegin(user: string, name: string, lookedUp: real, cachedAt: real) returns (b: Begun)
      requires CacheAgrees(View())
      modifies this
      ensures (View(), b) == Begin(old(View()), user, name, lookedUp, cachedAt)
      ensures CacheAgrees(View()) && userRecords == old(userRecords)
    {
      var level := Requested(name);
      if level.None? { return InvalidLevel; }
      var cached := GetCachedCredential(user, lookedUp);
      if cached.Some? && Rank(cached.value.level) >= Rank(level.value) {
        return AlreadyVerified(cached.value.level, true);
      }
      var current := if user in userRecords then userRecords[user] else Unverified;
      if Rank(current) >= Rank(level.value) {
        CacheCredential(user, current, cachedAt);
        return AlreadyVerified(current, false);
      }
      b := Calling(level.value);
    }

    method VerifyFinish(user: string, level: Level, verified: bool, cachedAt: real) returns (f: Finished)
      requires CacheAgrees(View())
      modifies this
      ensures (View(), f) == Finish(old(View()), user, level, verified, cachedAt)
      ensures CacheAgrees(View())
    {
      if verified {
        userRecords := userRecords[user := level];
        CacheCredential(user, level, cachedAt);
        return NowVerified(level);
      }
      f := Pending(level);
    }

    /**
      A transfer is eligible up to the user's limit.  Otherwise the suggested upgrade is the
      lowest level that admits the amount, and there is none only beyond every limit.
    */
    method CheckTransferEligibility(user: string, amount: real) returns (eligible: bool, upgrade: Option<Level>)
      ensures eligible <==> amount <= MaxSingleTransfer(LevelOf(userRecords, user))
      ensures upgrade.Some? <==> !eligible && exists l :: amount <= MaxSingleTransfer(l)
      ensures upgrade.Some? ==> Admits(upgrade.value, amount) && Rank(upgrade.value) > Rank(LevelOf(userRecords, user))
      ensures var level := if user in userRecords then userRecords[user] else Unverified;
        eligible <==>
          || amount <= 50.0 || (level != Unverified && amount <= 1_000.0)
          || (level in {Standard, Enhanced} && amount <= 10_000.0) || (level == Enhanced && amount <= 100_000.0)
      ensures upgrade ==
        if eligible then None
        else if amount <= 1_000.0 then Some(Basic)
        else if amount <= 10_000.0 then Some(Standard)
        else if amount <= 100_000.0 then Some(Enhanced)
        else None
    {
      var level := LevelOf(userRecords, user);
      eligible, upgrade := amount <= MaxSingleTransfer(level), None;
      if !eligible {
        var ladder := [Basic, Standard, Enhanced];
        for i := 0 to |ladder|
          invariant upgrade == None
          invariant forall l :: Rank(l) <= i ==> MaxSingleTransfer(l) < amount
        {
          assert Rank(ladder[i]) == i + 1;
          if MaxSingleTransfer(ladder[i]) >= amount {
            upgrade := Some(ladder[i]);
            break;
          }
        }
      }
      assert MaxSingleTransfer(Unverified) == 50.0 && MaxSingleTransfer(Basic) == 1_000.0;
      assert MaxSingleTransfer(Standard) == 10_000.0 && MaxSingleTransfer(Enhanced) == 100_000.0;
    }
  }

  /** The lowest level whose limit covers the amount. */
  ghost predicate Admits(l: Level, amount: real) {
    amount <= MaxSingleTransfer(l) && forall m :: amount <= MaxSingleTransfer(m) ==> Rank(l) <= Rank(m)
  }
}
