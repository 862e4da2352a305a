/**
  The Wise comparison client: a sliding-window rate limiter that prunes its own log,
  a time-limited result cache, and provider ranking.

  A coroutine runs without interruption between two awaits, so `get_comparison` is two
  atomic pieces: everything up to the HTTP call (`Begin`) and everything after the
  response (`Finish`).  Pieces of different calls interleave in any order.
*/
module WiseClient {
  import opened Common
  import opened StableSorting
  import opened Rounding

  const RATE_LIMIT := 30
  const WINDOW := 60.0
  const CACHE_TTL := 300.0

  // ---------------------------------------------------------------------------
  // The rate limiter
  // ---------------------------------------------------------------------------

  /** The clock reading of one rate check and, if it passes, of the recording that follows. */
  datatype Call = Call(check: real, record: real)

  /** What the client keeps, and everything it ever recorded. */
  datatype Limiter = Limiter(kept: seq<real>, recorded: seq<real>)

  function Recent(log: seq<real>, cutoff: real): (recent: seq<real>)
    ensures |recent| <= |log|
  {
    if log == [] then []
    else (if log[0] > cutoff then [log[0]] else []) + Recent(log[1..], cutoff)
  }

  /** One pass through the limiter: prune, compare, record. */
  function Admit(l: Limiter, c: Call): Limiter {
    var kept := Recent(l.kept, c.check - WINDOW);
    if |kept| < RATE_LIMIT then Limiter(kept + [c.record], l.recorded + [c.record])
    else Limiter(kept, l.recorded)
  }

  function Run(calls: seq<Call>): Limiter {
    if calls == [] then Limiter([], [])
    else Admit(Run(calls[..|calls| - 1]), calls[|calls| - 1])
  }

  /** The reference limiter: it forgets nothing and recounts the whole log each time. */
  function Reference(calls: seq<Call>): seq<real> {
    if calls == [] then []
    else
      var log := Reference(calls[..|calls| - 1]);
      var c := calls[|calls| - 1];
      if Count(log, After(c.check - 60.0)) < 30 then log + [c.record] else log
  }

  /** Stretches of time: 60 seconds open on one side or closed, and everything after an instant. */
  datatype Window = LeftOpen(a: real) | RightOpen(a: real) | Closed(a: real) | After(a: real)

  predicate Inside(t: real, w: Window) {
    match w
    case LeftOpen(a) => a < t <= a + 60.0
    case RightOpen(a) => a <= t < a + 60.0
    case Closed(a) => a <= t <= a + 60.0
    case After(a) => a < t
  }

  function Count(log: seq<real>, w: Window): nat {
    if log == [] then 0 else (if Inside(log[0], w) then 1 else 0) + Count(log[1..], w)
  }

  /** The clock never goes back. */
  ghost predicate Clocked(calls: seq<Call>) {
    && (forall i :: 0 <= i < |calls| ==> calls[i].check <= calls[i].record)
    && (forall i, j :: 0 <= i < j < |calls| ==> calls[i].record <= calls[j].check)
  }

  ghost predicate WindowsBounded(log: seq<real>) {
    forall w: Window :: w.LeftOpen? || w.RightOpen? ==> Count(log, w) <= 30
  }

  lemma {:induction false} RecentAppend(a: seq<real>, b: seq<real>, cutoff: real)
    ensures Recent(a + b, cutoff) == Recent(a, cutoff) + Recent(b, cutoff)
  {
    if a == [] {
      assert a + b == b;
    } else {
      assert (a + b)[1..] == a[1..] + b;
      RecentAppend(a[1..], b, cutoff);
    }
  }

  lemma {:induction false} RecentTwice(log: seq<real>, early: real, late: real)
    requires early <= late
    ensures Recent(Recent(log, early), late) == Recent(log, late)
  {
    if log == [] {
    } else {
      var head := if log[0] > early then [log[0]] else [];
      RecentAppend(head, Recent(log[1..], early), late);
      RecentTwice(log[1..], early, late);
    }
  }

  lemma {:induction false} RecentCounts(log: seq<real>, cutoff: real)
    ensures |Recent(log, cutoff)| == Count(log, After(cutoff))
  {
    if log == [] {
    } else {
      RecentCounts(log[1..], cutoff);
    }
  }

  lemma {:induction false} CountMonotone(log: seq<real>, v: Window, w: Window)
    requires forall t :: Inside(t, v) ==> Inside(t, w)
    ensures Count(log, v) <= Count(log, w)
  {
    if log == [] {
    } else {
      CountMonotone(log[1..], v, w);
    }
  }

  lemma {:induction false} CountAppend(log: seq<real>, t: real, w: Window)
    ensures Count(log + [t], w) == Count(log, w) + if Inside(t, w) then 1 else 0
  {
    if log == [] {
      assert log + [t] == [t];
    } else {
      assert (log + [t])[1..] == log[1..] + [t];
      CountAppend(log[1..], t, w);
    }
  }

  lemma RecordingKeepsWindows(log: seq<real>, c: Call)
    requires WindowsBounded(log) && c.check <= c.record
    requires Count(log, After(c.check - WINDOW)) < RATE_LIMIT
    ensures WindowsBounded(log + [c.record])
  {
    forall w: Window | w.LeftOpen? || w.RightOpen? ensures Count(log + [c.record], w) <= RATE_LIMIT {
      CountAppend(log, c.record, w);
      if Inside(c.record, w) { CountMonotone(log, w, After(c.check - WINDOW)); }
    }
  }

  /**
    The state after a check at time `last`: what is kept is exactly what that check could still
    count, it is at most 30 entries, and every window of the whole log is within the limit.
  */
  ghost predicate Sound(l: Limiter, last: real) {
    && l.kept == Recent(l.recorded, last - WINDOW)
    && |l.kept| <= RATE_LIMIT
    && WindowsBounded(l.recorded)
  }

  /** Pruning loses nothing: a later check counts on the kept entries what it would count on
      the whole log, so it admits exactly when the last minute holds fewer than 30. */
  lemma AdmitIsExact(l: Limiter, last: real, c: Call)
    requires Sound(l, last) && last <= c.check
    ensures |Recent(l.kept, c.check - WINDOW)| == Count(l.recorded, After(c.check - WINDOW))
    ensures Admit(l, c).recorded == l.recorded +
      if Count(l.recorded, After(c.check - WINDOW)) < RATE_LIMIT then [c.record] else []
  {
    RecentTwice(l.recorded, last - WINDOW, c.check - WINDOW);
    RecentCounts(l.recorded, c.check - WINDOW);
  }

  lemma AdmitIsSound(l: Limiter, last: real, c: Call)
    requires Sound(l, last) && last <= c.check <= c.record
    ensures Sound(Admit(l, c), c.check)
  {
    AdmitIsExact(l, last, c);
    RecentTwice(l.recorded, last - WINDOW, c.check - WINDOW);
    if Count(l.recorded, After(c.check - WINDOW)) < RATE_LIMIT {
      RecordingKeepsWindows(l.recorded, c);
      RecentAppend(l.recorded, [c.record], c.check - WINDOW);
    }
  }

  function LastCheck(calls: seq<Call>): real {
    if calls == [] then 0.0 else calls[|calls| - 1].check
  }

  /** What every run keeps: the pruned list decides as the reference does, and is sound. */
  ghost predicate Holds(calls: seq<Call>) {
    Run(calls).recorded == Reference(calls) && Sound(Run(calls), LastCheck(calls))
  }

  /** The limiter before a call is sound as of a moment no later than the check. */
  lemma BeforeCall(before: seq<Call>, c: Call) returns (last: real)
    requires Clocked(before + [c]) && Sound(Run(before), LastCheck(before))
    ensures Sound(Run(before), last) && last <= c.check <= c.record
  {
    var n, calls := |before|, before + [c];
    assert calls[n] == c;
    if n == 0 {
      last := c.check;
    } else {
      assert calls[n - 1] == before[n - 1];
      last := before[n - 1].check;
    }
  }

  lemma NextCall(before: seq<Call>, c: Call)
    requires Clocked(before + [c]) && Holds(before)
    ensures Sound(Admit(Run(before), c), c.check)
    ensures Admit(Run(before), c).recorded == Reference(before) +
      if Count(Reference(before), After(c.check - WINDOW)) < RATE_LIMIT then [c.record] else []
  {
    var last := BeforeCall(before, c);
    AdmitIsExact(Run(before), last, c);
    AdmitIsSound(Run(before), last, c);
  }

  lemma HoldsNext(before: seq<Call>, c: Call)
    requires Clocked(before + [c]) && Holds(before)
    ensures Holds(before + [c])
  {
    NextCall(before, c);
    assert (before + [c])[..|before|] == before && (before + [c])[|before|] == c;
    assert Reference(before) + [] == Reference(before);
  }

  lemma {:induction false} RunHolds(calls: seq<Call>)
    requires Clocked(calls)
    ensures Holds(calls)
  {
    if calls == [] {
    } else {
      var before, c := calls[..|calls| - 1], calls[|calls| - 1];
      assert calls == before + [c];
      RunHolds(before);
      HoldsNext(before, c);
    }
  }

  /**
    In every run: the pruned list decides exactly as the reference limiter does, holds at
    most 30 entries, and no half-open window of 60 seconds ever contains more than 30
    recorded requests.
  */
  lemma RateLimitHolds(calls: seq<Call>)
    requires Clocked(calls)
    ensures Run(calls).recorded == Reference(calls)
    ensures |Run(calls).kept| <= 30
    ensures WindowsBounded(Run(calls).recorded)
    ensures Sound(Run(calls), LastCheck(calls))
  {
    RunHolds(calls);
  }

  /** How many requests were recorded at one instant. */
  function CountAt(log: seq<real>, t: real): nat {
    if log == [] then 0 else (if log[0] == t then 1 else 0) + CountAt(log[1..], t)
  }

  lemma {:induction false} ClosedSplits(log: seq<real>, a: real)
    ensures Count(log, Closed(a)) == Count(log, LeftOpen(a)) + CountAt(log, a)
    ensures Count(log, Closed(a)) == Count(log, RightOpen(a)) + CountAt(log, a + WINDOW)
    ensures CountAt(log, a) <= Count(log, RightOpen(a))
  {
    if log == [] {
    } else {
      ClosedSplits(log[1..], a);
    }
  }

  /** A closed window, one instant longer, holds at most twice the limit, and more than the limit
      only with requests at both of its ends. */
  lemma ClosedWindowBound(calls: seq<Call>, a: real)
    requires Clocked(calls)
    ensures var log := Run(calls).recorded;
      && Count(log, Closed(a)) <= 60
      && (Count(log, Closed(a)) > 30 ==> CountAt(log, a) > 0 && CountAt(log, a + 60.0) > 0)
  {
    RateLimitHolds(calls);
    ClosedSplits(Run(calls).recorded, a);
    assert Count(Run(calls).recorded, LeftOpen(a)) <= RATE_LIMIT && Count(Run(calls).recorded, RightOpen(a)) <= RATE_LIMIT;
  }

  /** `n` calls at one instant. */
  function Burst(n: nat, t: real): seq<Call> {
    if n == 0 then [] else Burst(n - 1, t) + [Call(t, t)]
  }

  function Repeat(n: nat, t: real): seq<real> {
    if n == 0 then [] else Repeat(n - 1, t) + [t]
  }

  lemma {:induction false} RepeatFacts(n: nat, t: real)
    ensures |Repeat(n, t)| == n
    ensures forall cutoff :: Recent(Repeat(n, t), cutoff) == if t > cutoff then Repeat(n, t) else []
    ensures forall w :: Count(Repeat(n, t), w) == if Inside(t, w) then n else 0
  {
    if n == 0 {
    } else {
      RepeatFacts(n - 1, t);
      forall cutoff ensures Recent(Repeat(n, t), cutoff) == if t > cutoff then Repeat(n, t) else [] {
        RecentAppend(Repeat(n - 1, t), [t], cutoff);
        assert Repeat(n - 1, t) + [] == Repeat(n - 1, t);
      }
      forall w ensures Count(Repeat(n, t), w) == if Inside(t, w) then n else 0 {
        CountAppend(Repeat(n - 1, t), t, w);
      }
    }
  }

  lemma RunSnoc(calls: seq<Call>, c: Call)
    ensures Run(calls + [c]) == Admit(Run(calls), c)
  {
    assert (calls + [c])[..|calls|] == calls;
  }

  lemma {:induction false} FirstBurst(n: nat)
    requires n <= RATE_LIMIT
    ensures Run(Burst(n, 0.0)) == Limiter(Repeat(n, 0.0), Repeat(n, 0.0))
  {
    if n == 0 {
    } else {
      FirstBurst(n - 1);
      RunSnoc(Burst(n - 1, 0.0), Call(0.0, 0.0));
      RepeatFacts(n - 1, 0.0);
    }
  }

  /** A minute later what was kept from instant 0 is forgotten, and what is kept since then is not. */
  lemma PassesAgain(kept: nat, n: nat, recorded: seq<real>)
    requires 0 < n <= RATE_LIMIT
    requires n > 1 ==> kept == n - 1
    ensures Admit(Limiter(if n == 1 then Repeat(kept, 0.0) else Repeat(kept, WINDOW), recorded), Call(WINDOW, WINDOW))
      == Limiter(Repeat(n, WINDOW), recorded + [WINDOW])
  {
    RepeatFacts(kept, 0.0);
    RepeatFacts(kept, WINDOW);
    if n == 1 { assert Repeat(0, WINDOW) == [] && [] + [WINDOW] == Repeat(1, WINDOW); }
  }

  lemma {:induction false} BurstCalls(n: nat, t: real)
    ensures |Burst(n, t)| == n && forall i :: 0 <= i < n ==> Burst(n, t)[i] == Call(t, t)
  {
    if n == 0 {
    } else {
      BurstCalls(n - 1, t);
    }
  }

  lemma SnocOnto<T>(a: seq<T>, b: seq<T>, x: T)
    ensures a + (b + [x]) == (a + b) + [x]
  {
  }

  function AfterBursts(m: nat, n: nat): Limiter {
    Run(Burst(m, 0.0) + Burst(n, WINDOW))
  }

  lemma BurstGrows(m: nat, n: nat)
    ensures AfterBursts(m, n + 1) == Admit(AfterBursts(m, n), Call(WINDOW, WINDOW))
  {
    SnocOnto(Burst(m, 0.0), Burst(n, WINDOW), Call(WINDOW, WINDOW));
    RunSnoc(Burst(m, 0.0) + Burst(n, WINDOW), Call(WINDOW, WINDOW));
  }

  ghost predicate KeepsSecond(l: Limiter, m: nat, n: nat) {
    l == Limiter(Repeat(n, WINDOW), Repeat(m, 0.0) + Repeat(n, WINDOW))
  }

  lemma FirstAgain(m: nat)
    requires m <= RATE_LIMIT
    ensures KeepsSecond(AfterBursts(m, 1), m, 1)
  {
    BurstGrows(m, 0);
    assert Burst(m, 0.0) + Burst(0, WINDOW) == Burst(m, 0.0);
    FirstBurst(m);
    PassesAgain(m, 1, Repeat(m, 0.0));
    assert Repeat(1, WINDOW) == [WINDOW] by { assert Repeat(0, WINDOW) == [] && [] + [WINDOW] == [WINDOW]; }
  }

  lemma NextAgain(l: Limiter, m: nat, n: nat)
    requires 0 < n < RATE_LIMIT && KeepsSecond(l, m, n)
    ensures KeepsSecond(Admit(l, Call(WINDOW, WINDOW)), m, n + 1)
  {
    PassesAgain(n, n + 1, l.recorded);
    SnocOnto(Repeat(m, 0.0), Repeat(n, WINDOW), WINDOW);
  }

  /** So as many requests pass again. */
  lemma {:induction false} SecondBurst(m: nat, n: nat)
    requires m <= RATE_LIMIT && 0 < n <= RATE_LIMIT
    ensures KeepsSecond(AfterBursts(m, n), m, n)
    decreases n
  {
    if n == 1 {
      FirstAgain(m);
    } else {
      SecondBurst(m, n - 1);
      BurstGrows(m, n - 1);
      NextAgain(AfterBursts(m, n - 1), m, n - 1);
    }
  }

  lemma {:induction false} CountConcat(a: seq<real>, b: seq<real>, w: Window)
    ensures Count(a + b, w) == Count(a, w) + Count(b, w)
  {
    if a == [] {
      assert a + b == b;
    } else {
      assert (a + b)[1..] == a[1..] + b;
      CountConcat(a[1..], b, w);
    }
  }

  lemma BurstsFillBothEnds(n: nat)
    requires 0 < n <= RATE_LIMIT
    ensures var calls := Burst(n, 0.0) + Burst(n, WINDOW);
      Clocked(calls) && Count(Run(calls).recorded, Closed(0.0)) == 2 * n
  {
    SecondBurst(n, n);
    RepeatFacts(n, 0.0);
    RepeatFacts(n, WINDOW);
    CountConcat(Repeat(n, 0.0), Repeat(n, WINDOW), Closed(0.0));
    BurstCalls(n, 0.0);
    BurstCalls(n, WINDOW);
  }

  /** The bound is reached: 30 requests at one instant and 30 more exactly a minute later all pass. */
  lemma ClosedWindowCanHold60()
    ensures exists calls :: Clocked(calls) && Count(Run(calls).recorded, Closed(0.0)) == 60
  {
    var n: nat :| n == RATE_LIMIT;
    BurstsFillBothEnds(n);
    var calls := Burst(n, 0.0) + Burst(n, WINDOW);
    assert Clocked(calls) && Count(Run(calls).recorded, Closed(0.0)) == 2 * n;
  }

  // ---------------------------------------------------------------------------
  // Provider quotes and ranking
  // ---------------------------------------------------------------------------

  /** A JSON field that should be a number: missing or falsy, a number, or something `float` rejects. */
  datatype Field = Missing | Num(v: real) | Bad

  datatype Quote = Quote(name: string, fee: Field, rate: Field, exchangeRate: Field,
                         received: Field, targetAmount: Field, midRate: Field)

  datatype Provider = Provider(name: string, fee: real, fxMarkup: real, totalCost: real, receives: real, rank: nat)

  /** `a or b` on two fields. */
  function Or(a: Field, b: Field): Field {
    if a == Missing || a == Num(0.0) then b else a
  }

  function Abs(x: real): real { if x < 0.0 then -x else x }

  function FxMarkup(rate: real, midRate: real, send: Option<real>): real {
    if midRate > 0.0 && rate > 0.0 && send.Some? then send.value * (Abs(midRate - rate) / midRate) else 0.0
  }

  /** None covers both the unnamed quote that is skipped and the malformed one that raises. */
  function ParseQuote(q: Quote, send: Option<real>): Option<Provider> {
    var fee, rate := Or(q.fee, Num(0.0)), Or(Or(q.rate, q.exchangeRate), Num(0.0));
    var received, mid := Or(Or(q.received, q.targetAmount), Num(0.0)), Or(q.midRate, Num(0.0));
    if q.name == "" || !fee.Num? || !rate.Num? || !received.Num? || !mid.Num? then None
    else
      var markup := FxMarkup(rate.v, mid.v, send);
      Some(Provider(q.name, Round2(fee.v), Round2(markup), Round2(fee.v + markup), Round2(received.v), 0))
  }

  /** A figure that is read from one field, or from another when the first is missing or zero. */
  ghost predicate Reads(a: Field, b: Field, v: real) {
    if a.Num? && a.v != 0.0 then v == a.v
    else !a.Bad? && (b == Num(v) || (b.Missing? && v == 0.0))
  }

  /** Which quotes are taken: those with a name whose figures can be read.  Bad is a field that is looked
      at and is no number. */
  lemma QuoteIsTakenIff(q: Quote, send: Option<real>)
    ensures ParseQuote(q, send).Some? <==>
      && q.name != "" && !q.fee.Bad? && !q.midRate.Bad?
      && (exists rate :: Reads(q.rate, q.exchangeRate, rate))
      && (exists received :: Reads(q.received, q.targetAmount, received))
  {
    if q.exchangeRate.Num? { assert Reads(q.exchangeRate, Missing, q.exchangeRate.v); }
    FigureExists(q.rate, q.exchangeRate);
    FigureExists(q.received, q.targetAmount);
  }

  lemma FigureExists(a: Field, b: Field)
    ensures (exists v :: Reads(a, b, v)) <==> Or(Or(a, b), Num(0.0)).Num?
  {
    var f := Or(Or(a, b), Num(0.0));
    if f.Num? { assert Reads(a, b, f.v); }
  }

  function FeeOf(q: Quote): real { if q.fee.Num? then q.fee.v else 0.0 }

  function MidOf(q: Quote): real { if q.midRate.Num? then q.midRate.v else 0.0 }

  /** How far a sum is from what it would be worth if `mid` were the rate and not `rate`. */
  function Distance(sum: real, rate: real, mid: real): real
    requires mid > 0.0
  {
    var difference := sum - sum * rate / mid;
    if difference < 0.0 then -difference else difference
  }

  ghost predicate ToTheCent(shown: real, exact: real) { -0.005 <= shown - exact <= 0.005 }

  /** The figures of a provider are those of its quote, to the cent; the markup is what the sum sent loses
      or gains against the mid-market rate (with the sign of the sum), and nothing if there is no sum or one
      of the rates is missing. */
  lemma ParsedFigures(q: Quote, send: Option<real>, rate: real, received: real)
    requires ParseQuote(q, send).Some?
    requires Reads(q.rate, q.exchangeRate, rate) && Reads(q.received, q.targetAmount, received)
    ensures var p := ParseQuote(q, send).value;
      p.name == q.name && ToTheCent(p.fee, FeeOf(q)) && ToTheCent(p.receives, received)
    ensures var p := ParseQuote(q, send).value;
      send.Some? && send.value != 0.0 && rate > 0.0 && MidOf(q) > 0.0 ==>
        var markup := if send.value > 0.0 then Distance(send.value, rate, MidOf(q)) else -Distance(-send.value, rate, MidOf(q));
        ToTheCent(p.fxMarkup, markup) && ToTheCent(p.totalCost, FeeOf(q) + markup)
    ensures var p := ParseQuote(q, send).value;
      send in {None, Some(0.0)} || rate <= 0.0 || MidOf(q) <= 0.0 ==>
        p.fxMarkup == 0.0 && ToTheCent(p.totalCost, FeeOf(q))
  {
    FiguresRead(q, send, rate, received);
    FiguresRound(FeeOf(q), FxMarkup(rate, MidOf(q), send), received);
    if send.Some? && send.value != 0.0 && rate > 0.0 && MidOf(q) > 0.0 { MarkupIsDistance(send, rate, MidOf(q)); }
    if send in {None, Some(0.0)} || rate <= 0.0 || MidOf(q) <= 0.0 { NoMarkup(send, rate, MidOf(q)); }
  }

  lemma NoMarkup(send: Option<real>, rate: real, mid: real)
    requires send in {None, Some(0.0)} || rate <= 0.0 || mid <= 0.0
    ensures FxMarkup(rate, mid, send) == 0.0
  {
  }

  lemma FiguresRead(q: Quote, send: Option<real>, rate: real, received: real)
    requires ParseQuote(q, send).Some?
    requires Reads(q.rate, q.exchangeRate, rate) && Reads(q.received, q.targetAmount, received)
    ensures var markup := FxMarkup(rate, MidOf(q), send);
      ParseQuote(q, send) == Some(Provider(q.name, Round2(FeeOf(q)), Round2(markup), Round2(FeeOf(q) + markup), Round2(received), 0))
  {
  }

  lemma FiguresRound(fee: real, markup: real, received: real)
    ensures ToTheCent(Round2(fee), fee) && ToTheCent(Round2(received), received)
    ensures ToTheCent(Round2(markup), markup) && ToTheCent(Round2(fee + markup), fee + markup)
    ensures Round2(0.0) == 0.0
  {
    Round2IsNearest(fee);
    Round2IsNearest(received);
    Round2IsNearest(markup);
    Round2IsNearest(fee + markup);
  }

  lemma Divides(x: real, m: real, y: real)
    requires m > 0.0 && x * m == y
    ensures y / m == x
  {
  }

  lemma MarkupIsDistance(send: Option<real>, rate: real, mid: real)
    requires send.Some? && send.value != 0.0 && rate > 0.0 && mid > 0.0
    ensures FxMarkup(rate, mid, send) ==
      if send.value > 0.0 then Distance(send.value, rate, mid) else -Distance(-send.value, rate, mid)
  {
    if send.value > 0.0 {
      ShareIsDistance(send.value, rate, mid);
    } else {
      ShareIsDistance(-send.value, rate, mid);
      Negates(send.value, Abs(mid - rate) / mid);
    }
  }

  lemma Negates(s: real, x: real)
    ensures s * x == -((-s) * x)
  {
  }

  lemma ShareIsDistance(s: real, rate: real, mid: real)
    requires s > 0.0 && mid > 0.0
    ensures s * (Abs(mid - rate) / mid) == Abs(s - s * rate / mid)
  {
    var part := rate / mid;
    Divides(1.0 - part, mid, mid - rate);
    Divides(part - 1.0, mid, rate - mid);
    Divides(s * part, mid, s * rate);
    ScaleAbs(s, 1.0 - part);
    assert Abs(mid - rate) / mid == Abs(1.0 - part);
  }

  lemma ScaleAbs(s: real, x: real)
    requires s > 0.0
    ensures s * Abs(x) == Abs(s * x) && s * x == s - s * (1.0 - x)
  {
  }

  function Parsed(quotes: seq<Quote>, send: Option<real>): seq<Provider> {
    if quotes == [] then []
    else
      var p := ParseQuote(quotes[|quotes| - 1], send);
      Parsed(quotes[..|quotes| - 1], send) + if p.Some? then [p.value] else []
  }

  function Taken(q: Quote, send: Option<real>): seq<Provider> {
    match ParseQuote(q, send) case Some(p) => [p] case None => []
  }

  lemma ParsedOne(quotes: seq<Quote>, q: Quote, send: Option<real>)
    ensures Parsed(quotes + [q], send) == Parsed(quotes, send) + Taken(q, send)
  {
    assert (quotes + [q])[..|quotes|] == quotes;
  }

  lemma Extend<T>(a: seq<T>, b: seq<T>, c: seq<T>)
    ensures (a + b) + c == a + (b + c) && [] + a == a && a + [] == a
  {
  }

  /** Every quote that is taken is there, once and in the order of the response, and nothing else is. */
  lemma {:induction false} ParsedInOrder(a: seq<Quote>, b: seq<Quote>, q: Quote, send: Option<real>)
    ensures Parsed([q], send) == match ParseQuote(q, send) case Some(p) => [p] case None => []
    ensures Parsed(a + b, send) == Parsed(a, send) + Parsed(b, send)
  {
    ParsedOne([], q, send);
    Extend([], [q], []);
    Extend(Taken(q, send), [], []);
    if b == [] {
      Extend(a, [], []);
      Extend(Parsed(a, send), [], []);
    } else {
      var n := |b| - 1;
      ParsedInOrder(a, b[..n], q, send);
      Extend(a, b[..n], [b[n]]);
      assert b[..n] + [b[n]] == b;
      ParsedOne(a + b[..n], b[n], send);
      ParsedOne(b[..n], b[n], send);
      Extend(Parsed(a, send), Parsed(b[..n], send), Taken(b[n], send));
    }
  }

  predicate Cheaper(a: Provider, b: Provider) {
    a.totalCost <= b.totalCost
  }

  ghost predicate IsRanking(ranked: seq<Provider>, parsed: seq<Provider>) {
    && |ranked| == |parsed|
    && (forall i :: 0 <= i < |ranked| ==> ranked[i].rank == i + 1)
    && Unranked(ranked) == StableSort(parsed, Cheaper)
  }

  function Unranked(ps: seq<Provider>): seq<Provider> {
    seq(|ps|, i requires 0 <= i < |ps| => ps[i].(rank := 0))
  }

  /** Sorts and ranks the parsed quotes, as the two loops of the source do. */
  method ParseComparison(quotes: seq<Quote>, send: Option<real>) returns (providers: seq<Provider>)
    ensures IsRanking(providers, Parsed(quotes, send))
  {
    providers := [];
    for i := 0 to |quotes|
      invariant providers == Parsed(quotes[..i], send)
    {
      var p := ParseQuote(quotes[i], send);
      assert quotes[..i + 1][..i] == quotes[..i];
      if p.Some? { providers := providers + [p.value]; }
    }
    assert quotes[..|quotes|] == quotes;
    ParsedIsUnranked(quotes, send);
    providers := StableSort(providers, Cheaper);
    ghost var sorted := providers;
    for i := 0 to |providers|
      invariant |providers| == |sorted|
      invariant forall k :: 0 <= k < |sorted| ==> providers[k] == sorted[k].(rank := if k < i then k + 1 else sorted[k].rank)
    {
      providers := providers[i := providers[i].(rank := i + 1)];
    }
    RankingDone(Parsed(quotes, send), providers);
  }

  /** Ranks 1, 2, 3 and so on over the sorted quotes, none of which had a rank before. */
  lemma RankingDone(parsed: seq<Provider>, ranked: seq<Provider>)
    requires forall p :: p in parsed ==> p.rank == 0
    requires var sorted := StableSort(parsed, Cheaper);
      |ranked| == |sorted| && forall k :: 0 <= k < |sorted| ==> ranked[k] == sorted[k].(rank := k + 1)
    ensures IsRanking(ranked, parsed)
  {
    var sorted := StableSort(parsed, Cheaper);
    SortPermutes(parsed, Cheaper);
    SameElements(parsed, sorted);
    forall k | 0 <= k < |sorted| ensures Unranked(ranked)[k] == sorted[k] {
      assert sorted[k] in sorted;
    }
    assert Unranked(ranked) == sorted;
  }

  lemma {:induction false} ParsedIsUnranked(quotes: seq<Quote>, send: Option<real>)
    ensures forall p :: p in Parsed(quotes, send) ==> p.rank == 0
  {
    if quotes == [] {
    } else {
      ParsedIsUnranked(quotes[..|quotes| - 1], send);
    }
  }

  lemma RankingClimbs(ranked: seq<Provider>, parsed: seq<Provider>)
    requires IsRanking(ranked, parsed)
    ensures forall i, j :: 0 <= i < j < |ranked| ==> ranked[i].totalCost <= ranked[j].totalCost
  {
    var u := Unranked(ranked);
    SortSorts(parsed, Cheaper);
    forall i, j | 0 <= i < j < |ranked| ensures ranked[i].totalCost <= ranked[j].totalCost {
      assert Cheaper(u[i], u[j]);
    }
  }

  lemma RankingBounds(ranked: seq<Provider>, parsed: seq<Provider>, p: Provider)
    requires IsRanking(ranked, parsed) && p in parsed
    ensures |ranked| > 0 && ranked[0].totalCost <= p.totalCost <= ranked[|ranked| - 1].totalCost
  {
    var u := Unranked(ranked);
    SortPermutes(parsed, Cheaper);
    SameElements(parsed, u);
    RankingClimbs(ranked, parsed);
    var k :| 0 <= k < |u| && u[k] == p;
    assert ranked[k].totalCost == p.totalCost;
  }

  /**
    What a ranking means: costs never fall as ranks rise, the first entry is a cheapest and
    the last a most expensive provider, nothing is lost or invented, and providers that cost
    the same keep the order of the response.
  */
  lemma RankingOrdersByCost(ranked: seq<Provider>, quotes: seq<Quote>, send: Option<real>)
    requires IsRanking(ranked, Parsed(quotes, send))
    ensures forall i, j :: 0 <= i < j < |ranked| ==> ranked[i].totalCost <= ranked[j].totalCost
    ensures multiset(Unranked(ranked)) == multiset(Parsed(quotes, send))
    ensures forall p: Provider :: Ties(Unranked(ranked), p, Cheaper) == Ties(Parsed(quotes, send), p, Cheaper)
    ensures forall p :: p in Parsed(quotes, send) ==> ranked[0].totalCost <= p.totalCost <= ranked[|ranked| - 1].totalCost
  {
    var parsed := Parsed(quotes, send);
    SortPermutes(parsed, Cheaper);
    RankingClimbs(ranked, parsed);
    forall p: Provider ensures Ties(Unranked(ranked), p, Cheaper) == Ties(parsed, p, Cheaper) { SortIsStable(parsed, p, Cheaper); }
    forall p | p in parsed ensures ranked[0].totalCost <= p.totalCost <= ranked[|ranked| - 1].totalCost {
      RankingBounds(ranked, parsed, p);
    }
  }

  /** Ranking by the rounded total agrees with the exact total to within a cent. */
  lemma RankingRespectsExactCost(fee: real, markup: real, fee': real, markup': real)
    ensures fee + markup <= fee' + markup' ==> Round2(fee + markup) <= Round2(fee' + markup')
    ensures Round2(fee + markup) <= Round2(fee' + markup') ==> fee + markup <= fee' + markup' + 0.01
  {
    if fee + markup <= fee' + markup' { RoundMonotone(fee + markup, fee' + markup'); }
  }

  /** The three rounded figures of a provider fit together to within a cent and a half, and a
      provider that trades at the mid-market rate has no markup. */
  lemma ProviderFiguresAddUp(q: Quote, send: Option<real>)
    ensures var p := ParseQuote(q, send);
      p.Some? ==>
        && -0.015 <= p.value.totalCost - (p.value.fee + p.value.fxMarkup) <= 0.015
        && (q.rate.Num? && q.midRate == q.rate ==> p.value.fxMarkup == 0.0)
    ensures ParseQuote(q, send).Some? ==> ParseQuote(q, send).value.name == q.name != ""
  {
  }

  // ---------------------------------------------------------------------------
  // The cache
  // ---------------------------------------------------------------------------

  datatype DataSource = Realtime | FromCache

  datatype Comparison = Comparison(send: Option<real>, providers: seq<Provider>, dataSource: DataSource, fetchedAt: real)

  datatype CacheEntry = CacheEntry(data: Comparison, expiresAt: real)

  datatype CacheEvent = Stored(key: string, data: Comparison, at: real) | Cleared

  function CacheOf(events: seq<CacheEvent>): map<string, CacheEntry> {
    if events == [] then map[]
    else
      var n := |events| - 1;
      match events[n]
      case Cleared => map[]
      case Stored(k, d, at) => CacheOf(events[..n])[k := CacheEntry(d, at + CACHE_TTL)]
  }

  function Lookup(cache: map<string, CacheEntry>, key: string, now: real): Option<Comparison> {
    if key in cache && cache[key].expiresAt > now then Some(cache[key].data) else None
  }

  /** Event `i` is the latest store under `key`, with no clearing since. */
  ghost predicate LatestStore(events: seq<CacheEvent>, key: string, i: nat) {
    && i < |events| && events[i].Stored? && events[i].key == key
    && forall j :: i < j < |events| ==> events[j].Stored? && events[j].key != key
  }

  /** A hit is exactly the latest store under the key, made less than 300 seconds ago. */
  lemma {:induction false} HitIsLatestStore(events: seq<CacheEvent>, key: string, now: real, data: Comparison)
    ensures Lookup(CacheOf(events), key, now) == Some(data)
      <==> exists i: nat :: LatestStore(events, key, i) && events[i].data == data && now < events[i].at + 300.0
  {
    if events == [] {
    } else {
      var n := |events| - 1;
      var before := events[..n];
      if events[n].Stored? && events[n].key == key {
        assert LatestStore(events, key, n);
      } else if events[n].Stored? {
        HitIsLatestStore(before, key, now, data);
        assert forall i: nat :: LatestStore(events, key, i) <==> LatestStore(before, key, i);
      }
    }
  }

  function CacheKey(source: string, target: string, send: string, receive: string): string {
    "wise:" + source + ":" + target + ":" + send + ":" + receive
  }

  lemma {:induction false} SplitAtColon(a: string, b: string, x: string, y: string)
    requires ':' !in a && ':' !in b
    requires a + ":" + x == b + ":" + y
    ensures a == b && x == y
  {
    var l, r := a + ":" + x, b + ":" + y;
    if a == [] || b == [] {
      assert l[|a|] == ':' && r[|b|] == ':';
      assert l[0] == r[0];
      assert a == b;
    } else {
      assert l[0] == a[0] && r[0] == b[0];
      assert l[1..] == a[1..] + ":" + x && r[1..] == b[1..] + ":" + y;
      SplitAtColon(a[1..], b[1..], x, y);
      assert a == [a[0]] + a[1..] && b == [b[0]] + b[1..];
    }
    assert l[|a| + 1..] == x && r[|b| + 1..] == y;
  }

  /** Requests with colon-free currency codes share a cache key only if they are the same request. */
  lemma CacheKeyInjective(s: string, t: string, x: string, y: string, s': string, t': string, x': string, y': string)
    requires ':' !in s && ':' !in t && ':' !in x && ':' !in s' && ':' !in t' && ':' !in x'
    requires CacheKey(s, t, x, y) == CacheKey(s', t', x', y')
    ensures s == s' && t == t' && x == x' && y == y'
  {
    var rest, rest' := t + ":" + x + ":" + y, t' + ":" + x' + ":" + y';
    assert CacheKey(s, t, x, y)[5..] == s + ":" + rest;
    assert CacheKey(s', t', x', y')[5..] == s' + ":" + rest';
    SplitAtColon(s, s', rest, rest');
    assert rest == t + ":" + (x + ":" + y) && rest' == t' + ":" + (x' + ":" + y');
    SplitAtColon(t, t', x + ":" + y, x' + ":" + y');
    SplitAtColon(x, x', y, y');
  }

  /** With colons in the codes two different requests can collide. */
  lemma CacheKeyCollision()
    ensures CacheKey("A:B", "C", "1", "None") == CacheKey("A", "B:C", "1", "None")
  {
  }

  // ---------------------------------------------------------------------------
  // The client
  // ---------------------------------------------------------------------------

  datatype Begun = Simulated | AmountMissing | Hit(data: Comparison) | RateLimited | Sent(key: string)

  /** A response body: an error dictionary, a dictionary of quotes, or a bare list. */
  datatype Response = ErrorBody(message: string) | Quotes(quotes: seq<Quote>) | ListBody(quotes: seq<Quote>)

  datatype Finished = Failed(message: string) | Raised | Fetched(data: Comparison)

  class Client {
    const configured: bool
    const show: Option<real> -> string   // Python's rendering of an optional amount
    var cache: map<string, CacheEntry>
    var timestamps: seq<real>
    ghost var recorded: seq<real>        // every request ever recorded
    ghost var lastCheck: real            // the clock at the latest rate check
    ghost var events: seq<CacheEvent>    // every cache store and clearing
    ghost var clock: real                // the latest clock reading

    ghost function View(): Limiter
      reads this
    {
      Limiter(timestamps, recorded)
    }

    ghost predicate Valid()
      reads this
    {
      && Sound(View(), lastCheck)
      && lastCheck <= clock
      && cache == CacheOf(events)
    }

    constructor (configured: bool, show: Option<real> -> string)
      ensures Valid() && recorded == [] && events == []
      ensures this.configured == configured && this.show == show
    {
      this.configured, this.show := configured, show;
      cache, timestamps, recorded, events, lastCheck, clock := map[], [], [], [], 0.0, 0.0;
    }

    method CheckRateLimit(now: real) returns (ok: bool)
      modifies this`timestamps
      ensures timestamps == Recent(old(timestamps), now - WINDOW)
      ensures ok == (|timestamps| < RATE_LIMIT)
    {
      var cutoff := now - WINDOW;
      timestamps := Recent(timestamps, cutoff);
      ok := |timestamps| < RATE_LIMIT;
    }

    method RecordRateLimit(now: real)
      modifies this`timestamps
      ensures timestamps == old(timestamps) + [now]
    {
      timestamps := timestamps + [now];
    }

    /** The rate check and, with no await in between, the recording at the top of `_request`. */
    method TryRequest(checked: real, at: real) returns (ok: bool)
      requires Valid()
      requires clock <= checked <= at
      modifies this`timestamps, this`recorded, this`lastCheck, this`clock
      ensures Valid()
      ensures View() == Admit(old(View()), Call(checked, at))
      ensures ok <==> Count(old(recorded), After(checked - 60.0)) < 30
      ensures recorded == old(recorded) + if ok then [at] else []
      ensures WindowsBounded(recorded) && |timestamps| <= 30
    {
      AdmitIsExact(View(), lastCheck, Call(checked, at));
      AdmitIsSound(View(), lastCheck, Call(checked, at));
      ok := CheckRateLimit(checked);
      if ok {
        RecordRateLimit(at);
        recorded := recorded + [at];
      }
      lastCheck, clock := checked, at;
    }

    /**
      `get_comparison` up to the HTTP call.  The three readings are those of the cache
      lookup, the rate check and the recording.
    */
    method Begin(source: string, target: string, send: Option<real>, receive: Option<real>,
                 lookedUp: real, checked: real, at: real)
      returns (outcome: Begun)
      requires Valid()
      requires clock <= lookedUp <= checked <= at
      modifies this`timestamps, this`recorded, this`lastCheck, this`clock
      ensures Valid()
      ensures !configured <==> outcome == Simulated
      ensures configured && send == receive == None <==> outcome == AmountMissing
      ensures configured && !(send == receive == None) ==>
        var key := CacheKey(source, target, show(send), show(receive));
        match Lookup(cache, key, lookedUp)
        case Some(data) => outcome == Hit(data.(dataSource := FromCache))
        case None =>
          outcome == if Count(old(recorded), After(checked - 60.0)) < 30 then Sent(key) else RateLimited
      ensures View() == if outcome.Sent? || outcome.RateLimited? then Admit(old(View()), Call(checked, at)) else old(View())
      ensures recorded == old(recorded) + if outcome.Sent? then [at] else []
      ensures WindowsBounded(recorded) && |timestamps| <= 30
    {
      if !configured { return Simulated; }
      if send.None? && receive.None? { return AmountMissing; }
      var key := CacheKey(source, target, show(send), show(receive));
      var cached := Lookup(cache, key, lookedUp);
      if cached.Some? { return Hit(cached.value.(dataSource := FromCache)); }
      var ok := TryRequest(checked, at);
      outcome := if ok then Sent(key) else RateLimited;
    }

    method SetCached(key: string, data: Comparison, now: real)
      requires Valid() && clock <= now
      modifies this`cache, this`events, this`clock
      ensures Valid() && clock == now && events == old(events) + [Stored(key, data, now)]
    {
      ghost var next := events + [Stored(key, data, now)];
      assert next[..|events|] == events;
      cache := cache[key := CacheEntry(data, now + CACHE_TTL)];
      events, clock := next, now;
    }

    /** `get_comparison` after the response: parse, stamp, cache. */
    method Finish(key: string, send: Option<real>, response: Response, fetchedAt: real, storedAt: real)
      returns (outcome: Finished)
      requires Valid() && clock <= fetchedAt <= storedAt
      modifies this`cache, this`events, this`clock
      ensures Valid()
      ensures response.ErrorBody? ==> outcome == Failed(response.message) && events == old(events)
      ensures response.ListBody? ==> outcome == Raised && events == old(events)
      ensures response.Quotes? ==>
        && outcome.Fetched?
        && IsRanking(outcome.data.providers, Parsed(response.quotes, send))
        && outcome.data == Comparison(send, outcome.data.providers, Realtime, fetchedAt)
        && events == old(events) + [Stored(key, outcome.data, storedAt)]
    {
      if response.ErrorBody? { return Failed(response.message); }
      if response.ListBody? { return Raised; }   // a list has no `get`
      var providers := ParseComparison(response.quotes, send);
      var parsed := Comparison(send, providers, Realtime, fetchedAt);
      SetCached(key, parsed, storedAt);
      outcome := Fetched(parsed);
    }

    method ClearCache()
      requires Valid()
      modifies this`cache, this`events
      ensures Valid() && cache == map[] && events == old(events) + [Cleared]
    {
      cache, events := map[], events + [Cleared];
    }
  }
}
