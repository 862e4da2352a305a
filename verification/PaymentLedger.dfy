/**
  The x402 payment client: reputation-weighted rewards, an audit history that is trimmed to
  its newest 5,000 entries whenever it passes 10,000, payment receipts with a ten-minute
  life, and a batch loop that carries on after a failed payment.

  The trimmed history is proved against the full log of everything ever appended.
*/
module PaymentLedger {
  import opened Common
  import opened Rounding

  const HISTORY_LIMIT := 10_000
  const HISTORY_KEEP := 5_000
  const TRIM_PERIOD := 5_001   // appends from one trimming to the next
  const RECEIPT_TTL := 600.0
  const MAX_RETRIES := 3

  // ---------------------------------------------------------------------------
  // The trimmed history
  // ---------------------------------------------------------------------------

  function AppendTrimmed<E>(history: seq<E>, e: E): seq<E> {
    var longer := history + [e];
    if |longer| > HISTORY_LIMIT then longer[|longer| - HISTORY_KEEP..] else longer
  }

  /** The history after appending every entry of `log`, one at a time. */
  function Trimmed<E>(log: seq<E>): seq<E> {
    if log == [] then [] else AppendTrimmed(Trimmed(log[..|log| - 1]), log[|log| - 1])
  }

  /** Python's `s[-limit:]`, for any integer: zero and negative limits count from the front. */
  function LastEntries<E>(s: seq<E>, limit: int): seq<E> {
    if limit > 0 then s[if limit < |s| then |s| - limit else 0..]
    else s[if -limit < |s| then -limit else |s|..]
  }

  /** For a positive limit the answer is that many entries from the end, or all there are; for another
      one, all but that many from the front. */
  lemma LastEntriesAre<E>(s: seq<E>, limit: int)
    ensures var r := LastEntries(s, limit);
      && |r| <= |s| && r == s[|s| - |r|..]
      && (limit > 0 ==> |r| == if limit < |s| then limit else |s|)
      && (limit <= 0 ==> |s| - |r| == if -limit < |s| then -limit else |s|)
  {
  }

  /** How many of `n` appended entries are kept: a sawtooth between 5,000 and 10,000. */
  function KeptLength(n: nat): nat {
    if n <= HISTORY_LIMIT then n
    else HISTORY_KEEP + (n - HISTORY_LIMIT - 1) % TRIM_PERIOD
  }

  lemma KeptStep(n: nat)
    ensures KeptLength(n + 1) == if KeptLength(n) == HISTORY_LIMIT then HISTORY_KEEP else KeptLength(n) + 1
    ensures KeptLength(n) <= HISTORY_LIMIT && KeptLength(n) <= n
  {
  }

  lemma AppendToSuffix<E>(log: seq<E>, e: E, t: seq<E>)
    requires |t| <= |log| && |t| <= HISTORY_LIMIT && t == log[|log| - |t|..]
    ensures var h := AppendTrimmed(t, e);
      && |h| == (if |t| == HISTORY_LIMIT then HISTORY_KEEP else |t| + 1)
      && |h| <= |log| + 1
      && h == (log + [e])[|log| + 1 - |h|..]
  {
    assert t + [e] == (log + [e])[|log| - |t|..];
  }

  lemma {:induction false} TrimmedIsTail<E>(log: seq<E>)
    ensures |Trimmed(log)| <= |log| && |Trimmed(log)| <= HISTORY_LIMIT
    ensures Trimmed(log) == log[|log| - |Trimmed(log)|..]
  {
    if log == [] {
    } else {
      var n := |log| - 1;
      TrimmedIsTail(log[..n]);
      AppendToSuffix(log[..n], log[n], Trimmed(log[..n]));
      assert log == log[..n] + [log[n]];
    }
  }

  lemma {:induction false} TrimmedLength<E>(log: seq<E>)
    ensures |Trimmed(log)| == KeptLength(|log|)
  {
    if log == [] {
    } else {
      var n := |log| - 1;
      TrimmedLength(log[..n]);
      KeptStep(n);
    }
  }

  /** The trimmed history is a suffix of the log, whose length depends on the number of appends alone. */
  lemma TrimmedIsSuffix<E>(log: seq<E>)
    ensures |Trimmed(log)| == KeptLength(|log|) <= |log|
    ensures Trimmed(log) == log[|log| - |Trimmed(log)|..]
  {
    TrimmedIsTail(log);
    TrimmedLength(log);
  }

  lemma TrimmedBounds<E>(log: seq<E>)
    ensures |Trimmed(log)| <= 10_000
    ensures |log| <= 10_000 ==> Trimmed(log) == log
    ensures |log| > 10_000 ==> 5_000 <= |Trimmed(log)| < |log|
  {
    TrimmedIsSuffix(log);
  }

  lemma SuffixAnswers<E>(log: seq<E>, t: seq<E>, limit: int)
    requires |t| < |log| && t == log[|log| - |t|..]
    ensures LastEntries(t, limit) == LastEntries(log, limit) <==> 1 <= limit <= |t| || -limit >= |log|
  {
    if 1 <= limit <= |t| {
      assert t[|t| - limit..] == log[|log| - limit..];
    } else {
      assert -limit >= |log| || |LastEntries(t, limit)| < |LastEntries(log, limit)|;
    }
  }

  /**
    For every limit, the trimmed history answers as the full log would exactly when nothing
    was ever dropped, the limit asks for no more than is kept, or the (non-positive) limit
    skips the whole log.
  */
  lemma HistoryAnswers<E>(log: seq<E>, limit: int)
    ensures LastEntries(Trimmed(log), limit) == LastEntries(log, limit)
      <==> Trimmed(log) == log || 1 <= limit <= |Trimmed(log)| || -limit >= |log|
  {
    TrimmedIsTail(log);
    if |Trimmed(log)| < |log| {
      SuffixAnswers(log, Trimmed(log), limit);
    } else {
      assert log[0..] == log;
    }
  }

  /** The limit 0 returns everything that is kept, and so the full log exactly if nothing was dropped. */
  lemma LimitZero<E>(log: seq<E>)
    ensures LastEntries(Trimmed(log), 0) == Trimmed(log)
    ensures Trimmed(log) == LastEntries(log, 0) <==> |log| <= |Trimmed(log)|
  {
    TrimmedIsTail(log);
  }

  lemma HistoryAnswersUpTo5000<E>(log: seq<E>, limit: int)
    requires 1 <= limit <= 5_000
    ensures LastEntries(Trimmed(log), limit) == LastEntries(log, limit)
  {
    HistoryAnswers(log, limit);
    TrimmedBounds(log);
  }

  // ---------------------------------------------------------------------------
  // Rewards
  // ---------------------------------------------------------------------------

  datatype Tier = Excellent | Good | Average | BelowAverage | Poor

  function TierOf(score: real): Tier {
    if score >= 90.0 then Excellent
    else if score >= 75.0 then Good
    else if score >= 50.0 then Average
    else if score >= 30.0 then BelowAverage
    else Poor
  }

  /** Multiplied by the weight of the tier. */
  function Weighted(base: real, t: Tier): real {
    match t
    case Excellent => base * 1.5
    case Good => base * 1.2
    case Average => base * 1.0
    case BelowAverage => base * 0.8
    case Poor => base * 0.6
  }

  /** The reward before rounding: half a percent, weighted, capped at 10. */
  function RawReward(amount: real, score: real): real {
    var weighted := Weighted(amount * 0.005, TierOf(score));
    if weighted < 10.0 then weighted else 10.0
  }

  function Reward(amount: real, score: real): real {
    Round6(RawReward(amount, score))
  }

  /** The tier of every score. */
  lemma TierBands(score: real)
    ensures TierOf(score) == Excellent <==> score >= 90.0
    ensures TierOf(score) == Good <==> 75.0 <= score < 90.0
    ensures TierOf(score) == Average <==> 50.0 <= score < 75.0
    ensures TierOf(score) == BelowAverage <==> 30.0 <= score < 50.0
    ensures TierOf(score) == Poor <==> score < 30.0
  {
  }

  /** How much of the half percent a score earns. */
  ghost predicate Earns(score: real, share: real) {
    || (score >= 90.0 && share == 1.5)
    || (75.0 <= score < 90.0 && share == 1.2)
    || (50.0 <= score < 75.0 && share == 1.0)
    || (30.0 <= score < 50.0 && share == 0.8)
    || (score < 30.0 && share == 0.6)
  }

  /** The reward in terms of amount and score: that share of half a percent to the nearest
      millionth, as long as it is under 10, and 10 from there on. */
  lemma RewardIs(amount: real, score: real, share: real)
    requires Earns(score, share)
    ensures var due := share * amount / 200.0;
      && (due < 10.0 ==> Micros(Reward(amount, score)) && -0.0000005 <= Reward(amount, score) - due <= 0.0000005)
      && (due >= 10.0 ==> Reward(amount, score) == 10.0)
  {
    assert RawReward(amount, score) == if share * amount / 200.0 < 10.0 then share * amount / 200.0 else 10.0;
    Round6IsNearest(RawReward(amount, score));
    assert Micros(10.0);
  }

  /** More money or a better reputation never lowers a reward; a reward is at most 10, and for
      a nonnegative amount at least 0. */
  lemma RewardMonotone(a: real, s: real, a': real, s': real)
    requires 0.0 <= a <= a' && s <= s'
    ensures 0.0 <= Reward(a, s) <= Reward(a', s') <= 10.0
  {
    assert 0.0 <= RawReward(a, s) <= RawReward(a', s');
    RoundMonotone(0.0, RawReward(a, s));
    RoundMonotone(RawReward(a, s), RawReward(a', s'));
    RewardCapped(a', s');
  }

  lemma RewardCapped(amount: real, score: real)
    ensures Reward(amount, score) <= 10.0
    ensures Micros(Reward(amount, score))
  {
    RoundMonotone(RawReward(amount, score), 10.0);
    Round6IsNearest(RawReward(amount, score));
    Round6IsNearest(10.0);
  }

  /** Reputation never works against an agent exactly when the amount is not negative. */
  lemma ReputationHelpsIff(amount: real)
    ensures (forall s, s' :: s <= s' ==> RawReward(amount, s) <= RawReward(amount, s')) <==> amount >= 0.0
  {
    if amount >= 0.0 {
      forall s, s' | s <= s' ensures RawReward(amount, s) <= RawReward(amount, s') {
        assert Weighted(amount * 0.005, TierOf(s)) <= Weighted(amount * 0.005, TierOf(s'));
      }
    } else {
      assert RawReward(amount, 0.0) > RawReward(amount, 100.0);
    }
  }

  // ---------------------------------------------------------------------------
  // Batches
  // ---------------------------------------------------------------------------

  /** A dictionary entry that should be a number: absent, a number, or of another type. */
  datatype Arg = Absent | Number(v: real) | Other

  datatype Payment = Payment(agentId: Option<int>, amount: Arg, score: Arg)

  datatype Entry =
    | RewardEntry(id: string, agentId: int, amount: real, reward: real, tier: Tier)
    | ServiceEntry(service: string, fee: real, success: bool)

  /** Receipts are kept under the id of the payment; one of a reward names the agent and its tier. */
  datatype Receipt =
    | RewardReceipt(agentId: int, amount: real, tier: Tier)
    | ServiceReceipt(service: string, amount: real, simulated: bool)

  datatype PaymentResult = Paid(id: string, agentId: int, reward: real, tier: Tier) | Rejected(agent: Option<int>)

  /** A payment raises when it names no agent or one of its two figures is not a number. */
  predicate Payable(p: Payment) {
    p.agentId.Some? && !p.amount.Other? && !p.score.Other?
  }

  function AmountOf(p: Payment): real {
    if p.amount.Number? then p.amount.v else 0.0
  }

  function ScoreOf(p: Payment): real {
    if p.score.Number? then p.score.v else 50.0
  }

  function ResultOf(p: Payment, id: string): PaymentResult {
    if Payable(p) then Paid(id, p.agentId.value, Reward(AmountOf(p), ScoreOf(p)), TierOf(ScoreOf(p))) else Rejected(p.agentId)
  }

  /** When a payment is rejected, and what it pays otherwise: an amount that is left out counts as 0
      and a score as 50. */
  lemma ResultPays(p: Payment, id: string)
    ensures var r := ResultOf(p, id);
      && (r.Rejected? <==> p.agentId.None? || p.amount == Other || p.score == Other)
      && (r.Rejected? ==> r.agent == p.agentId)
      && (r.Paid? ==> r.id == id && p.agentId == Some(r.agentId))
    ensures var r := ResultOf(p, id);
      r.Paid? ==>
        var amount := if p.amount == Absent then 0.0 else p.amount.v;
        var score := if p.score == Absent then 50.0 else p.score.v;
        r.reward == Reward(amount, score) && r.tier == TierOf(score)
  {
  }

  /** What a payment with a result leaves in the audit history and among the receipts. */
  function EntriesFor(p: Payment, r: PaymentResult): seq<Entry> {
    if r.Paid? then [RewardEntry(r.id, r.agentId, AmountOf(p), r.reward, r.tier)] else []
  }

  function IssuesFor(r: PaymentResult, at: real): seq<Issued> {
    if r.Paid? then [Issued(r.id, RewardReceipt(r.agentId, r.reward, r.tier), at)] else []
  }

  /** A paid reward leaves one entry and one receipt, under its id and with its agent, amounts and tier. */
  lemma RewardLeaves(p: Payment, id: string, at: real)
    requires ResultOf(p, id).Paid?
    ensures var r := ResultOf(p, id);
      var amount := if p.amount == Absent then 0.0 else p.amount.v;
      && EntriesFor(p, r) == [RewardEntry(id, p.agentId.value, amount, r.reward, r.tier)]
      && IssuesFor(r, at) == [Issued(id, RewardReceipt(p.agentId.value, r.reward, r.tier), at)]
  {
  }

  /** The audit entries of a batch: one for each payable payment, in order. */
  function EntriesOf(ps: seq<Payment>, rs: seq<PaymentResult>): seq<Entry>
    requires |ps| == |rs|
  {
    if rs == [] then []
    else
      var n := |rs| - 1;
      EntriesOf(ps[..n], rs[..n]) + EntriesFor(ps[n], rs[n])
  }

  /** Its receipts: one for each payable payment, in order, under its own id and with its own clock reading. */
  function IssuesOf(rs: seq<PaymentResult>, clock: nat -> real): seq<Issued> {
    if rs == [] then []
    else
      var n := |rs| - 1;
      IssuesOf(rs[..n], clock) + IssuesFor(rs[n], clock(n))
  }

  function Gain(r: PaymentResult): real { if r.Paid? then r.reward else 0.0 }

  function TotalReward(rs: seq<PaymentResult>): real {
    if rs == [] then 0.0 else TotalReward(rs[..|rs| - 1]) + Gain(rs[|rs| - 1])
  }

  lemma TakeOneMore<T>(s: seq<T>, i: nat)
    requires i < |s|
    ensures s[..i + 1] == s[..i] + [s[i]]
  {
  }

  lemma Extend<T>(a: seq<T>, b: seq<T>, c: seq<T>)
    ensures (a + b) + c == a + (b + c)
  {
  }

  /** One more payment of a batch. */
  lemma BatchGrows(ps: seq<Payment>, rs: seq<PaymentResult>, p: Payment, r: PaymentResult, clock: nat -> real)
    requires |ps| == |rs|
    ensures EntriesOf(ps + [p], rs + [r]) == EntriesOf(ps, rs) + EntriesFor(p, r)
    ensures IssuesOf(rs + [r], clock) == IssuesOf(rs, clock) + IssuesFor(r, clock(|rs|))
    ensures TotalReward(rs + [r]) == TotalReward(rs) + Gain(r)
  {
    assert (ps + [p])[..|ps|] == ps && (rs + [r])[..|rs|] == rs;
  }

  /** What the batch loop counts, and what it has entered so far. */
  datatype Batch = Batch(results: seq<PaymentResult>, failed: nat, total: real)

  function Counted(b: Batch, r: PaymentResult): Batch {
    Batch(b.results + [r], if r.Paid? then b.failed else b.failed + 1, b.total + Gain(r))
  }

  ghost predicate AreResults(ps: seq<Payment>, rs: seq<PaymentResult>, ids: nat -> string) {
    |rs| == |ps| && forall i :: 0 <= i < |ps| ==> rs[i] == ResultOf(ps[i], ids(i))
  }

  ghost predicate Entered(b: Batch, ps: seq<Payment>, log0: seq<Entry>, log: seq<Entry>, issued0: seq<Issued>, issued: seq<Issued>,
                          ids: nat -> string, clock: nat -> real)
  {
    && AreResults(ps, b.results, ids)
    && log == log0 + EntriesOf(ps, b.results) && issued == issued0 + IssuesOf(b.results, clock)
    && b.failed + |EntriesOf(ps, b.results)| == |ps| && b.total == TotalReward(b.results)
  }

  lemma NothingEntered(log: seq<Entry>, issued: seq<Issued>, ids: nat -> string, clock: nat -> real)
    ensures Entered(Batch([], 0, 0.0), [], log, log, issued, issued, ids, clock)
  {
    assert log + [] == log && issued + [] == issued;
  }

  lemma ResultsNext(ps: seq<Payment>, rs: seq<PaymentResult>, i: nat, r: PaymentResult, ids: nat -> string)
    requires i < |ps| && AreResults(ps[..i], rs, ids) && r == ResultOf(ps[i], ids(i))
    ensures AreResults(ps[..i + 1], rs + [r], ids)
  {
    var next := rs + [r];
    forall k | 0 <= k < i + 1 ensures next[k] == ResultOf(ps[..i + 1][k], ids(k)) {
      assert k < i ==> ps[..i][k] == ps[k];
    }
  }

  lemma EnteredNext(b: Batch, ps: seq<Payment>, i: nat, r: PaymentResult, log0: seq<Entry>, log: seq<Entry>,
                    issued0: seq<Issued>, issued: seq<Issued>, ids: nat -> string, clock: nat -> real)
    requires i < |ps| && Entered(b, ps[..i], log0, log, issued0, issued, ids, clock) && r == ResultOf(ps[i], ids(i))
    ensures Entered(Counted(b, r), ps[..i + 1], log0, log + EntriesFor(ps[i], r),
                    issued0, issued + IssuesFor(r, clock(i)), ids, clock)
  {
    TakeOneMore(ps, i);
    BatchGrows(ps[..i], b.results, ps[i], r, clock);
    ResultsNext(ps, b.results, i, r, ids);
    Extend(log0, EntriesOf(ps[..i], b.results), EntriesFor(ps[i], r));
    Extend(issued0, IssuesOf(b.results, clock), IssuesFor(r, clock(i)));
  }

  /** The rewards in the audit entries are what the batch pays. */
  function RewardsIn(entries: seq<Entry>): real {
    if entries == [] then 0.0
    else
      var e := entries[|entries| - 1];
      RewardsIn(entries[..|entries| - 1]) + if e.RewardEntry? then e.reward else 0.0
  }

  lemma {:induction false} EntriesPayTotal(ps: seq<Payment>, rs: seq<PaymentResult>)
    requires |ps| == |rs|
    ensures RewardsIn(EntriesOf(ps, rs)) == TotalReward(rs)
  {
    if rs == [] {
    } else {
      var n := |rs| - 1;
      EntriesPayTotal(ps[..n], rs[..n]);
      var before := EntriesOf(ps[..n], rs[..n]);
      assert before + [] == before;
      if rs[n].Paid? { assert EntriesOf(ps, rs)[..|before|] == before; }
    }
  }

  lemma ResultIsPriced(p: Payment, id: string)
    ensures var r := ResultOf(p, id);
      r.Paid? ==> Micros(r.reward) && r.reward <= 10.0 && (AmountOf(p) >= 0.0 ==> r.reward >= 0.0)
  {
    RewardCapped(AmountOf(p), ScoreOf(p));
    if AmountOf(p) >= 0.0 { RewardMonotone(AmountOf(p), ScoreOf(p), AmountOf(p), ScoreOf(p)); }
  }

  ghost predicate Priced(rs: seq<PaymentResult>) {
    forall r :: r in rs && r.Paid? ==> Micros(r.reward) && r.reward <= 10.0
  }

  lemma {:induction false} PricedTotal(ps: seq<Payment>, rs: seq<PaymentResult>)
    requires |ps| == |rs| && Priced(rs)
    ensures Micros(TotalReward(rs)) && TotalReward(rs) <= 10.0 * |EntriesOf(ps, rs)| as real
    ensures (forall r :: r in rs && r.Paid? ==> r.reward >= 0.0) ==> TotalReward(rs) >= 0.0
  {
    if rs == [] {
    } else {
      var n := |rs| - 1;
      PricedTotal(ps[..n], rs[..n]);
      if rs[n].Paid? { MicrosSum(TotalReward(rs[..n]), rs[n].reward); }
    }
  }

  /** The sum of a batch is a whole number of millionths that rounding leaves alone, at most 10 per
      successful payment, not negative if no amount is, and what its audit entries add up to. */
  lemma BatchTotal(ps: seq<Payment>, rs: seq<PaymentResult>, ids: nat -> string)
    requires AreResults(ps, rs, ids)
    ensures var total := TotalReward(rs);
      Micros(total) && Round6(total) == total <= 10.0 * |EntriesOf(ps, rs)| as real && total == RewardsIn(EntriesOf(ps, rs))
    ensures (forall p :: p in ps && Payable(p) ==> AmountOf(p) >= 0.0) ==> TotalReward(rs) >= 0.0
  {
    forall i | 0 <= i < |ps|
      ensures rs[i].Paid? ==> Micros(rs[i].reward) && rs[i].reward <= 10.0 && (AmountOf(ps[i]) >= 0.0 ==> rs[i].reward >= 0.0)
    {
      ResultIsPriced(ps[i], ids(i));
    }
    if forall p :: p in ps && Payable(p) ==> AmountOf(p) >= 0.0 {
      forall r | r in rs && r.Paid? ensures r.reward >= 0.0 {
        var i :| 0 <= i < |rs| && rs[i] == r;
        assert ps[i] in ps && Payable(ps[i]);
      }
    }
    PricedTotal(ps, rs);
    EntriesPayTotal(ps, rs);
    Round6IsNearest(TotalReward(rs));
  }

  // ---------------------------------------------------------------------------
  // Receipts
  // ---------------------------------------------------------------------------

  datatype StoredReceipt = StoredReceipt(receipt: Receipt, expiresAt: real)

  datatype Issued = Issued(id: string, receipt: Receipt, at: real)

  datatype Verification = Verified(receipt: Receipt) | NotFound | Expired

  function CacheOf(issued: seq<Issued>): map<string, StoredReceipt> {
    if issued == [] then map[]
    else
      var r := issued[|issued| - 1];
      CacheOf(issued[..|issued| - 1])[r.id := StoredReceipt(r.receipt, r.at + RECEIPT_TTL)]
  }

  function Verify(cache: map<string, StoredReceipt>, id: string, now: real): Verification {
    if id !in cache then NotFound
    else if cache[id].expiresAt < now then Expired
    else Verified(cache[id].receipt)
  }

  ghost predicate LatestIssue(issued: seq<Issued>, id: string, i: nat) {
    i < |issued| && issued[i].id == id && forall j :: i < j < |issued| ==> issued[j].id != id
  }

  /** A receipt is cached exactly as the latest issue under its id left it. */
  lemma {:induction false} CachedIsLatestIssue(issued: seq<Issued>, id: string, stored: StoredReceipt)
    ensures id in CacheOf(issued) && CacheOf(issued)[id] == stored
      <==> exists i: nat :: LatestIssue(issued, id, i) && stored == StoredReceipt(issued[i].receipt, issued[i].at + RECEIPT_TTL)
  {
    if issued == [] {
    } else {
      var n := |issued| - 1;
      if issued[n].id == id {
        assert LatestIssue(issued, id, n);
      } else {
        CachedIsLatestIssue(issued[..n], id, stored);
        assert forall i: nat :: LatestIssue(issued, id, i) <==> LatestIssue(issued[..n], id, i);
      }
    }
  }

  /** A receipt verifies exactly when it is the latest issued under its id and at most 600 seconds old. */
  lemma VerifiedIsLatestIssue(issued: seq<Issued>, id: string, now: real, receipt: Receipt)
    ensures Verify(CacheOf(issued), id, now) == Verified(receipt)
      <==> exists i: nat :: LatestIssue(issued, id, i) && issued[i].receipt == receipt && now <= issued[i].at + 600.0
  {
    var cache := CacheOf(issued);
    if id in cache { CachedIsLatestIssue(issued, id, cache[id]); }
    forall i: nat | LatestIssue(issued, id, i)
      ensures id in cache && cache[id] == StoredReceipt(issued[i].receipt, issued[i].at + RECEIPT_TTL)
    {
      CachedIsLatestIssue(issued, id, StoredReceipt(issued[i].receipt, issued[i].at + RECEIPT_TTL));
    }
  }

  // ---------------------------------------------------------------------------
  // Paid calls
  // ---------------------------------------------------------------------------

  /** What one HTTP attempt comes to: a parsed 200, a 402, or anything that is retried. */
  datatype Attempt = Ok200 | Required402 | Retry

  datatype CallResult = Served | Simulated | Refused

  /** The reference: the first attempt that is not retried decides, out of at most three. */
  ghost predicate Decides(attempts: seq<Attempt>, i: nat) {
    i < 3 && i < |attempts| && !attempts[i].Retry? && forall j :: 0 <= j < i ==> attempts[j].Retry?
  }

  ghost predicate DecidedBy(attempts: seq<Attempt>, a: Attempt) {
    exists i: nat :: Decides(attempts, i) && attempts[i] == a
  }

  /** What is called for a fee: a registered service, or a compliance agent for a screening. */
  datatype Purpose = ForService(service: string, fee: real) | ForScreening(fee: real)

  const SCREENING := "compliance_screening"

  function ServiceOf(p: Purpose): string { if p.ForService? then p.service else SCREENING }

  /** Where a paid call has got to: it awaits its attempts under an id that is fixed before, is answered,
      which caches the receipt, awaits the closing of the connection, and is recorded. */
  datatype Flight =
    | Waiting(purpose: Purpose, id: string)
    | Settling(service: string, fee: real, success: bool)
    | Returned

  /** Everything ever appended and cached, and the calls in the order in which they began. */
  datatype Books = Books(log: seq<Entry>, issued: seq<Issued>, calls: seq<Flight>)

  /** The pieces of calls; a reward is a piece of its own. */
  datatype Piece =
    | Started(purpose: Purpose, id: string)
    | Answered(call: nat, result: CallResult, at: real)
    | Recorded(call: nat)
    | Rewarded(payment: Payment, id: string, at: real)

  predicate AwaitsAnswer(b: Books, call: nat) { call < |b.calls| && b.calls[call].Waiting? }

  predicate AwaitsEntry(b: Books, call: nat) { call < |b.calls| && b.calls[call].Settling? }

  function ReceiptsFor(p: Purpose, id: string, r: CallResult, at: real): seq<Issued> {
    if r.Refused? then [] else [Issued(id, ServiceReceipt(ServiceOf(p), p.fee, r.Simulated?), at)]
  }

  /** `call_compliance_agent` returns what it was answered; only `pay_for_service` goes on to record it. */
  function AfterAnswer(p: Purpose, r: CallResult): Flight {
    match p
    case ForScreening(_) => Returned
    case ForService(service, fee) => Settling(service, fee, !r.Refused?)
  }

  function Step(b: Books, e: Piece): Books {
    match e
    case Started(p, id) => b.(calls := b.calls + [Waiting(p, id)])
    case Answered(c, r, at) =>
      if !AwaitsAnswer(b, c) then b
      else
        var f := b.calls[c];
        b.(issued := b.issued + ReceiptsFor(f.purpose, f.id, r, at), calls := b.calls[c := AfterAnswer(f.purpose, r)])
    case Recorded(c) =>
      if !AwaitsEntry(b, c) then b
      else
        var f := b.calls[c];
        b.(log := b.log + [ServiceEntry(f.service, f.fee, f.success)], calls := b.calls[c := Returned])
    case Rewarded(p, id, at) =>
      var r := ResultOf(p, id);
      b.(log := b.log + EntriesFor(p, r), issued := b.issued + IssuesFor(r, at))
  }

  function Run(pieces: seq<Piece>): Books {
    if pieces == [] then Books([], [], []) else Step(Run(pieces[..|pieces| - 1]), pieces[|pieces| - 1])
  }

  // ---------------------------------------------------------------------------
  // The audit
  // ---------------------------------------------------------------------------

  /** By what receipts and audit entries can be matched: the id and the whole reward, or service and
      amount, since the entry of a service call has no id. */
  datatype Key = RewardKey(id: string, agentId: int, amount: real, tier: Tier) | ServiceKey(service: string, amount: real)

  function KeyOf(i: Issued): Key {
    match i.receipt
    case RewardReceipt(agentId, amount, tier) => RewardKey(i.id, agentId, amount, tier)
    case ServiceReceipt(service, amount, _) => ServiceKey(service, amount)
  }

  function Receipted(issued: seq<Issued>): multiset<Key> {
    if issued == [] then multiset{} else Receipted(issued[..|issued| - 1]) + multiset{KeyOf(issued[|issued| - 1])}
  }

  /** What an entry says was paid: nothing if it records a failure. */
  function PaidBy(e: Entry): multiset<Key> {
    match e
    case RewardEntry(id, agentId, _, reward, tier) => multiset{RewardKey(id, agentId, reward, tier)}
    case ServiceEntry(service, fee, success) => if success then multiset{ServiceKey(service, fee)} else multiset{}
  }

  function PaidIn(log: seq<Entry>): multiset<Key> {
    if log == [] then multiset{} else PaidIn(log[..|log| - 1]) + PaidBy(log[|log| - 1])
  }

  predicate IsOwed(f: Flight) { f.Settling? && f.success }

  function OwedBy(f: Flight): multiset<Key> {
    if IsOwed(f) then multiset{ServiceKey(f.service, f.fee)} else multiset{}
  }

  /** What was answered well and is still to be recorded. */
  function Owed(calls: seq<Flight>): multiset<Key> {
    if calls == [] then multiset{} else Owed(calls[..|calls| - 1]) + OwedBy(calls[|calls| - 1])
  }

  /** The piece answers a screening, and not with a refusal. */
  predicate Screens(b: Books, e: Piece) {
    e.Answered? && AwaitsAnswer(b, e.call) && b.calls[e.call].purpose.ForScreening? && !e.result.Refused?
  }

  function ScreenedBy(b: Books, e: Piece): multiset<Key> {
    if Screens(b, e) then multiset{ServiceKey(SCREENING, b.calls[e.call].purpose.fee)} else multiset{}
  }

  function Screened(pieces: seq<Piece>): multiset<Key> {
    if pieces == [] then multiset{}
    else
      var before := pieces[..|pieces| - 1];
      Screened(before) + ScreenedBy(Run(before), pieces[|pieces| - 1])
  }

  lemma UpdateLast<T>(s: seq<T>, x: T, y: T)
    ensures (s + [x])[|s| := y] == s + [y]
  {
  }

  lemma PaidAppend(log: seq<Entry>, e: Entry)
    ensures PaidIn(log + [e]) == PaidIn(log) + PaidBy(e)
  {
    assert (log + [e])[..|log|] == log;
  }

  lemma ReceiptedAppend(issued: seq<Issued>, i: Issued)
    ensures Receipted(issued + [i]) == Receipted(issued) + multiset{KeyOf(i)}
  {
    assert (issued + [i])[..|issued|] == issued;
  }

  lemma OwedAppend(calls: seq<Flight>, f: Flight)
    ensures Owed(calls + [f]) == Owed(calls) + OwedBy(f)
  {
    assert (calls + [f])[..|calls|] == calls;
  }

  lemma ReplacePart<T>(a: multiset<T>, b: multiset<T>, a': multiset<T>, x: multiset<T>, y: multiset<T>)
    requires a' + x == a + y
    ensures (a' + b) + x == (a + b) + y
  {
    assert (a' + b) + x == (a' + x) + b;
    assert (a + b) + y == (a + y) + b;
  }

  lemma ReplaceLast<T>(a: multiset<T>, x: multiset<T>, y: multiset<T>)
    ensures (a + y) + x == (a + x) + y
  {
  }

  lemma OwedSnoc(calls: seq<Flight>)
    requires calls != []
    ensures Owed(calls) == Owed(calls[..|calls| - 1]) + OwedBy(calls[|calls| - 1])
  {
  }

  lemma {:induction false} OwedUpdate(calls: seq<Flight>, c: nat, f: Flight)
    requires c < |calls|
    ensures Owed(calls[c := f]) + OwedBy(calls[c]) == Owed(calls) + OwedBy(f)
  {
    var n := |calls| - 1;
    UpdateSplits(calls, c, f);
    OwedSnoc(calls);
    OwedSnoc(calls[c := f]);
    if c == n {
      ReplaceLast(Owed(calls[..n]), OwedBy(calls[c]), OwedBy(f));
    } else {
      OwedUpdate(calls[..n], c, f);
      ReplacePart(Owed(calls[..n]), OwedBy(calls[n]), Owed(calls[..n][c := f]), OwedBy(calls[c]), OwedBy(f));
    }
  }

  lemma UpdateSplits<T>(s: seq<T>, c: nat, x: T)
    requires c < |s|
    ensures s[c := x][..|s| - 1] == if c == |s| - 1 then s[..|s| - 1] else s[..|s| - 1][c := x]
    ensures c < |s| - 1 ==> s[c := x][|s| - 1] == s[|s| - 1] && s[..|s| - 1][c] == s[c]
  {
  }

  ghost predicate Adds<T(!new)>(all: multiset<T>, p: multiset<T>, o: multiset<T>, s: multiset<T>) {
    forall t: T :: all[t] == p[t] + o[t] + s[t]
  }

  lemma AddsIff<T(!new)>(all: multiset<T>, p: multiset<T>, o: multiset<T>, s: multiset<T>)
    ensures Adds(all, p, o, s) <==> all == p + o + s
  {
    if Adds(all, p, o, s) {
      forall t: T ensures all[t] == (p + o + s)[t] { assert all[t] == p[t] + o[t] + s[t]; }
    }
  }

  lemma AnswerAdds<T(!new)>(all: multiset<T>, p: multiset<T>, o: multiset<T>, s: multiset<T>,
                            answer: multiset<T>, owed: multiset<T>, screened: multiset<T>, o': multiset<T>)
    requires Adds(all, p, o, s) && answer == screened + owed && o' == o + owed
    ensures Adds(all + answer, p, o', s + screened)
  {
    forall t: T ensures (all + answer)[t] == p[t] + o'[t] + (s + screened)[t] {
      assert all[t] == p[t] + o[t] + s[t];
    }
  }

  lemma RecordAdds<T(!new)>(all: multiset<T>, p: multiset<T>, o: multiset<T>, s: multiset<T>, paid: multiset<T>, o': multiset<T>)
    requires Adds(all, p, o, s) && o' + paid == o
    ensures Adds(all, p + paid, o', s)
  {
    forall t: T ensures all[t] == (p + paid)[t] + o'[t] + s[t] {
      assert all[t] == p[t] + o[t] + s[t] && (o' + paid)[t] == o[t];
    }
  }

  lemma RewardAdds<T(!new)>(all: multiset<T>, p: multiset<T>, o: multiset<T>, s: multiset<T>, x: multiset<T>)
    requires Adds(all, p, o, s)
    ensures Adds(all + x, p + x, o, s)
  {
    forall t: T ensures (all + x)[t] == (p + x)[t] + o[t] + s[t] {
      assert all[t] == p[t] + o[t] + s[t];
    }
  }

  ghost predicate Balanced(b: Books, screened: multiset<Key>) {
    Adds(Receipted(b.issued), PaidIn(b.log), Owed(b.calls), screened)
  }

  /** What an answer adds to the receipts. */
  function AnswerKeys(p: Purpose, r: CallResult): multiset<Key> {
    if r.Refused? then multiset{} else multiset{ServiceKey(ServiceOf(p), p.fee)}
  }

  lemma AnswerIssues(issued: seq<Issued>, p: Purpose, id: string, r: CallResult, at: real)
    ensures Receipted(issued + ReceiptsFor(p, id, r, at)) == Receipted(issued) + AnswerKeys(p, r)
  {
    if r.Refused? {
      assert issued + [] == issued;
    } else {
      ReceiptedAppend(issued, ReceiptsFor(p, id, r, at)[0]);
    }
  }

  /** An answer is owed an entry, or it is a screening. */
  lemma AnswerSplits(b: Books, c: nat, r: CallResult, at: real)
    requires AwaitsAnswer(b, c)
    ensures AnswerKeys(b.calls[c].purpose, r) ==
      ScreenedBy(b, Answered(c, r, at)) + OwedBy(AfterAnswer(b.calls[c].purpose, r))
  {
  }

  lemma WaitingOwesNothing(calls: seq<Flight>, c: nat, f: Flight)
    requires c < |calls| && calls[c].Waiting?
    ensures Owed(calls[c := f]) == Owed(calls) + OwedBy(f)
  {
    OwedUpdate(calls, c, f);
    assert Owed(calls[c := f]) + multiset{} == Owed(calls[c := f]);
  }

  lemma AnswerBalances(b: Books, c: nat, r: CallResult, at: real, screened: multiset<Key>)
    requires Balanced(b, screened) && AwaitsAnswer(b, c)
    ensures Balanced(Step(b, Answered(c, r, at)), screened + ScreenedBy(b, Answered(c, r, at)))
  {
    var p, id, next := b.calls[c].purpose, b.calls[c].id, AfterAnswer(b.calls[c].purpose, r);
    AnswerIssues(b.issued, p, id, r, at);
    AnswerSplits(b, c, r, at);
    WaitingOwesNothing(b.calls, c, next);
    AnswerAdds(Receipted(b.issued), PaidIn(b.log), Owed(b.calls), screened,
               AnswerKeys(p, r), OwedBy(next), ScreenedBy(b, Answered(c, r, at)), Owed(b.calls[c := next]));
  }

  lemma SettledOwes(calls: seq<Flight>, c: nat)
    requires c < |calls| && calls[c].Settling?
    ensures Owed(calls[c := Returned]) + PaidBy(ServiceEntry(calls[c].service, calls[c].fee, calls[c].success)) == Owed(calls)
  {
    OwedUpdate(calls, c, Returned);
    assert Owed(calls) + multiset{} == Owed(calls);
  }

  lemma RecordBalances(b: Books, c: nat, screened: multiset<Key>)
    requires Balanced(b, screened) && AwaitsEntry(b, c)
    ensures Balanced(Step(b, Recorded(c)), screened)
  {
    var f := b.calls[c];
    var entry := ServiceEntry(f.service, f.fee, f.success);
    SettledOwes(b.calls, c);
    PaidAppend(b.log, entry);
    RecordAdds(Receipted(b.issued), PaidIn(b.log), Owed(b.calls), screened, PaidBy(entry), Owed(b.calls[c := Returned]));
  }

  lemma RewardBalances(b: Books, p: Payment, r: PaymentResult, at: real, screened: multiset<Key>)
    requires Balanced(b, screened)
    ensures Balanced(b.(log := b.log + EntriesFor(p, r), issued := b.issued + IssuesFor(r, at)), screened)
  {
    if r.Paid? {
      var entry, issue := EntriesFor(p, r)[0], IssuesFor(r, at)[0];
      PaidAppend(b.log, entry);
      ReceiptedAppend(b.issued, issue);
      RewardAdds(Receipted(b.issued), PaidIn(b.log), Owed(b.calls), screened, PaidBy(entry));
    } else {
      assert b.log + [] == b.log && b.issued + [] == b.issued;
    }
  }

  lemma StartBalances(b: Books, p: Purpose, id: string, screened: multiset<Key>)
    requires Balanced(b, screened)
    ensures Balanced(Step(b, Started(p, id)), screened)
  {
    OwedAppend(b.calls, Waiting(p, id));
    assert Owed(b.calls) + multiset{} == Owed(b.calls);
  }

  lemma NotScreening(b: Books, e: Piece, screened: multiset<Key>)
    requires !Screens(b, e)
    ensures screened + ScreenedBy(b, e) == screened
  {
  }

  lemma StepBalances(b: Books, e: Piece, screened: multiset<Key>)
    requires Balanced(b, screened)
    ensures Balanced(Step(b, e), screened + ScreenedBy(b, e))
  {
    if e.Answered? && AwaitsAnswer(b, e.call) {
      AnswerBalances(b, e.call, e.result, e.at, screened);
    } else {
      NotScreening(b, e, screened);
      QuietStepBalances(b, e, screened);
    }
  }

  lemma QuietStepBalances(b: Books, e: Piece, screened: multiset<Key>)
    requires Balanced(b, screened) && !(e.Answered? && AwaitsAnswer(b, e.call))
    ensures Balanced(Step(b, e), screened)
  {
    match e
    case Started(p, id) => StartBalances(b, p, id, screened);
    case Answered(c, r, at) =>
    case Recorded(c) => if AwaitsEntry(b, c) { RecordBalances(b, c, screened); }
    case Rewarded(p, id, at) => RewardBalances(b, p, ResultOf(p, id), at, screened);
  }

  lemma {:induction false} RunIsBalanced(pieces: seq<Piece>)
    ensures Balanced(Run(pieces), Screened(pieces))
  {
    if pieces == [] {
    } else {
      var before := pieces[..|pieces| - 1];
      RunIsBalanced(before);
      StepBalances(Run(before), pieces[|pieces| - 1], Screened(before));
    }
  }

  /** However calls and rewards interleave, the receipts ever issued are, one for one, the payments
      that the full log records, the calls still to be recorded, and the screenings. */
  lemma RunBalances(pieces: seq<Piece>)
    ensures Receipted(Run(pieces).issued) == PaidIn(Run(pieces).log) + Owed(Run(pieces).calls) + Screened(pieces)
  {
    RunIsBalanced(pieces);
    AddsIff(Receipted(Run(pieces).issued), PaidIn(Run(pieces).log), Owed(Run(pieces).calls), Screened(pieces));
  }

  /** No call that was answered well waits to be recorded. */
  ghost predicate NothingOwed(calls: seq<Flight>) {
    forall c :: 0 <= c < |calls| ==> !IsOwed(calls[c])
  }

  lemma {:induction false} OwedNoneIff(calls: seq<Flight>)
    ensures Owed(calls) == multiset{} <==> NothingOwed(calls)
  {
    if calls == [] {
    } else {
      var n := |calls| - 1;
      OwedNoneIff(calls[..n]);
      EmptySum(Owed(calls[..n]), OwedBy(calls[n]));
      assert NothingOwed(calls) <==> NothingOwed(calls[..n]) && !IsOwed(calls[n]) by {
        assert forall c :: 0 <= c < n ==> calls[..n][c] == calls[c];
      }
    }
  }

  /** Some piece of the run answers a screening, and not with a refusal. */
  ghost predicate SomeScreening(pieces: seq<Piece>) {
    exists i :: 0 <= i < |pieces| && ScreensAt(pieces, i)
  }

  ghost predicate ScreensAt(pieces: seq<Piece>, i: nat)
    requires i < |pieces|
  {
    Screens(Run(pieces[..i]), pieces[i])
  }

  lemma ScreensBefore(before: seq<Piece>, more: seq<Piece>, i: nat)
    requires i < |before|
    ensures ScreensAt(before + more, i) <==> ScreensAt(before, i)
  {
    assert (before + more)[..i] == before[..i];
  }

  lemma SomeScreeningSnoc(pieces: seq<Piece>)
    requires pieces != []
    ensures var n := |pieces| - 1;
      SomeScreening(pieces) <==> SomeScreening(pieces[..n]) || Screens(Run(pieces[..n]), pieces[n])
  {
    var n := |pieces| - 1;
    assert pieces[..n] + pieces[n..] == pieces;
    if SomeScreening(pieces) {
      var i :| 0 <= i < |pieces| && ScreensAt(pieces, i);
      if i < n { ScreensBefore(pieces[..n], pieces[n..], i); }
    }
    if SomeScreening(pieces[..n]) {
      var i :| 0 <= i < n && ScreensAt(pieces[..n], i);
      ScreensBefore(pieces[..n], pieces[n..], i);
    }
    if Screens(Run(pieces[..n]), pieces[n]) { assert ScreensAt(pieces, n); }
  }

  lemma {:induction false} ScreenedNoneIff(pieces: seq<Piece>)
    ensures Screened(pieces) == multiset{} <==> !SomeScreening(pieces)
  {
    if pieces == [] {
    } else {
      var before := pieces[..|pieces| - 1];
      ScreenedNoneIff(before);
      SomeScreeningSnoc(pieces);
      EmptySum(Screened(before), ScreenedBy(Run(before), pieces[|pieces| - 1]));
    }
  }

  lemma EmptySum<T>(a: multiset<T>, b: multiset<T>)
    ensures a + b == multiset{} <==> a == multiset{} && b == multiset{}
  {
    if a + b == multiset{} {
      forall t ensures a[t] == 0 && b[t] == 0 { assert (a + b)[t] == a[t] + b[t]; }
    }
  }

  lemma SameIffNothingElse<T>(all: multiset<T>, some: multiset<T>, rest: multiset<T>, more: multiset<T>)
    requires all == some + rest + more
    ensures all == some <==> rest == multiset{} && more == multiset{}
  {
    if all == some {
      forall t ensures rest[t] == 0 && more[t] == 0 { assert all[t] == some[t] + rest[t] + more[t]; }
    }
  }

  /** The full log accounts for every receipt exactly when no paid call still waits to be recorded and
      no screening was ever answered but with a refusal. */
  lemma AuditCompleteIff(pieces: seq<Piece>)
    ensures Receipted(Run(pieces).issued) == PaidIn(Run(pieces).log)
      <==> NothingOwed(Run(pieces).calls) && !SomeScreening(pieces)
  {
    var b := Run(pieces);
    RunBalances(pieces);
    SameIffNothingElse(Receipted(b.issued), PaidIn(b.log), Owed(b.calls), Screened(pieces));
    OwedNoneIff(b.calls);
    ScreenedNoneIff(pieces);
  }

  /** After such a screening, nothing that follows makes the log complete. */
  lemma NeverComplete(before: seq<Piece>, more: seq<Piece>)
    requires SomeScreening(before)
    ensures Receipted(Run(before + more).issued) != PaidIn(Run(before + more).log)
  {
    var i :| 0 <= i < |before| && ScreensAt(before, i);
    ScreensBefore(before, more, i);
    assert (before + more)[i] == before[i] && ScreensAt(before + more, i);
    AuditCompleteIff(before + more);
  }

  /** One screening is enough: whatever it is answered but a refusal, and whatever follows. */
  lemma ScreeningIsNotAudited(fee: real, id: string, r: CallResult, at: real, more: seq<Piece>)
    requires !r.Refused?
    ensures var b := Run([Started(ForScreening(fee), id), Answered(0, r, at)] + more);
      Receipted(b.issued) != PaidIn(b.log)
  {
    var pieces := [Started(ForScreening(fee), id), Answered(0, r, at)];
    assert pieces[..1] == [pieces[0]] && [pieces[0]][..0] == [];
    assert Run([]).calls == [] && Run(pieces[..1]).calls == [] + [Waiting(ForScreening(fee), id)];
    assert ScreensAt(pieces, 1);
    NeverComplete(pieces, more);
  }

  lemma {:induction false} PaidConcat(a: seq<Entry>, b: seq<Entry>)
    ensures PaidIn(a + b) == PaidIn(a) + PaidIn(b)
  {
    if b == [] {
      assert a + b == a;
    } else {
      assert (a + b)[..|a + b| - 1] == a + b[..|b| - 1];
      PaidConcat(a, b[..|b| - 1]);
    }
  }

  /** Every payment in the trimmed history has a receipt of its own that was issued for it: a reward
      one with its id, agent, amount and tier. */
  lemma HistoryIsReceipted(pieces: seq<Piece>)
    ensures PaidIn(Trimmed(Run(pieces).log)) <= Receipted(Run(pieces).issued)
  {
    var log := Run(pieces).log;
    RunBalances(pieces);
    TrimmedIsTail(log);
    var n := |log| - |Trimmed(log)|;
    assert log == log[..n] + log[n..];
    PaidConcat(log[..n], log[n..]);
  }

  class Client {
    var receipts: map<string, StoredReceipt>
    var history: seq<Entry>
    ghost var log: seq<Entry>        // every entry ever appended
    ghost var issued: seq<Issued>    // every receipt ever cached
    ghost var calls: seq<Flight>

    ghost function View(): Books
      reads this
    {
      Books(log, issued, calls)
    }

    ghost predicate Valid()
      reads this
    {
      history == Trimmed(log) && receipts == CacheOf(issued)
    }

    constructor ()
      ensures Valid() && View() == Run([])
    {
      receipts, history, log, issued, calls := map[], [], [], [], [];
    }

    method Append(e: Entry)
      requires Valid()
      modifies this`history, this`log
      ensures Valid() && log == old(log) + [e]
    {
      ghost var next := log + [e];
      assert next[..|log|] == log;
      history := history + [e];
      if |history| > HISTORY_LIMIT {
        history := history[|history| - HISTORY_KEEP..];
      }
      log := next;
    }

    method CacheReceipt(id: string, r: Receipt, now: real)
      requires Valid()
      modifies this`receipts, this`issued
      ensures Valid() && issued == old(issued) + [Issued(id, r, now)]
    {
      ghost var next := issued + [Issued(id, r, now)];
      assert next[..|issued|] == issued;
      receipts := receipts[id := StoredReceipt(r, now + RECEIPT_TTL)];
      issued := next;
    }

    /** Recent history: for limits up to 5,000 this is what the untrimmed log would answer. */
    method GetPaymentHistory(limit: int) returns (entries: seq<Entry>)
      requires Valid()
      ensures entries == LastEntries(history, limit)
      ensures 1 <= limit <= 5_000 ==> entries == LastEntries(log, limit)
      ensures |history| <= 10_000
    {
      TrimmedBounds(log);
      if 1 <= limit <= HISTORY_KEEP { HistoryAnswersUpTo5000(log, limit); }
      entries := LastEntries(history, limit);
    }

    /** Entering a result, all in one piece: nothing if the payment was rejected. */
    method EnterReward(p: Payment, r: PaymentResult, now: real)
      requires Valid()
      modifies this`history, this`log, this`receipts, this`issued
      ensures Valid()
      ensures log == old(log) + EntriesFor(p, r) && issued == old(issued) + IssuesFor(r, now)
    {
      if r.Paid? {
        Append(RewardEntry(r.id, r.agentId, AmountOf(p), r.reward, r.tier));
        CacheReceipt(r.id, RewardReceipt(r.agentId, r.reward, r.tier), now);
      } else {
        assert log + [] == log && issued + [] == issued;
      }
    }

    /** One reward.  A payment that raises does so before it has appended or cached anything. */
    method ProcessReward(p: Payment, id: string, now: real) returns (r: PaymentResult)
      requires Valid()
      modifies this`history, this`log, this`receipts, this`issued
      ensures Valid() && r == ResultOf(p, id)
      ensures log == old(log) + EntriesFor(p, r) && issued == old(issued) + IssuesFor(r, now)
    {
      r := ResultOf(p, id);
      EnterReward(p, r, now);
    }

    /** The batch loop, which awaits nothing that suspends it. */
    method RunBatch(ps: seq<Payment>, ids: nat -> string, clock: nat -> real)
      returns (results: seq<PaymentResult>, failed: nat, total: real)
      requires Valid()
      modifies this`history, this`log, this`receipts, this`issued
      ensures Valid() && Entered(Batch(results, failed, total), ps, old(log), log, old(issued), issued, ids, clock)
    {
      results, failed, total := [], 0, 0.0;
      ghost var b := Batch([], 0, 0.0);
      NothingEntered(log, issued, ids, clock);
      for i := 0 to |ps|
        invariant Valid() && b == Batch(results, failed, total)
        invariant Entered(b, ps[..i], old(log), log, old(issued), issued, ids, clock)
      {
        ghost var before, cached := log, issued;
        var result := ProcessReward(ps[i], ids(i), clock(i));
        EnteredNext(b, ps, i, result, old(log), before, old(issued), cached, ids, clock);
        b := Counted(b, result);
        results := results + [result];
        if result.Paid? { total := total + result.reward; } else { failed := failed + 1; }
      }
      assert ps[..|ps|] == ps;
    }

    /**
      A batch: one result per payment in order, exactly the successful payments
      appended and receipted in order, and the exact total of their rewards.
    */
    method BatchProcess(ps: seq<Payment>, ids: nat -> string, clock: nat -> real)
      returns (results: seq<PaymentResult>, successful: nat, failed: nat, total: real)
      requires Valid()
      modifies this`history, this`log, this`receipts, this`issued
      ensures Valid()
      ensures AreResults(ps, results, ids)
      ensures log == old(log) + EntriesOf(ps, results) && issued == old(issued) + IssuesOf(results, clock)
      ensures successful + failed == |ps| && successful == |EntriesOf(ps, results)|
      ensures total == TotalReward(results) == RewardsIn(EntriesOf(ps, results)) && total <= 10.0 * successful as real
    {
      results, failed, total := RunBatch(ps, ids, clock);
      successful := |ps| - failed;
      BatchTotal(ps, results, ids);
      total := Round6(total);
    }

    /**
      The attempts of a paid call.  It awaits each of them, and a pause between two, and touches
      nothing meanwhile, so that anything may happen to the client; only a 402 refuses, and when
      every attempt has to be retried the call is to be reported as a (simulated) success.
    */
    static method Attempts(attempts: seq<Attempt>) returns (result: CallResult)
      requires |attempts| >= MAX_RETRIES
      ensures result == Served <==> DecidedBy(attempts, Ok200)
      ensures result == Refused <==> DecidedBy(attempts, Required402)
    {
      for i := 0 to MAX_RETRIES
        invariant forall j :: 0 <= j < i ==> attempts[j].Retry?
      {
        if attempts[i] == Ok200 {
          assert Decides(attempts, i);
          return Served;
        }
        if attempts[i] == Required402 {
          assert Decides(attempts, i);
          return Refused;
        }
      }
      result := Simulated;
    }

    /** The call begins; its id is fixed now, and the client is not touched before the answer. */
    ghost method BeginCall(purpose: Purpose, id: string) returns (call: nat)
      modifies this`calls
      ensures View() == Step(old(View()), Started(purpose, id))
      ensures call == |old(calls)| && calls == old(calls) + [Waiting(purpose, id)]
    {
      call := |calls|;
      calls := calls + [Waiting(purpose, id)];
    }

    /** The piece in which the call is decided: its receipt is cached unless it is refused. */
    method AnswerCall(ghost call: nat, purpose: Purpose, id: string, result: CallResult, now: real)
      requires Valid() && call < |calls| && calls[call] == Waiting(purpose, id)
      modifies this`receipts, this`issued, this`calls
      ensures Valid() && View() == Step(old(View()), Answered(call, result, now))
      ensures issued == old(issued) + ReceiptsFor(purpose, id, result, now)
      ensures calls == old(calls)[call := AfterAnswer(purpose, result)]
      ensures if result.Refused? then receipts == old(receipts)
              else Verify(receipts, id, now) == Verified(ServiceReceipt(ServiceOf(purpose), purpose.fee, result.Simulated?))
    {
      if result.Refused? {
        assert issued + [] == issued;
      } else {
        CacheReceipt(id, ServiceReceipt(ServiceOf(purpose), purpose.fee, result.Simulated?), now);
      }
      calls := calls[call := AfterAnswer(purpose, result)];
    }

    /** `_record_payment`, the last piece of a service call. */
    method RecordPayment(ghost call: nat, service: string, fee: real, success: bool)
      requires Valid() && call < |calls| && calls[call] == Settling(service, fee, success)
      modifies this`history, this`log, this`calls
      ensures Valid() && View() == Step(old(View()), Recorded(call))
      ensures log == old(log) + [ServiceEntry(service, fee, success)] && calls == old(calls)[call := Returned]
    {
      Append(ServiceEntry(service, fee, success));
      calls := calls[call := Returned];
    }

    /** A paid call, when nothing else runs between its pieces. */
    method CallWithPayment(attempts: seq<Attempt>, purpose: Purpose, id: string, now: real)
      returns (result: CallResult, ghost call: nat)
      requires Valid() && |attempts| >= MAX_RETRIES
      modifies this`receipts, this`issued, this`calls
      ensures Valid()
      ensures result == Served <==> DecidedBy(attempts, Ok200)
      ensures result == Refused <==> DecidedBy(attempts, Required402)
      ensures issued == old(issued) + ReceiptsFor(purpose, id, result, now)
      ensures call == |old(calls)| && calls == old(calls) + [AfterAnswer(purpose, result)]
      ensures if result.Refused? then receipts == old(receipts)
              else Verify(receipts, id, now) == Verified(ServiceReceipt(ServiceOf(purpose), purpose.fee, result.Simulated?))
    {
      call := BeginCall(purpose, id);
      result := Attempts(attempts);
      AnswerCall(call, purpose, id, result, now);
      UpdateLast(old(calls), Waiting(purpose, id), AfterAnswer(purpose, result));
    }

    /** `pay_for_service` for a registered service, when nothing else runs between its pieces. */
    method PayForService(attempts: seq<Attempt>, id: string, service: string, fee: real, now: real)
      returns (result: CallResult)
      requires Valid() && |attempts| >= MAX_RETRIES
      modifies this
      ensures Valid()
      ensures result == Served <==> DecidedBy(attempts, Ok200)
      ensures result == Refused <==> DecidedBy(attempts, Required402)
      ensures log == old(log) + [ServiceEntry(service, fee, !result.Refused?)] && calls == old(calls) + [Returned]
      ensures issued == old(issued) + ReceiptsFor(ForService(service, fee), id, result, now)
      ensures if result.Refused? then receipts == old(receipts)
              else Verify(receipts, id, now) == Verified(ServiceReceipt(service, fee, result.Simulated?))
    {
      ghost var call;
      result, call := CallWithPayment(attempts, ForService(service, fee), id, now);
      RecordPayment(call, service, fee, !result.Refused?);
      UpdateLast(old(calls), Settling(service, fee, !result.Refused?), Returned);
    }

    /** `call_compliance_agent`, when nothing else runs between its pieces: a receipt, and no entry. */
    method CallComplianceAgent(attempts: seq<Attempt>, id: string, fee: real, now: real)
      returns (result: CallResult)
      requires Valid() && |attempts| >= MAX_RETRIES
      modifies this`receipts, this`issued, this`calls
      ensures Valid()
      ensures result == Served <==> DecidedBy(attempts, Ok200)
      ensures result == Refused <==> DecidedBy(attempts, Required402)
      ensures issued == old(issued) + ReceiptsFor(ForScreening(fee), id, result, now) && calls == old(calls) + [Returned]
      ensures if result.Refused? then receipts == old(receipts)
              else Verify(receipts, id, now) == Verified(ServiceReceipt("compliance_screening", fee, result.Simulated?))
    {
      ghost var call;
      result, call := CallWithPayment(attempts, ForScreening(fee), id, now);
    }
  }
}
