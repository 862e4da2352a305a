/**
  The Mento plugin: finding the pool and the amounts of a swap, and executing it as an approval
  followed by a swap on an EIP-20 ledger, where every remote call may fail and other parties may
  change the ledger in between.
*/
module MentoSwap {
  import opened Common

  // ---------------------------------------------------------------------------
  // Routes
  // ---------------------------------------------------------------------------

  /** Exchange ids by pair name; a pool is listed in one direction and serves both. */
  type Pools = map<string, string>

  function Canonical(currency: string): string {
    match currency
    case "cUSD" => "USDm"
    case "cEUR" => "EURm"
    case "cREAL" => "BRLm"
    case "cKES" => "KESm"
    case "cCOP" => "COPm"
    case _ => currency
  }

  function PoolFor(pools: Pools, src: string, dst: string): Option<string> {
    var pair, reverse := src + "/" + dst, dst + "/" + src;
    if pair in pools && pools[pair] != "" then Some(pools[pair])
    else if reverse in pools && pools[reverse] != "" then Some(pools[reverse])
    else None
  }

  predicate Contains(s: string, part: string) {
    |part| <= |s| && (s[..|part|] == part || (s != "" && Contains(s[1..], part)))
  }

  function Decimals(currency: string): nat {
    if Contains(currency, "USDC") || Contains(currency, "USDT") then 6 else 18
  }

  function Unit(decimals: nat): nat {
    if decimals == 0 then 1 else 10 * Unit(decimals - 1)
  }

  /** Python's `int`: toward zero. */
  function Trunc(x: real): int {
    if x >= 0.0 then x.Floor else -((-x).Floor)
  }

  function BaseUnits(currency: string, amount: real): int {
    Trunc(amount * Unit(Decimals(currency)) as real)
  }

  datatype Route = Route(exchangeId: string, tokenIn: string, tokenOut: string, amountIn: int, amountOut: nat)

  /** `find_optimal_route`; `quote` answers 0 for every failure of the broker call. */
  function FindRoute(pools: Pools, addresses: map<string, string>, from: string, to: string, amount: real,
                     quote: (string, string, string, int) -> nat): Option<Route> {
    var src, dst := Canonical(from), Canonical(to);
    var pool := PoolFor(pools, src, dst);
    if pool.None? || src !in addresses || dst !in addresses then None
    else if addresses[src] == "" || addresses[dst] == "" then None
    else
      var wei := BaseUnits(src, amount);
      var out := quote(addresses[src], addresses[dst], pool.value, wei);
      if out == 0 then None else Some(Route(pool.value, addresses[src], addresses[dst], wei, out))
  }

  /** What each alias stands for; every other currency stands for itself. */
  lemma AliasesAre(currency: string)
    ensures currency == "cUSD" ==> Canonical(currency) == "USDm"
    ensures currency == "cEUR" ==> Canonical(currency) == "EURm"
    ensures currency == "cREAL" ==> Canonical(currency) == "BRLm"
    ensures currency == "cKES" ==> Canonical(currency) == "KESm"
    ensures currency == "cCOP" ==> Canonical(currency) == "COPm"
    ensures currency !in {"cUSD", "cEUR", "cREAL", "cKES", "cCOP"} ==> Canonical(currency) == currency
  {
  }

  predicate At(part: string, s: string, k: nat) {
    k + |part| <= |s| && s[k..k + |part|] == part
  }

  ghost predicate Occurs(part: string, s: string) {
    exists k: nat :: At(part, s, k)
  }

  lemma AtStart(part: string, s: string)
    ensures At(part, s, 0) <==> |part| <= |s| && s[..|part|] == part
  {
    if |part| <= |s| { assert s[0..0 + |part|] == s[..|part|]; }
  }

  lemma AtLater(part: string, s: string, k: nat)
    requires s != ""
    ensures At(part, s, k + 1) <==> At(part, s[1..], k)
  {
    if k + 1 + |part| <= |s| { assert s[k + 1..k + 1 + |part|] == s[1..][k..k + |part|]; }
  }

  lemma {:induction false} ContainsIff(s: string, part: string)
    ensures Contains(s, part) <==> Occurs(part, s)
  {
    AtStart(part, s);
    if |s| < |part| || s[..|part|] == part || s == "" {
      if k: nat :| At(part, s, k) { assert |s| >= |part|; }
    } else {
      ContainsIff(s[1..], part);
      if k: nat :| At(part, s, k) {
        assert k > 0;
        AtLater(part, s, k - 1);
      }
      if k: nat :| At(part, s[1..], k) {
        AtLater(part, s, k);
        assert At(part, s, k + 1);
      }
    }
  }

  /** A token counts in millionths if its name contains that of one of two stablecoins, and in units of
      10^-18 otherwise. */
  lemma UnitsOf(currency: string)
    ensures Unit(Decimals(currency)) ==
      if Occurs("USDC", currency) || Occurs("USDT", currency) then 1_000_000 else 1_000_000_000_000_000_000
  {
    ContainsIff(currency, "USDC");
    ContainsIff(currency, "USDT");
    assert Unit(6) == 1_000_000;
    UnitSum(6, 6);
    UnitSum(12, 6);
  }

  lemma {:induction false} UnitSum(a: nat, b: nat)
    ensures Unit(a + b) == Unit(a) * Unit(b)
  {
    if a == 0 {
    } else {
      UnitSum(a - 1, b);
      assert 10 * (Unit(a - 1) * Unit(b)) == (10 * Unit(a - 1)) * Unit(b);
    }
  }

  /** An amount in base units, toward zero by less than one unit. */
  lemma BaseUnitsAre(currency: string, amount: real, unit: nat)
    requires unit == if Occurs("USDC", currency) || Occurs("USDT", currency) then 1_000_000 else 1_000_000_000_000_000_000
    ensures var n, exact := BaseUnits(currency, amount), amount * unit as real;
      && (exact >= 0.0 ==> n as real <= exact < n as real + 1.0)
      && (exact <= 0.0 ==> n as real - 1.0 < exact <= n as real)
  {
    UnitsOf(currency);
    TruncIsTowardZero(amount * unit as real);
  }

  lemma TruncIsTowardZero(x: real)
    ensures x >= 0.0 ==> Trunc(x) as real <= x < Trunc(x) as real + 1.0
    ensures x <= 0.0 ==> Trunc(x) as real - 1.0 < x <= Trunc(x) as real
  {
  }

  /** The exchange listed for a pair of currencies: in the given direction, or else in the other one. */
  ghost predicate Lists(pools: Pools, src: string, dst: string, id: string) {
    var given, other := src + "/" + dst, dst + "/" + src;
    && id != ""
    && if given in pools && pools[given] != "" then id == pools[given] else other in pools && id == pools[other]
  }

  /** A found route goes from the address of the source currency to that of the target, through the
      exchange listed for the two. */
  lemma RouteGoesFromTo(pools: Pools, addresses: map<string, string>, from: string, to: string, amount: real,
                        quote: (string, string, string, int) -> nat)
    ensures var r := FindRoute(pools, addresses, from, to, amount, quote);
      r.Some? ==>
        && Canonical(from) in addresses && r.value.tokenIn == addresses[Canonical(from)]
        && Canonical(to) in addresses && r.value.tokenOut == addresses[Canonical(to)]
        && Lists(pools, Canonical(from), Canonical(to), r.value.exchangeId)
  {
  }

  /** When a route is found, for an amount in base units. */
  lemma RouteIsFoundIff(pools: Pools, addresses: map<string, string>, from: string, to: string, amount: real,
                        quote: (string, string, string, int) -> nat, id: string)
    requires Lists(pools, Canonical(from), Canonical(to), id)
    ensures var units := BaseUnits(Canonical(from), amount);
      FindRoute(pools, addresses, from, to, amount, quote).Some? <==>
        && Canonical(from) in addresses && addresses[Canonical(from)] != ""
        && Canonical(to) in addresses && addresses[Canonical(to)] != ""
        && quote(addresses[Canonical(from)], addresses[Canonical(to)], id, units) > 0
    ensures FindRoute(pools, addresses, from, to, amount, quote).Some? ==>
      FindRoute(pools, addresses, from, to, amount, quote).value.amountIn == BaseUnits(Canonical(from), amount)
  {
    assert PoolFor(pools, Canonical(from), Canonical(to)) == Some(id);
  }

  /** A found route has a pool, two token addresses and a positive quote, and for a nonnegative
      amount its input is the amount in base units, rounded down by less than one unit. */
  lemma RouteIsUsable(pools: Pools, addresses: map<string, string>, from: string, to: string, amount: real,
                      quote: (string, string, string, int) -> nat)
    ensures var r := FindRoute(pools, addresses, from, to, amount, quote);
      r.Some? ==>
        && r.value.exchangeId != "" && r.value.tokenIn != "" && r.value.tokenOut != "" && r.value.amountOut > 0
        && var exact := amount * Unit(Decimals(Canonical(from))) as real;
           exact >= 0.0 ==> r.value.amountIn as real <= exact < r.value.amountIn as real + 1.0
    ensures var r := FindRoute(pools, addresses, from, to, amount, quote);
      r.Some? ==> r.value.amountOut == quote(r.value.tokenIn, r.value.tokenOut, r.value.exchangeId, r.value.amountIn)
  {
  }

  // ---------------------------------------------------------------------------
  // The ledger
  // ---------------------------------------------------------------------------

  const RESERVE := "reserve"

  /** Balances by token and holder; the broker's allowances by token and owner. */
  datatype Ledger = Ledger(balances: map<(string, string), nat>, allowances: map<(string, string), nat>)

  function BalanceOf(l: Ledger, token: string, who: string): nat {
    if (token, who) in l.balances then l.balances[(token, who)] else 0
  }

  function Allowance(l: Ledger, token: string, owner: string): nat {
    if (token, owner) in l.allowances then l.allowances[(token, owner)] else 0
  }

  function Approve(l: Ledger, token: string, owner: string, amount: nat): Ledger {
    l.(allowances := l.allowances[(token, owner) := amount])
  }

  /** Nothing is held or allowed until it is set, and an approval sets one allowance, whatever it was. */
  lemma ApprovalSets(l: Ledger, token: string, owner: string, amount: nat, t: string, who: string)
    ensures (t, who) !in l.balances.Keys ==> BalanceOf(l, t, who) == 0
    ensures (t, who) !in l.allowances.Keys ==> Allowance(l, t, who) == 0
    ensures var r := Approve(l, token, owner, amount);
      Allowance(r, t, who) == (if (t, who) == (token, owner) then amount else Allowance(l, t, who)) && r.balances == l.balances
  {
  }

  /** EIP-20 `transfer`, or `transferFrom` when the allowance is taken care of. */
  function Move(l: Ledger, token: string, from: string, to: string, amount: nat): Ledger
    requires amount <= BalanceOf(l, token, from)
  {
    var taken := l.balances[(token, from) := BalanceOf(l, token, from) - amount];
    var mid := l.(balances := taken);
    mid.(balances := taken[(token, to) := BalanceOf(mid, token, to) + amount])
  }

  datatype Order = Order(owner: string, tokenIn: string, tokenOut: string, amountIn: nat, minOut: nat)

  /** `swapIn`: it reverts unless the owner has and allows the input, the output reaches the
      minimum, and the reserve can pay it. */
  function SwapIn(l: Ledger, o: Order, out: nat): Option<Ledger> {
    if BalanceOf(l, o.tokenIn, o.owner) < o.amountIn || Allowance(l, o.tokenIn, o.owner) < o.amountIn then None
    else
      var spent := l.(allowances := l.allowances[(o.tokenIn, o.owner) := Allowance(l, o.tokenIn, o.owner) - o.amountIn]);
      var paid := Move(spent, o.tokenIn, o.owner, RESERVE, o.amountIn);
      if out < o.minOut || BalanceOf(paid, o.tokenOut, RESERVE) < out then None
      else Some(Move(paid, o.tokenOut, RESERVE, o.owner, out))
  }

  lemma MoveMoves(l: Ledger, token: string, from: string, to: string, amount: nat)
    requires from != to && amount <= BalanceOf(l, token, from)
    ensures var r := Move(l, token, from, to, amount);
      && BalanceOf(r, token, from) == BalanceOf(l, token, from) - amount
      && BalanceOf(r, token, to) == BalanceOf(l, token, to) + amount
      && (forall t, who :: t != token || (who != from && who != to) ==> BalanceOf(r, t, who) == BalanceOf(l, t, who))
      && r.allowances == l.allowances
  {
  }

  /** When a swap does not revert, in terms of the ledger before it. */
  lemma SwapSucceedsIff(l: Ledger, o: Order, out: nat)
    requires o.owner != RESERVE && o.tokenIn != o.tokenOut
    ensures SwapIn(l, o, out).Some? <==>
      && o.amountIn <= BalanceOf(l, o.tokenIn, o.owner) && o.amountIn <= Allowance(l, o.tokenIn, o.owner)
      && o.minOut <= out <= BalanceOf(l, o.tokenOut, RESERVE)
  {
    if o.amountIn <= BalanceOf(l, o.tokenIn, o.owner) && o.amountIn <= Allowance(l, o.tokenIn, o.owner) {
      var left := Allowance(l, o.tokenIn, o.owner) - o.amountIn;
      var spent := l.(allowances := l.allowances[(o.tokenIn, o.owner) := left]);
      assert BalanceOf(spent, o.tokenIn, o.owner) == BalanceOf(l, o.tokenIn, o.owner);
      MoveMoves(spent, o.tokenIn, o.owner, RESERVE, o.amountIn);
      assert BalanceOf(spent, o.tokenOut, RESERVE) == BalanceOf(l, o.tokenOut, RESERVE);
    }
  }

  /** The two moves of a swap that does not revert. */
  lemma SwapIsTwoMoves(l: Ledger, o: Order, out: nat)
    requires SwapIn(l, o, out).Some?
    ensures o.amountIn <= BalanceOf(l, o.tokenIn, o.owner) && out >= o.minOut
    ensures var spent := l.(allowances := l.allowances[(o.tokenIn, o.owner) := Allowance(l, o.tokenIn, o.owner) - o.amountIn]);
      var paid := Move(spent, o.tokenIn, o.owner, RESERVE, o.amountIn);
      out <= BalanceOf(paid, o.tokenOut, RESERVE) && SwapIn(l, o, out).value == Move(paid, o.tokenOut, RESERVE, o.owner, out)
  {
  }

  /** Who has what after moving `amountIn` one way and `out` the other. */
  ghost predicate Exchanged(l: Ledger, r: Ledger, o: Order, out: nat) {
    && BalanceOf(r, o.tokenIn, o.owner) == BalanceOf(l, o.tokenIn, o.owner) - o.amountIn
    && BalanceOf(r, o.tokenIn, RESERVE) == BalanceOf(l, o.tokenIn, RESERVE) + o.amountIn
    && BalanceOf(r, o.tokenOut, o.owner) == BalanceOf(l, o.tokenOut, o.owner) + out
    && BalanceOf(r, o.tokenOut, RESERVE) == BalanceOf(l, o.tokenOut, RESERVE) - out
    && forall t, who :: (t != o.tokenIn && t != o.tokenOut) || (who != o.owner && who != RESERVE) ==>
        BalanceOf(r, t, who) == BalanceOf(l, t, who)
  }

  lemma TwoMovesExchange(l: Ledger, o: Order, out: nat)
    requires o.owner != RESERVE && o.tokenIn != o.tokenOut
    requires o.amountIn <= BalanceOf(l, o.tokenIn, o.owner)
    requires out <= BalanceOf(Move(l, o.tokenIn, o.owner, RESERVE, o.amountIn), o.tokenOut, RESERVE)
    ensures var r := Move(Move(l, o.tokenIn, o.owner, RESERVE, o.amountIn), o.tokenOut, RESERVE, o.owner, out);
      Exchanged(l, r, o, out) && r.allowances == l.allowances
  {
    MoveMoves(l, o.tokenIn, o.owner, RESERVE, o.amountIn);
    MoveMoves(Move(l, o.tokenIn, o.owner, RESERVE, o.amountIn), o.tokenOut, RESERVE, o.owner, out);
  }

  /** A swap takes exactly the input from the owner, gives at least the minimum, uses up its part of
      the allowance, and moves nothing else. */
  lemma SwapExchanges(l: Ledger, o: Order, out: nat)
    requires o.owner != RESERVE && o.tokenIn != o.tokenOut
    requires SwapIn(l, o, out).Some?
    ensures Exchanged(l, SwapIn(l, o, out).value, o, out) && out >= o.minOut
    ensures Allowance(SwapIn(l, o, out).value, o.tokenIn, o.owner) == Allowance(l, o.tokenIn, o.owner) - o.amountIn
  {
    var left := Allowance(l, o.tokenIn, o.owner) - o.amountIn;
    var spent := l.(allowances := l.allowances[(o.tokenIn, o.owner) := left]);
    SwapIsTwoMoves(l, o, out);
    TwoMovesExchange(spent, o, out);
    assert forall t, who :: BalanceOf(spent, t, who) == BalanceOf(l, t, who);
  }

  /** Between owner and reserve no token is created or destroyed. */
  lemma SwapConserves(l: Ledger, o: Order, out: nat, t: string)
    requires o.owner != RESERVE && o.tokenIn != o.tokenOut
    requires SwapIn(l, o, out).Some?
    ensures var r := SwapIn(l, o, out).value;
      BalanceOf(r, t, o.owner) + BalanceOf(r, t, RESERVE) == BalanceOf(l, t, o.owner) + BalanceOf(l, t, RESERVE)
  {
    SwapExchanges(l, o, out);
  }

  // ---------------------------------------------------------------------------
  // Execution
  // ---------------------------------------------------------------------------

  datatype Tx = ApproveTx(token: string, amount: nat) | SwapTx(order: Order)

  /** Where a remote call or a local preparation may raise. */
  datatype Failure =
    | Preparing | ReadingBalance
    | BuildingApproval | SendingApproval | AwaitingApproval
    | BuildingSwap | SendingSwap | AwaitingSwap

  datatype Env = Env(
    raises: set<Failure>,
    approvalTaken: bool,          // the node takes the approval although sending it raises
    swapTaken: bool,              // the same for the swap
    approvalMined: bool,          // false: the approval reverts
    product: real,                // the floating-point value of quote * 0.99
    out: nat,                     // what the broker pays when the swap executes
    beforeApproval: Ledger -> Ledger,
    beforeSwap: Ledger -> Ledger) // what other parties do in between

  datatype Result = Stub | MissingParameters | InsufficientBalance | Raised | Reverted | Hash

  function Times(s: string, n: nat): string { if n == 0 then "" else s + Times(s, n - 1) }

  function Start(s: string, n: nat): string { if |s| <= n then s else s[..n] }

  /** What is returned: a string in every case. */
  function Text(r: Result, hash: string, message: string): string {
    match r
    case Stub => "0x" + (Times("a1b2c3d4e5f6", 5) + "0000")
    case MissingParameters => "0x" + Times("0", 64)
    case InsufficientBalance => "0xERROR_" + "insufficient_tokenIn_balance"
    case Raised => "0xERROR_" + Start(message, 50)
    case Reverted => "0xERROR_" + ("swap_reverted_" + Start(hash, 16))
    case Hash => hash
  }

  predicate IsHex(c: char) { '0' <= c <= '9' || 'a' <= c <= 'f' || 'A' <= c <= 'F' }

  /** How the errors read: of a message they quote 50 characters at most, of a hash 16. */
  lemma ErrorsRead(hash: string, message: string)
    ensures Text(InsufficientBalance, hash, message) == "0xERROR_insufficient_tokenIn_balance"
    ensures Text(Raised, hash, message) == "0xERROR_" + if |message| < 50 then message else message[..50]
    ensures Text(Reverted, hash, message) == "0xERROR_swap_reverted_" + if |hash| < 16 then hash else hash[..16]
    ensures Text(Hash, hash, message) == hash
  {
    assert "0xERROR_" + "insufficient_tokenIn_balance" == "0xERROR_insufficient_tokenIn_balance";
    var short := if |hash| < 16 then hash else hash[..16];
    assert "0xERROR_" + ("swap_reverted_" + short) == ("0xERROR_" + "swap_reverted_") + short;
    assert "0xERROR_" + "swap_reverted_" == "0xERROR_swap_reverted_";
  }

  lemma HexDigits(c: char)
    ensures IsHex(c) <==> c in "0123456789abcdefABCDEF"
  {
    var digits := "0123456789abcdefABCDEF";
    if '0' <= c <= '9' { assert digits[c as int - '0' as int] == c; }
    if 'a' <= c <= 'f' { assert digits[10 + (c as int - 'a' as int)] == c; }
    if 'A' <= c <= 'F' { assert digits[16 + (c as int - 'A' as int)] == c; }
  }

  ghost predicate AllHex(s: string) { forall i :: 0 <= i < |s| ==> IsHex(s[i]) }

  /** The form of a transaction hash: 32 bytes in hexadecimal. */
  ghost predicate HashShaped(s: string) {
    |s| == 66 && s[..2] == "0x" && AllHex(s[2..])
  }

  /** `swapped` tells whether the swap took effect, `sent` which transactions the node took. */
  datatype Outcome = Outcome(result: Result, swapped: bool, ledger: Ledger, sent: seq<Tx>)

  function MinimumOut(env: Env): int { Trunc(env.product) }

  /** The floating-point product is off by at most a thousandth of the quote. */
  predicate SmallError(product: real, quote: nat) {
    0.989 * quote as real <= product <= 0.991 * quote as real
  }

  /** The minimum never exceeds the quote, and gives away little more than one percent. */
  lemma MinimumNearQuote(env: Env, quote: nat)
    requires SmallError(env.product, quote)
    ensures 0 <= MinimumOut(env) <= quote
    ensures MinimumOut(env) as real > 0.989 * quote as real - 1.0
  {
  }

  /** Other parties leave an account's balances and its allowance to the broker alone. */
  ghost predicate Leaves(f: Ledger -> Ledger, who: string) {
    forall l: Ledger, t: string ::
      BalanceOf(f(l), t, who) == BalanceOf(l, t, who) && Allowance(f(l), t, who) == Allowance(l, t, who)
  }

  predicate Complete(r: Route) {
    r.exchangeId != "" && r.tokenIn != "" && r.tokenOut != "" && r.amountIn != 0
  }

  function Approved(l: Ledger, env: Env, token: string, owner: string, amount: nat): Ledger {
    var l' := env.beforeApproval(l);
    if env.approvalMined then Approve(l', token, owner, amount) else l'
  }

  lemma ApprovalMovesNothing(l: Ledger, env: Env, token: string, owner: string, amount: nat, who: string)
    ensures Leaves(env.beforeApproval, who) ==>
      forall t :: BalanceOf(Approved(l, env, token, owner, amount), t, who) == BalanceOf(l, t, who)
  {
    if Leaves(env.beforeApproval, who) {
      forall t ensures BalanceOf(Approved(l, env, token, owner, amount), t, who) == BalanceOf(l, t, who) {
        assert BalanceOf(env.beforeApproval(l), t, who) == BalanceOf(l, t, who);
      }
    }
  }

  predicate Reaches(send: Failure, taken: bool, env: Env) {
    send !in env.raises || taken
  }

  /** From the building of the swap on. */
  function SwapPhase(l: Ledger, o: Order, env: Env, sent: seq<Tx>): Outcome {
    if BuildingSwap in env.raises || !Reaches(SendingSwap, env.swapTaken, env) then Outcome(Raised, false, l, sent)
    else
      var before := env.beforeSwap(l);
      var executed := SwapIn(before, o, env.out);
      var result := if SendingSwap in env.raises || AwaitingSwap in env.raises then Raised
                    else if executed.Some? then Hash else Reverted;
      Outcome(result, executed.Some?, if executed.Some? then executed.value else before, sent + [SwapTx(o)])
  }

  /** From the building of the approval on. */
  function ApprovalPhase(l: Ledger, o: Order, env: Env): Outcome {
    if BuildingApproval in env.raises || !Reaches(SendingApproval, env.approvalTaken, env) then Outcome(Raised, false, l, [])
    else
      var l' := Approved(l, env, o.tokenIn, o.owner, o.amountIn);
      var sent := [ApproveTx(o.tokenIn, o.amountIn)];
      if SendingApproval in env.raises || AwaitingApproval in env.raises then Outcome(Raised, false, l', sent)
      else SwapPhase(l', o, env, sent)
  }

  /** `execute_swap` on a ledger; the order that it makes of the route is the signer's. */
  function Execute(l: Ledger, route: Route, o: Order, connected: bool, env: Env): Outcome {
    if !connected then Outcome(Stub, false, l, [])
    else if !Complete(route) then Outcome(MissingParameters, false, l, [])
    else if Preparing in env.raises || ReadingBalance in env.raises then Outcome(Raised, false, l, [])
    else if BalanceOf(l, o.tokenIn, o.owner) < o.amountIn then Outcome(InsufficientBalance, false, l, [])
    else ApprovalPhase(l, o, env)
  }

  /** At most one approval and then one swap, both for the amount that was checked; no swap takes
      effect without being sent, and before the first send the ledger is untouched. */
  lemma SendsInOrder(l: Ledger, route: Route, o: Order, connected: bool, env: Env)
    ensures var r := Execute(l, route, o, connected, env);
      var approve := ApproveTx(o.tokenIn, o.amountIn);
      && (r.sent == [] || r.sent == [approve] || r.sent == [approve, SwapTx(o)])
      && (r.sent != [] ==> connected && Complete(route) && o.amountIn <= BalanceOf(l, o.tokenIn, o.owner))
      && (r.sent == [] ==> r.ledger == l)
      && (r.result.Stub? || r.result.MissingParameters? || r.result.InsufficientBalance? ==> r.sent == [])
      && (r.swapped ==> SwapTx(o) in r.sent)
      && (r.result == Reverted ==> SwapTx(o) in r.sent && !r.swapped)
  {
  }

  /** Which result means what. */
  lemma ResultMeans(l: Ledger, route: Route, o: Order, connected: bool, env: Env)
    ensures var r := Execute(l, route, o, connected, env);
      && (r.result == Stub <==> !connected)
      && (r.result == MissingParameters <==>
            connected && (route.exchangeId == "" || route.tokenIn == "" || route.tokenOut == "" || route.amountIn == 0))
      && (r.result == InsufficientBalance <==>
            && connected && route.exchangeId != "" && route.tokenIn != "" && route.tokenOut != "" && route.amountIn != 0
            && Preparing !in env.raises && ReadingBalance !in env.raises && BalanceOf(l, o.tokenIn, o.owner) < o.amountIn)
      && (r.result == Reverted ==> env.raises == {})
      && (r.result == Hash ==> env.raises == {} && r.swapped)
  {
    var r := Execute(l, route, o, connected, env);
    if r.result == Reverted || r.result == Hash {
      forall f ensures f !in env.raises {
        assert f.Preparing? || f.ReadingBalance? || f.BuildingApproval? || f.SendingApproval?
          || f.AwaitingApproval? || f.BuildingSwap? || f.SendingSwap? || f.AwaitingSwap?;
      }
    }
  }

  /** Whether everything up to the sending of the swap goes well, and the node takes it. */
  predicate SwapArrives(l: Ledger, route: Route, o: Order, connected: bool, env: Env) {
    && connected && Complete(route)
    && o.amountIn <= BalanceOf(l, o.tokenIn, o.owner)
    && env.raises <= {SendingSwap, AwaitingSwap}
    && Reaches(SendingSwap, env.swapTaken, env)
  }

  /** The ledger on which the swap executes. */
  function AtSwap(l: Ledger, o: Order, env: Env): Ledger {
    env.beforeSwap(Approved(l, env, o.tokenIn, o.owner, o.amountIn))
  }

  lemma SwappedIff(l: Ledger, route: Route, o: Order, connected: bool, env: Env)
    ensures var r := Execute(l, route, o, connected, env);
      && (r.swapped <==> SwapArrives(l, route, o, connected, env) && SwapIn(AtSwap(l, o, env), o, env.out).Some?)
      && (r.swapped ==> r.ledger == SwapIn(AtSwap(l, o, env), o, env.out).value)
  {
    if Execute(l, route, o, connected, env).swapped {
      forall f | f in env.raises ensures f in {SendingSwap, AwaitingSwap} {
        assert f.Preparing? || f.ReadingBalance? || f.BuildingApproval? || f.SendingApproval?
          || f.AwaitingApproval? || f.BuildingSwap? || f.SendingSwap? || f.AwaitingSwap?;
      }
    }
  }

  /** The hash of a swap is returned only for one that took effect. The converse fails: an error is
      returned for a swap that took effect exactly when sending it or awaiting its receipt raises. */
  lemma ErrorHidesSwapIff(l: Ledger, route: Route, o: Order, connected: bool, env: Env)
    ensures var r := Execute(l, route, o, connected, env);
      && (r.result == Hash ==> r.swapped)
      && (r.swapped && r.result != Hash <==>
            && (SendingSwap in env.raises || AwaitingSwap in env.raises)
            && SwapArrives(l, route, o, connected, env) && SwapIn(AtSwap(l, o, env), o, env.out).Some?)
  {
    SwappedIff(l, route, o, connected, env);
  }

  function Same(l: Ledger): Ledger { l }

  /** A swap of ten that takes effect while the caller gets an error. */
  lemma ErrorCanHideSwap(raised: Failure)
    requires raised in {SendingSwap, AwaitingSwap}
    ensures
      var l := Ledger(map[("cUSD", "me") := 10, ("CELO", RESERVE) := 20], map[]);
      var o := Order("me", "cUSD", "CELO", 10, 9);
      var r := Execute(l, Route("pool", "cUSD", "CELO", 10, 10), o, true, Env({raised}, true, true, true, 9.9, 10, Same, Same));
      && r.result == Raised && r.swapped
      && BalanceOf(r.ledger, "cUSD", "me") == 0 && BalanceOf(r.ledger, "CELO", "me") == 10
  {
    var l := Ledger(map[("cUSD", "me") := 10, ("CELO", RESERVE) := 20], map[]);
    var o := Order("me", "cUSD", "CELO", 10, 9);
    var env := Env({raised}, true, true, true, 9.9, 10, Same, Same);
    var at := AtSwap(l, o, env);
    assert at == Approve(l, "cUSD", "me", 10);
    assert SwapIn(at, o, 10).Some?;
    SwapExchanges(at, o, 10);
    SwappedIff(l, Route("pool", "cUSD", "CELO", 10, 10), o, true, env);
  }

  /** The signer pays the input exactly if the swap takes effect, and then gets at least the minimum. */
  lemma InputBuysMinimum(l: Ledger, route: Route, o: Order, connected: bool, env: Env)
    requires o.owner != RESERVE && o.tokenIn != o.tokenOut
    requires Leaves(env.beforeApproval, o.owner) && Leaves(env.beforeSwap, o.owner)
    ensures var r := Execute(l, route, o, connected, env);
      if r.swapped then
        && BalanceOf(r.ledger, o.tokenIn, o.owner) == BalanceOf(l, o.tokenIn, o.owner) - o.amountIn
        && BalanceOf(r.ledger, o.tokenOut, o.owner) >= BalanceOf(l, o.tokenOut, o.owner) + o.minOut
      else
        forall t :: BalanceOf(r.ledger, t, o.owner) == BalanceOf(l, t, o.owner)
  {
    SwappedIff(l, route, o, connected, env);
    ApprovalMovesNothing(l, env, o.tokenIn, o.owner, o.amountIn, o.owner);
    var at := AtSwap(l, o, env);
    assert forall t :: BalanceOf(at, t, o.owner) == BalanceOf(l, t, o.owner);
    if SwapIn(at, o, env.out).Some? { SwapExchanges(at, o, env.out); }
  }

  lemma SwapUsesAllowance(l: Ledger, o: Order, out: nat)
    requires SwapIn(l, o, out).Some?
    ensures Allowance(SwapIn(l, o, out).value, o.tokenIn, o.owner) == Allowance(l, o.tokenIn, o.owner) - o.amountIn
  {
    SwapIsTwoMoves(l, o, out);
  }

  /** The allowance that is left: none after an approved swap, the whole amount when an approval
      was mined and no swap followed, whatever was returned. */
  lemma AllowanceLeft(l: Ledger, route: Route, o: Order, connected: bool, env: Env)
    requires Leaves(env.beforeApproval, o.owner) && Leaves(env.beforeSwap, o.owner)
    ensures var r := Execute(l, route, o, connected, env);
      var standing := if r.sent != [] && env.approvalMined then o.amountIn else Allowance(l, o.tokenIn, o.owner);
      Allowance(r.ledger, o.tokenIn, o.owner) == if r.swapped then standing - o.amountIn else standing
  {
    SwappedIff(l, route, o, connected, env);
    var before := env.beforeApproval(l);
    assert Allowance(before, o.tokenIn, o.owner) == Allowance(l, o.tokenIn, o.owner);
    var approved := Approved(l, env, o.tokenIn, o.owner, o.amountIn);
    assert Allowance(env.beforeSwap(approved), o.tokenIn, o.owner) == Allowance(approved, o.tokenIn, o.owner);
    if SwapIn(AtSwap(l, o, env), o, env.out).Some? { SwapUsesAllowance(AtSwap(l, o, env), o, env.out); }
  }

  /** Nobody but the signer and the reserve gets anything: not the recipient either. */
  lemma OthersGetNothing(l: Ledger, route: Route, o: Order, connected: bool, env: Env, who: string)
    requires o.owner != RESERVE && o.tokenIn != o.tokenOut
    requires who != o.owner && who != RESERVE
    requires Leaves(env.beforeApproval, who) && Leaves(env.beforeSwap, who)
    ensures forall t :: BalanceOf(Execute(l, route, o, connected, env).ledger, t, who) == BalanceOf(l, t, who)
  {
    SwappedIff(l, route, o, connected, env);
    ApprovalMovesNothing(l, env, o.tokenIn, o.owner, o.amountIn, who);
    var at := AtSwap(l, o, env);
    assert forall t :: BalanceOf(at, t, who) == BalanceOf(l, t, who);
    if SwapIn(at, o, env.out).Some? { SwapExchanges(at, o, env.out); }
  }

  lemma {:induction false} TimesHex(s: string, n: nat)
    requires AllHex(s)
    ensures |Times(s, n)| == n * |s| && AllHex(Times(s, n))
  {
    if n == 0 {
    } else {
      TimesHex(s, n - 1);
    }
  }

  lemma PrefixedHex(digits: string)
    requires |digits| == 64 && AllHex(digits)
    ensures HashShaped("0x" + digits)
  {
    assert ("0x" + digits)[2..] == digits;
  }

  lemma ErrorIsNoHash(rest: string)
    ensures !HashShaped("0xERROR_" + rest)
  {
    var s := "0xERROR_" + rest;
    if |s| == 66 { assert s[2..][1] == s[3] == 'R'; }
  }

  /** Which returned strings have that form, whatever the hash of the swap is rendered like: libraries
      differ in whether they put "0x" before it. */
  lemma HashShapedIff(r: Result, hash: string, message: string)
    ensures HashShaped(Text(r, hash, message)) <==> r.Stub? || r.MissingParameters? || (r.Hash? && HashShaped(hash))
  {
    match r
    case Stub =>
      TimesHex("a1b2c3d4e5f6", 5);
      PrefixedHex(Times("a1b2c3d4e5f6", 5) + "0000");
    case MissingParameters =>
      TimesHex("0", 64);
      PrefixedHex(Times("0", 64));
    case InsufficientBalance => ErrorIsNoHash("insufficient_tokenIn_balance");
    case Raised => ErrorIsNoHash(Start(message, 50));
    case Reverted => ErrorIsNoHash("swap_reverted_" + Start(hash, 16));
    case Hash =>
  }

  /** A transaction hash is what the caller is promised, but the string may have its form although no
      swap took effect: exactly without a connection or for an incomplete route. */
  lemma HashWithoutSwapIff(l: Ledger, route: Route, o: Order, connected: bool, env: Env, hash: string, message: string)
    ensures var r := Execute(l, route, o, connected, env);
      HashShaped(Text(r.result, hash, message)) && !r.swapped <==> !connected || !Complete(route)
  {
    HashShapedIff(Execute(l, route, o, connected, env).result, hash, message);
    ErrorHidesSwapIff(l, route, o, connected, env);
  }

  /** Both ways it happens, on any ledger: nothing is sent, nothing moves, and a hash is returned. */
  lemma NothingSentLooksSent(l: Ledger, route: Route, o: Order, env: Env, hash: string, message: string)
    ensures var r := Execute(l, route, o, false, env);
      HashShaped(Text(r.result, hash, message)) && r.sent == [] && r.ledger == l
    ensures var r := Execute(l, route.(exchangeId := ""), o, true, env);
      HashShaped(Text(r.result, hash, message)) && r.sent == [] && r.ledger == l
  {
    HashShapedIff(Stub, hash, message);
    HashShapedIff(MissingParameters, hash, message);
  }

  class Chain {
    var ledger: Ledger
    var sent: seq<Tx>

    constructor (ledger: Ledger)
      ensures this.ledger == ledger && sent == []
    {
      this.ledger, sent := ledger, [];
    }

    /** `execute_swap`.  `recipient` is accepted and never used: the output goes to the signer.
        `hash` is that of the swap if it is sent, `message` that of an exception if one is raised. */
    method ExecuteSwap(route: Route, recipient: string, signer: string, connected: bool, env: Env, hash: string, message: string)
      returns (text: string, ghost swapped: bool)
      requires SmallError(env.product, route.amountOut)
      requires route.amountIn >= 0
      modifies this
      ensures 0 <= MinimumOut(env) <= route.amountOut
      ensures var order := Order(signer, route.tokenIn, route.tokenOut, route.amountIn, MinimumOut(env));
        var r := Execute(old(ledger), route, order, connected, env);
        text == Text(r.result, hash, message) && swapped == r.swapped && ledger == r.ledger && sent == old(sent) + r.sent
    {
      swapped := false;
      MinimumNearQuote(env, route.amountOut);
      if !connected { return Text(Stub, hash, message), false; }
      if !Complete(route) { return Text(MissingParameters, hash, message), false; }
      if Preparing in env.raises { return Text(Raised, hash, message), false; }
      var minOut := MinimumOut(env);
      if ReadingBalance in env.raises { return Text(Raised, hash, message), false; }
      if BalanceOf(ledger, route.tokenIn, signer) < route.amountIn { return Text(InsufficientBalance, hash, message), false; }

      if BuildingApproval in env.raises { return Text(Raised, hash, message), false; }
      if SendingApproval in env.raises && !env.approvalTaken { return Text(Raised, hash, message), false; }
      sent := sent + [ApproveTx(route.tokenIn, route.amountIn)];
      ledger := env.beforeApproval(ledger);
      if env.approvalMined { ledger := Approve(ledger, route.tokenIn, signer, route.amountIn); }
      if SendingApproval in env.raises || AwaitingApproval in env.raises { return Text(Raised, hash, message), false; }

      if BuildingSwap in env.raises { return Text(Raised, hash, message), false; }
      if SendingSwap in env.raises && !env.swapTaken { return Text(Raised, hash, message), false; }
      var order := Order(signer, route.tokenIn, route.tokenOut, route.amountIn, minOut);
      sent := sent + [SwapTx(order)];
      ledger := env.beforeSwap(ledger);
      var executed := SwapIn(ledger, order, env.out);
      if executed.Some? { ledger := executed.value; }
      swapped := executed.Some?;
      if SendingSwap in env.raises || AwaitingSwap in env.raises { return Text(Raised, hash, message), swapped; }
      text := Text(if executed.Some? then Hash else Reverted, hash, message);
    }
  }
}
