/**
  Portfolio analytics: grouping the holdings by category, their shares, the largest and the
  smallest holding, and the display order of tokens.  Values are in US dollars, over the reals.
*/
module Portfolio {
  import opened Common
  import opened StableSorting

  datatype Token = Token(symbol: string, category: string, balance: nat, usdValue: Option<real>)

  datatype Group = Group(category: string, count: nat, totalValue: real)

  function ValueOf(t: Token): real {
    if t.usdValue.Some? then t.usdValue.value else 0.0
  }

  predicate Valued(t: Token) {
    t.balance > 0 && ValueOf(t) > 0.0
  }

  function WithValue(balances: seq<Token>): seq<Token> {
    if balances == [] then []
    else WithValue(balances[..|balances| - 1]) + if Valued(balances[|balances| - 1]) then [balances[|balances| - 1]] else []
  }

  function Total(ts: seq<Token>): real {
    if ts == [] then 0.0 else Total(ts[..|ts| - 1]) + ValueOf(ts[|ts| - 1])
  }

  function Of(ts: seq<Token>, category: string): seq<Token> {
    if ts == [] then []
    else Of(ts[..|ts| - 1], category) + if ts[|ts| - 1].category == category then [ts[|ts| - 1]] else []
  }

  /** The holdings with a value are those of a positive balance and price, once each and in order. */
  lemma {:induction false} WithValueAre(a: seq<Token>, b: seq<Token>, t: Token)
    ensures WithValue([t]) == if t.balance > 0 && t.usdValue.Some? && t.usdValue.value > 0.0 then [t] else []
    ensures WithValue(a + b) == WithValue(a) + WithValue(b)
  {
    if b == [] {
      assert a + b == a;
    } else {
      WithValueAre(a, b[..|b| - 1], t);
      assert (a + b)[..|a + b| - 1] == a + b[..|b| - 1];
      var last := b[|b| - 1];
      Associate(WithValue(a), WithValue(b[..|b| - 1]), if Valued(last) then [last] else []);
    }
    assert [t][..0] == [];
  }

  lemma Associate<T>(a: seq<T>, b: seq<T>, c: seq<T>)
    ensures (a + b) + c == a + (b + c)
  {
  }

  /** Those of a category are exactly its own, once each and in order. */
  lemma {:induction false} OfAre(a: seq<Token>, b: seq<Token>, t: Token, category: string)
    ensures Of([t], category) == if t.category == category then [t] else []
    ensures Of(a + b, category) == Of(a, category) + Of(b, category)
  {
    if b == [] {
      assert a + b == a;
    } else {
      OfAre(a, b[..|b| - 1], t, category);
      assert (a + b)[..|a + b| - 1] == a + b[..|b| - 1];
      var last := b[|b| - 1];
      Associate(Of(a, category), Of(b[..|b| - 1], category), if last.category == category then [last] else []);
    }
    assert [t][..0] == [];
  }

  /** The total is the sum of the values; a token without one counts as nothing. */
  lemma {:induction false} TotalAdds(a: seq<Token>, b: seq<Token>, t: Token)
    ensures Total([t]) == if t.usdValue.Some? then t.usdValue.value else 0.0
    ensures Total(a + b) == Total(a) + Total(b)
  {
    if b == [] {
      assert a + b == a;
    } else {
      TotalAdds(a, b[..|b| - 1], t);
      assert (a + b)[..|a + b| - 1] == a + b[..|b| - 1];
    }
    assert [t][..0] == [];
  }

  function SumCounts(gs: seq<Group>): nat {
    if gs == [] then 0 else gs[0].count + SumCounts(gs[1..])
  }

  function SumTotals(gs: seq<Group>): real {
    if gs == [] then 0.0 else gs[0].totalValue + SumTotals(gs[1..])
  }

  function Percentage(g: Group, total: real): real {
    if total > 0.0 then g.totalValue / total * 100.0 else 0.0
  }

  function SumPercentages(gs: seq<Group>, total: real): real {
    if gs == [] then 0.0 else Percentage(gs[0], total) + SumPercentages(gs[1..], total)
  }

  // ---------------------------------------------------------------------------
  // Grouping
  // ---------------------------------------------------------------------------

  /** The accumulator after one more token: its group grows, or a new group is added at the end. */
  function AddTo(acc: seq<Group>, t: Token): seq<Group> {
    if acc == [] then [Group(t.category, 1, ValueOf(t))]
    else if acc[0].category == t.category then [Group(t.category, acc[0].count + 1, acc[0].totalValue + ValueOf(t))] + acc[1..]
    else [acc[0]] + AddTo(acc[1..], t)
  }

  function Tally(ts: seq<Token>): seq<Group> {
    if ts == [] then [] else AddTo(Tally(ts[..|ts| - 1]), ts[|ts| - 1])
  }

  lemma {:induction false} AddToSums(acc: seq<Group>, t: Token)
    ensures SumCounts(AddTo(acc, t)) == SumCounts(acc) + 1
    ensures SumTotals(AddTo(acc, t)) == SumTotals(acc) + ValueOf(t)
  {
    if acc == [] {
    } else {
      if acc[0].category == t.category {
        assert AddTo(acc, t)[1..] == acc[1..];
      } else {
        AddToSums(acc[1..], t);
        assert AddTo(acc, t)[1..] == AddTo(acc[1..], t);
      }
    }
  }

  /** Nothing is counted twice or lost: the groups add up to the holdings. */
  lemma {:induction false} TallyConserves(ts: seq<Token>)
    ensures SumCounts(Tally(ts)) == |ts|
    ensures SumTotals(Tally(ts)) == Total(ts)
  {
    if ts == [] {
    } else {
      TallyConserves(ts[..|ts| - 1]);
      AddToSums(Tally(ts[..|ts| - 1]), ts[|ts| - 1]);
    }
  }

  ghost predicate DistinctCategories(gs: seq<Group>) {
    forall i, j :: 0 <= i < j < |gs| ==> gs[i].category != gs[j].category
  }

  predicate Has(gs: seq<Group>, category: string) {
    exists g :: g in gs && g.category == category
  }

  /** What the groups of one category hold together. */
  function Share(gs: seq<Group>, category: string): (int, real) {
    if gs == [] then (0, 0.0)
    else
      var rest := Share(gs[1..], category);
      if gs[0].category == category then (gs[0].count + rest.0, gs[0].totalValue + rest.1) else rest
  }

  lemma {:induction false} AddToShares(acc: seq<Group>, t: Token, category: string)
    ensures var before, after := Share(acc, category), Share(AddTo(acc, t), category);
      if category == t.category then after.0 == before.0 + 1 && after.1 == before.1 + ValueOf(t) else after == before
  {
    var next := AddTo(acc, t);
    if acc == [] {
      assert next[1..] == [];
    } else if acc[0].category == t.category {
      assert next[1..] == acc[1..];
    } else {
      AddToShares(acc[1..], t, category);
      assert next[1..] == AddTo(acc[1..], t);
    }
  }

  lemma {:induction false} AddToCategories(acc: seq<Group>, t: Token, category: string)
    ensures Has(AddTo(acc, t), category) <==> Has(acc, category) || category == t.category
  {
    if acc == [] {
      assert Group(t.category, 1, ValueOf(t)) in AddTo(acc, t);
    } else {
      HasCons(acc[0], acc[1..], category);
      assert acc == [acc[0]] + acc[1..];
      if acc[0].category == t.category {
        HasCons(AddTo(acc, t)[0], acc[1..], category);
      } else {
        AddToCategories(acc[1..], t, category);
        HasCons(acc[0], AddTo(acc[1..], t), category);
      }
    }
  }

  lemma HasCons(g: Group, gs: seq<Group>, category: string)
    ensures Has([g] + gs, category) <==> g.category == category || Has(gs, category)
  {
    assert g in [g] + gs;
    if h :| h in gs && h.category == category { assert h in [g] + gs; }
  }

  lemma {:induction false} AddToDistinct(acc: seq<Group>, t: Token)
    requires DistinctCategories(acc)
    ensures DistinctCategories(AddTo(acc, t))
  {
    if acc == [] || acc[0].category == t.category {
    } else {
      AddToDistinct(acc[1..], t);
      var next := AddTo(acc[1..], t);
      forall k | 0 <= k < |next| ensures next[k].category != acc[0].category {
        assert next[k] in next;
        AddToCategories(acc[1..], t, next[k].category);
      }
    }
  }

  lemma {:induction false} LoneShare(gs: seq<Group>, g: Group)
    requires DistinctCategories(gs) && g in gs
    ensures Share(gs, g.category) == (g.count, g.totalValue)
  {
    if g == gs[0] {
      NoShare(gs[1..], g.category);
    } else {
      assert g in gs[1..];
      LoneShare(gs[1..], g);
    }
  }

  lemma {:induction false} NoShare(gs: seq<Group>, category: string)
    requires forall i :: 0 <= i < |gs| ==> gs[i].category != category
    ensures Share(gs, category) == (0, 0.0)
  {
    if gs == [] {
    } else {
      NoShare(gs[1..], category);
    }
  }

  lemma OfLast(ts: seq<Token>, category: string)
    requires ts != []
    ensures var before, t := Of(ts[..|ts| - 1], category), ts[|ts| - 1];
      if t.category == category
      then |Of(ts, category)| == |before| + 1 && Total(Of(ts, category)) == Total(before) + ValueOf(t)
      else Of(ts, category) == before
  {
    var before := Of(ts[..|ts| - 1], category);
    assert (before + [ts[|ts| - 1]])[..|before|] == before && before + [] == before;
  }

  lemma {:induction false} TallyDistinct(ts: seq<Token>)
    ensures DistinctCategories(Tally(ts))
  {
    if ts == [] {
    } else {
      TallyDistinct(ts[..|ts| - 1]);
      AddToDistinct(Tally(ts[..|ts| - 1]), ts[|ts| - 1]);
    }
  }

  lemma {:induction false} TallyShares(ts: seq<Token>, category: string)
    ensures Has(Tally(ts), category) <==> Of(ts, category) != []
    ensures Share(Tally(ts), category).0 == |Of(ts, category)|
    ensures Share(Tally(ts), category).1 == Total(Of(ts, category))
  {
    if ts == [] {
    } else {
      TallyShares(ts[..|ts| - 1], category);
      AddToShares(Tally(ts[..|ts| - 1]), ts[|ts| - 1], category);
      AddToCategories(Tally(ts[..|ts| - 1]), ts[|ts| - 1], category);
      OfLast(ts, category);
      assert Tally(ts) == AddTo(Tally(ts[..|ts| - 1]), ts[|ts| - 1]);
    }
  }

  /** The groups partition the holdings: one group for each category that occurs, with exactly the
      number and the value of the holdings of that category. */
  lemma TallyPartitions(ts: seq<Token>)
    ensures DistinctCategories(Tally(ts))
    ensures forall c :: Has(Tally(ts), c) <==> Of(ts, c) != []
    ensures forall g :: g in Tally(ts) ==> g == Group(g.category, |Of(ts, g.category)|, Total(Of(ts, g.category)))
  {
    TallyDistinct(ts);
    forall c ensures Has(Tally(ts), c) <==> Of(ts, c) != [] { TallyShares(ts, c); }
    forall g | g in Tally(ts) ensures g == Group(g.category, |Of(ts, g.category)|, Total(Of(ts, g.category))) {
      TallyShares(ts, g.category);
      LoneShare(Tally(ts), g);
    }
  }

  // ---------------------------------------------------------------------------
  // Sorting and sharing
  // ---------------------------------------------------------------------------

  predicate RicherGroup(a: Group, b: Group) { a.totalValue >= b.totalValue }

  predicate Richer(a: Token, b: Token) { ValueOf(a) >= ValueOf(b) }

  lemma {:induction false} InsertKeepsSums(g: Group, gs: seq<Group>)
    ensures SumCounts(Insert(g, gs, RicherGroup)) == g.count + SumCounts(gs)
    ensures SumTotals(Insert(g, gs, RicherGroup)) == g.totalValue + SumTotals(gs)
  {
    if gs == [] || RicherGroup(g, gs[0]) {
      assert ([g] + gs)[1..] == gs;
    } else {
      InsertKeepsSums(g, gs[1..]);
      var rest := Insert(g, gs[1..], RicherGroup);
      assert ([gs[0]] + rest)[1..] == rest;
    }
  }

  lemma {:induction false} SortKeepsSums(gs: seq<Group>)
    ensures SumCounts(StableSort(gs, RicherGroup)) == SumCounts(gs)
    ensures SumTotals(StableSort(gs, RicherGroup)) == SumTotals(gs)
  {
    if gs == [] {
    } else {
      SortKeepsSums(gs[1..]);
      InsertKeepsSums(gs[0], StableSort(gs[1..], RicherGroup));
    }
  }

  lemma {:induction false} PercentagesAddUp(gs: seq<Group>, total: real)
    requires total > 0.0
    ensures SumPercentages(gs, total) == SumTotals(gs) / total * 100.0
  {
    if gs == [] {
    } else {
      PercentagesAddUp(gs[1..], total);
      AddShares(gs[0].totalValue, SumTotals(gs[1..]), total);
    }
  }

  lemma AddShares(a: real, b: real, total: real)
    requires total > 0.0
    ensures a / total + b / total == (a + b) / total
  {
  }

  lemma {:induction false} ValuedTotalPositive(balances: seq<Token>)
    ensures forall t :: t in WithValue(balances) <==> t in balances && Valued(t)
    ensures WithValue(balances) != [] ==> Total(WithValue(balances)) > 0.0
    ensures Total(WithValue(balances)) >= 0.0
  {
    if balances == [] {
    } else {
      var before, t := balances[..|balances| - 1], balances[|balances| - 1];
      ValuedTotalPositive(before);
      assert balances == before + [t];
      var kept := WithValue(before);
      assert (kept + [t])[..|kept|] == kept && kept + [] == kept;
    }
  }

  /** What the analytics promise about a list of balances. */
  ghost predicate IsBreakdown(gs: seq<Group>, ts: seq<Token>) {
    && multiset(gs) == multiset(Tally(ts))
    && Sorted(gs, RicherGroup)
    && SumCounts(gs) == |ts|
    && SumTotals(gs) == Total(ts)
    && (ts != [] ==> SumPercentages(gs, Total(ts)) == 100.0)
  }

  /** The reduce over the holdings, then the sort by value. */
  method CategoryBreakdown(tokens: seq<Token>) returns (breakdown: seq<Group>)
    requires tokens != [] ==> Total(tokens) > 0.0
    ensures IsBreakdown(breakdown, tokens)
  {
    var acc: seq<Group> := [];
    for i := 0 to |tokens|
      invariant acc == Tally(tokens[..i])
    {
      assert tokens[..i + 1][..i] == tokens[..i];
      acc := AddTo(acc, tokens[i]);
    }
    assert tokens[..|tokens|] == tokens;
    TallyConserves(tokens);
    RicherPreorder();
    SortPermutes(acc, RicherGroup);
    SortSorts(acc, RicherGroup);
    SortKeepsSums(acc);
    breakdown := StableSort(acc, RicherGroup);
    if tokens != [] {
      PercentagesAddUp(breakdown, Total(tokens));
      WholeShare(Total(tokens));
    }
  }

  lemma RicherPreorder()
    ensures TotalPreorder(RicherGroup) && TotalPreorder(Richer)
  {
  }

  lemma WholeShare(x: real)
    requires x > 0.0
    ensures x / x * 100.0 == 100.0
  {
  }

  /** First and last of the holdings sorted by falling value. */
  method Extremes(tokens: seq<Token>) returns (largest: Token, smallest: Token)
    requires tokens != []
    ensures largest in tokens && smallest in tokens
    ensures forall t :: t in tokens ==> ValueOf(smallest) <= ValueOf(t) <= ValueOf(largest)
  {
    var byValue := StableSort(tokens, Richer);
    RicherPreorder();
    SortPermutes(tokens, Richer);
    SortSorts(tokens, Richer);
    SameElements(tokens, byValue);
    largest, smallest := byValue[0], byValue[|byValue| - 1];
    assert largest in byValue && smallest in byValue;
    SortedEnds(byValue);
  }

  lemma SortedEnds(ts: seq<Token>)
    requires Sorted(ts, Richer)
    ensures forall t :: t in ts ==> ValueOf(ts[|ts| - 1]) <= ValueOf(t) <= ValueOf(ts[0])
  {
    forall k | 0 <= k < |ts| ensures ValueOf(ts[|ts| - 1]) <= ValueOf(ts[k]) <= ValueOf(ts[0]) {
      assert k == 0 || Richer(ts[0], ts[k]);
      assert k == |ts| - 1 || Richer(ts[k], ts[|ts| - 1]);
    }
  }

  /** The average holding: as many of it as there are holdings make the total; without any it is 0. */
  function Average(ts: seq<Token>): (average: real)
    ensures average * |ts| as real == Total(ts) && (ts == [] ==> average == 0.0)
  {
    if |ts| > 0 then Total(ts) / |ts| as real else 0.0
  }

  /** `getPortfolioAnalytics`: the breakdown, the two extremes and the average holding. */
  method PortfolioAnalytics(balances: seq<Token>)
    returns (breakdown: seq<Group>, extremes: Option<(Token, Token)>, average: real)
    ensures IsBreakdown(breakdown, WithValue(balances))
    ensures extremes.None? <==> forall t :: t in balances ==> !Valued(t)
    ensures extremes.Some? ==> Spans(extremes.value, balances)
    ensures average == Average(WithValue(balances))
  {
    var tokens := WithValue(balances);
    ValuedTotalPositive(balances);
    breakdown := CategoryBreakdown(tokens);
    average := Average(tokens);
    if tokens == [] { return breakdown, None, average; }
    var largest, smallest := Extremes(tokens);
    extremes := Some((largest, smallest));
    assert tokens[0] in tokens;
  }

  /** The largest and the smallest of the holdings with a value. */
  ghost predicate Spans(extremes: (Token, Token), balances: seq<Token>) {
    && extremes.0 in balances && extremes.1 in balances
    && forall t :: t in balances && Valued(t) ==> ValueOf(extremes.1) <= ValueOf(t) <= ValueOf(extremes.0)
  }

  // ---------------------------------------------------------------------------
  // The display order
  // ---------------------------------------------------------------------------

  const PRIORITY: seq<string> := ["CELO", "USDm", "USDC", "USDT", "EURm", "cUSD", "cEUR", "BRLm", "PHPm", "KESm"]

  function IndexOf(s: seq<string>, x: string): (i: int)
    ensures -1 <= i < |s|
    ensures i >= 0 ==> s[i] == x
    ensures i == -1 <==> x !in s
  {
    if s == [] then -1
    else if s[|s| - 1] == x && IndexOf(s[..|s| - 1], x) == -1 then |s| - 1
    else IndexOf(s[..|s| - 1], x)
  }

  /** The key of the comparator as written: CELO and every unlisted token share -1. */
  function PriorityKey(symbol: string): int {
    if symbol == "CELO" then -1 else IndexOf(PRIORITY, symbol)
  }

  /** The order that the key gives to the listed tokens, and that it gives CELO and the unlisted ones
      together, before them. */
  lemma KeysAre(symbol: string)
    ensures PriorityKey("USDm") == 1 && PriorityKey("USDC") == 2 && PriorityKey("USDT") == 3
    ensures PriorityKey("EURm") == 4 && PriorityKey("cUSD") == 5 && PriorityKey("cEUR") == 6
    ensures PriorityKey("BRLm") == 7 && PriorityKey("PHPm") == 8 && PriorityKey("KESm") == 9
    ensures PriorityKey(symbol) == -1
      <==> symbol !in {"USDm", "USDC", "USDT", "EURm", "cUSD", "cEUR", "BRLm", "PHPm", "KESm"}
  {
    PriorityIsDistinct();
    forall k | 0 <= k < 10 ensures IndexOf(PRIORITY, PRIORITY[k]) == k {
      assert PRIORITY[k] in PRIORITY;
    }
    assert PRIORITY[1] == "USDm" && PRIORITY[2] == "USDC" && PRIORITY[3] == "USDT" && PRIORITY[4] == "EURm" && PRIORITY[5] == "cUSD";
    assert PRIORITY[6] == "cEUR" && PRIORITY[7] == "BRLm" && PRIORITY[8] == "PHPm" && PRIORITY[9] == "KESm";
  }

  lemma PriorityIsDistinct()
    ensures |PRIORITY| == 10 && forall i, j :: 0 <= i < j < 10 ==> PRIORITY[i] != PRIORITY[j]
  {
  }

  predicate ShownFirst(a: Token, b: Token) {
    if PriorityKey(a.symbol) != PriorityKey(b.symbol) then PriorityKey(a.symbol) < PriorityKey(b.symbol)
    else ValueOf(a) >= ValueOf(b)
  }

  function SortTokens(balances: seq<Token>): seq<Token> {
    StableSort(balances, ShownFirst)
  }

  /** The display order is a permutation sorted by the key and, within a key, by falling value.
      The key puts every unlisted token before every listed one other than CELO. */
  lemma DisplayOrder(balances: seq<Token>)
    ensures multiset(SortTokens(balances)) == multiset(balances)
    ensures var s := SortTokens(balances);
      forall i, j :: 0 <= i < j < |s| ==>
        && ShownFirst(s[i], s[j])
        && (s[i].symbol in PRIORITY && s[i].symbol != "CELO" ==> s[j].symbol in PRIORITY)
  {
    SortPermutes(balances, ShownFirst);
    SortSorts(balances, ShownFirst);
  }

  predicate Listed(t: Token) { t.symbol in PRIORITY }

  /** What the sort is for: a listed token never comes after an unlisted one. */
  predicate ListedFirst(a: Token, b: Token) { Listed(b) ==> Listed(a) }

  lemma ShownFirstPreorder()
    ensures TotalPreorder(ShownFirst)
  {
  }

  /** Next to unlisted tokens nothing listed is held but CELO, and that with at least their value. */
  predicate OnlyCeloListed(balances: seq<Token>) {
    forall u, p :: u in balances && p in balances && !Listed(u) && Listed(p) ==>
      p.symbol == "CELO" && ValueOf(u) <= ValueOf(p)
  }

  lemma AgreesListedFirst(balances: seq<Token>)
    ensures Agrees(balances, ShownFirst, ListedFirst) <==> OnlyCeloListed(balances)
  {
    if Agrees(balances, ShownFirst, ListedFirst) {
      forall u, p | u in balances && p in balances && !Listed(u) && Listed(p)
        ensures p.symbol == "CELO" && ValueOf(u) <= ValueOf(p)
      {
        assert !ListedFirst(u, p);
        assert !(ShownFirst(u, p) && !ShownFirst(p, u));
      }
    }
  }

  /** Listed tokens do come first exactly when only CELO is listed beside unlisted tokens, and it
      stood before those of equal value already. */
  lemma ListedComeFirstIff(balances: seq<Token>)
    ensures Sorted(SortTokens(balances), ListedFirst)
      <==> OnlyCeloListed(balances) && TiesMeet(balances, ShownFirst, ListedFirst)
  {
    assert TotalPreorder(ShownFirst) by { ShownFirstPreorder(); }
    SortMeetsIff(balances, ShownFirst, ListedFirst);
    AgreesListedFirst(balances);
  }
}
