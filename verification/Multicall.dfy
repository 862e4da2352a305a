/**
  Token balances in one batch.  The requests are built by a map and a filter; the tokens they
  belong to are collected separately, by a loop, when the answers arrive.  Nothing but the
  order ties an answer to its token.
*/
module Multicall {
  import opened Common

  type Address = string

  const ZERO_ADDRESS: Address := "0x0000000000000000000000000000000000000000"
  const CELO_MAINNET := 42220
  const CELO_ALFAJORES := 44787

  datatype Token = Token(symbol: string, decimals: nat, mainnet: Address, sepolia: Address, native: bool)

  /** `TOKEN_REGISTRY`: a lookup by key.  A key need not be the symbol of its token. */
  type Registry = map<string, Token>

  /** None where the source throws: an unknown symbol or an unsupported chain. */
  function ContractAddress(registry: Registry, symbol: string, chain: int): Option<Address> {
    if symbol !in registry then None
    else if chain == CELO_MAINNET then Some(registry[symbol].mainnet)
    else if chain == CELO_ALFAJORES then Some(registry[symbol].sepolia)
    else None
  }

  /** The callback of the map: a token's address, or nothing to ask for. */
  function Request(registry: Registry, t: Token, chain: int): Option<Address> {
    var a := ContractAddress(registry, t.symbol, chain);
    if a == Some(ZERO_ADDRESS) then None else a
  }

  /** Which address is asked: that of the network of the chain, if there is one and it is not zero. */
  lemma RequestIs(registry: Registry, t: Token, chain: int, a: Address)
    ensures Request(registry, t, chain) == Some(a) <==>
      && t.symbol in registry && a != "0x0000000000000000000000000000000000000000"
      && ((chain == 42220 && a == registry[t.symbol].mainnet) || (chain == 44787 && a == registry[t.symbol].sepolia))
  {
  }

  function Somes<T>(s: seq<Option<T>>): seq<T> {
    if s == [] then []
    else Somes(s[..|s| - 1]) + if s[|s| - 1].Some? then [s[|s| - 1].value] else []
  }

  function AddressesOf(registry: Registry, tokens: seq<Token>, chain: int): seq<Option<Address>> {
    seq(|tokens|, i requires 0 <= i < |tokens| => Request(registry, tokens[i], chain))
  }

  function Requests(registry: Registry, tokens: seq<Token>, chain: int, connected: bool): seq<Address> {
    if !connected then [] else Somes(AddressesOf(registry, tokens, chain))
  }

  /** One answer: a balance, or a call that failed. */
  datatype Answer = Success(balance: nat) | Failure

  function Ask(requests: seq<Address>, read: Address -> Answer): seq<Answer> {
    seq(|requests|, i requires 0 <= i < |requests| => read(requests[i]))
  }

  datatype Balance = Balance(symbol: string, amount: nat, contract: Address)

  /** The reference: every token is asked about on its own. */
  function AskOne(registry: Registry, t: Token, chain: int, read: Address -> Answer, includeZero: bool): seq<Balance> {
    match Request(registry, t, chain)
    case None => []
    case Some(a) =>
      var answer := read(a);
      if answer.Success? && (includeZero || answer.balance != 0) then [Balance(t.symbol, answer.balance, a)] else []
  }

  /** A balance is shown exactly if the token can be asked about, the call succeeds and the balance is not
      zero, or zeros are wanted. */
  lemma OneIsShownIff(registry: Registry, t: Token, chain: int, read: Address -> Answer, includeZero: bool, b: Balance)
    ensures AskOne(registry, t, chain, read, includeZero) == [b] <==>
      && Request(registry, t, chain) == Some(b.contract) && b.symbol == t.symbol
      && read(b.contract) == Success(b.amount) && (b.amount > 0 || includeZero)
    ensures |AskOne(registry, t, chain, read, includeZero)| <= 1
  {
  }

  function AskEach(registry: Registry, ts: seq<Token>, chain: int, read: Address -> Answer, includeZero: bool): seq<Balance> {
    if ts == [] then []
    else
      var n := |ts| - 1;
      AskEach(registry, ts[..n], chain, read, includeZero) + AskOne(registry, ts[n], chain, read, includeZero)
  }

  function Queryable(registry: Registry, ts: seq<Token>, chain: int): seq<Token> {
    if ts == [] then []
    else
      var n := |ts| - 1;
      Queryable(registry, ts[..n], chain) + if Request(registry, ts[n], chain).Some? then [ts[n]] else []
  }

  /** The loop that collects the tokens when the answers are in. */
  method FilterTokens(registry: Registry, tokens: seq<Token>, chain: int) returns (kept: seq<Token>)
    ensures kept == Queryable(registry, tokens, chain)
  {
    kept := [];
    for i := 0 to |tokens|
      invariant kept == Queryable(registry, tokens[..i], chain)
    {
      var addr := ContractAddress(registry, tokens[i].symbol, chain);
      assert tokens[..i + 1][..i] == tokens[..i];
      if addr.Some? && addr.value != ZERO_ADDRESS {
        kept := kept + [tokens[i]];
      }
    }
    assert tokens[..|tokens|] == tokens;
  }

  /** Request `i` is the request of the `i`th kept token, for every registry, chain and token list. */
  lemma {:induction false} RequestsAlign(registry: Registry, ts: seq<Token>, chain: int)
    ensures |Requests(registry, ts, chain, true)| == |Queryable(registry, ts, chain)|
    ensures forall i :: 0 <= i < |Queryable(registry, ts, chain)| ==>
      Request(registry, Queryable(registry, ts, chain)[i], chain) == Some(Requests(registry, ts, chain, true)[i])
  {
    if ts == [] {
    } else {
      var n := |ts| - 1;
      RequestsAlign(registry, ts[..n], chain);
      assert AddressesOf(registry, ts, chain)[..n] == AddressesOf(registry, ts[..n], chain);
    }
  }

  /**
    The balance builder.  Batching changes nothing: the result is that of asking about each
    token separately.
  */
  method BuildBalances(registry: Registry, tokens: seq<Token>, chain: int, connected: bool,
                       read: Address -> Answer, includeZero: bool)
    returns (balances: seq<Balance>)
    ensures balances == if connected then AskEach(registry, tokens, chain, read, includeZero) else []
  {
    balances := [];
    if !connected { return; }   // no request is sent and nothing is answered
    var results := Ask(Requests(registry, tokens, chain, connected), read);
    var kept := FilterTokens(registry, tokens, chain);
    RequestsAlign(registry, tokens, chain);
    for i := 0 to |results|
      invariant balances == AskEach(registry, kept[..i], chain, read, includeZero)
    {
      var result, token := results[i], kept[i];
      var shown := ContractAddress(registry, token.symbol, chain);
      assert Request(registry, token, chain) == shown && result == read(shown.value);
      assert kept[..i + 1][..i] == kept[..i];
      if result.Success? && (includeZero || result.balance != 0) {
        balances := balances + [Balance(token.symbol, result.balance, if shown.Some? then shown.value else ZERO_ADDRESS)];
      }
    }
    assert kept[..|kept|] == kept;
    AskOnlyQueryable(registry, tokens, chain, read, includeZero);
  }

  lemma {:induction false} AskOnlyQueryable(registry: Registry, ts: seq<Token>, chain: int, read: Address -> Answer, includeZero: bool)
    ensures AskEach(registry, Queryable(registry, ts, chain), chain, read, includeZero) == AskEach(registry, ts, chain, read, includeZero)
  {
    if ts == [] {
    } else {
      var n := |ts| - 1;
      AskOnlyQueryable(registry, ts[..n], chain, read, includeZero);
      var before := Queryable(registry, ts[..n], chain);
      assert (before + [ts[n]])[..|before|] == before && before + [] == before;
    }
  }

  /** The tokens the registry lists for a network, without the native one. */
  function TokensForNetwork(registry: Registry, values: seq<Token>, chain: int): seq<Token> {
    if values == [] then []
    else
      var n := |values| - 1;
      var a := ContractAddress(registry, values[n].symbol, chain);
      TokensForNetwork(registry, values[..n], chain)
        + if a.Some? && (values[n].native || a.value != ZERO_ADDRESS) then [values[n]] else []
  }

  function NonNative(ts: seq<Token>): seq<Token> {
    if ts == [] then [] else NonNative(ts[..|ts| - 1]) + if ts[|ts| - 1].native then [] else [ts[|ts| - 1]]
  }

  /** A token is listed for a network exactly if it has an address there, which may be zero for the native
      one; tokens keep their order. */
  lemma {:induction false} ListedIff(registry: Registry, a: seq<Token>, b: seq<Token>, t: Token, chain: int)
    ensures TokensForNetwork(registry, [t], chain) == [t] <==>
      ContractAddress(registry, t.symbol, chain).Some? && (t.native || Request(registry, t, chain).Some?)
    ensures |TokensForNetwork(registry, [t], chain)| <= 1
    ensures TokensForNetwork(registry, a + b, chain) == TokensForNetwork(registry, a, chain) + TokensForNetwork(registry, b, chain)
  {
    assert [t][..0] == [];
    if b == [] {
      assert a + b == a;
    } else {
      ListedIff(registry, a, b[..|b| - 1], t, chain);
      assert (a + b)[..|a + b| - 1] == a + b[..|b| - 1];
    }
  }

  lemma {:induction false} ListedHaveAddress(registry: Registry, values: seq<Token>, chain: int)
    ensures forall t :: t in TokensForNetwork(registry, values, chain) && !t.native ==> Request(registry, t, chain).Some?
  {
    if values == [] {
    } else {
      ListedHaveAddress(registry, values[..|values| - 1], chain);
    }
  }

  lemma {:induction false} NonNativeMembers(ts: seq<Token>)
    ensures forall t :: t in NonNative(ts) <==> t in ts && !t.native
  {
    if ts == [] {
    } else {
      NonNativeMembers(ts[..|ts| - 1]);
      assert ts == ts[..|ts| - 1] + [ts[|ts| - 1]];
    }
  }

  lemma {:induction false} AllQueryable(registry: Registry, ts: seq<Token>, chain: int)
    requires forall t :: t in ts ==> Request(registry, t, chain).Some?
    ensures Queryable(registry, ts, chain) == ts
  {
    if ts == [] {
    } else {
      var before, t := ts[..|ts| - 1], ts[|ts| - 1];
      assert ts == before + [t];
      assert t in ts && forall x :: x in before ==> x in ts;
      AllQueryable(registry, before, chain);
    }
  }

  /** For the tokens listed for the queried network neither filter drops anything. */
  lemma ListedTokensAreAsked(registry: Registry, values: seq<Token>, chain: int)
    ensures var ts := NonNative(TokensForNetwork(registry, values, chain));
      Queryable(registry, ts, chain) == ts && |Requests(registry, ts, chain, true)| == |ts|
  {
    var listed := TokensForNetwork(registry, values, chain);
    ListedHaveAddress(registry, values, chain);
    NonNativeMembers(listed);
    AllQueryable(registry, NonNative(listed), chain);
    RequestsAlign(registry, NonNative(listed), chain);
  }
}
