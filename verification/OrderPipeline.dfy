/**
 From the solvable orders in the database to the orders of the next auction: a chain of filters, and
 beside it a counter that keeps track of which order was dropped for which reason.
 */
module OrderPipeline {
  import opened Common
  import opened Sequences
  import opened Tables

  datatype OrderClass = Market | Liquidity | Limit

  datatype Order = Order(
    uid: OrderUid,
    class_: OrderClass,
    created: int,
    owner: Address,
    receiver: Option<Address>,
    sellToken: Address,
    buyToken: Address,
    sellAmount: nat,
    buyAmount: nat,
    feeAmount: nat,
    partiallyFillable: bool,
    eip1271: bool,
    presignaturePending: bool,
    sellSource: nat,
    preInteractions: nat)

  /** What a balance is asked for. */
  datatype Query = Query(owner: Address, token: Address, source: nat, interactions: nat)

  function FromOrder(o: Order): Query
  {
    Query(o.owner, o.sellToken, o.sellSource, o.preInteractions)
  }

  /** Configuration, and what other services answer while the auction is built. */
  datatype Env = Env(
    banned: set<Address>,
    signatureValidates: Order -> bool,
    disable1271SignatureFilter: bool,
    tokenIsGood: Address -> Option<bool>,
    disableBalanceFilter: bool,
    disable1271BalanceFilter: bool,
    balances: map<Query, nat>,
    settlementContract: Address,
    dust: Order -> bool,
    nativePrices: map<Address, nat>,
    weth: Address,
    wethPrice: nat,
    priceFactor: real)

  function CheckedAdd(a: nat, b: nat): Option<nat>
  {
    if a + b <= U256_MAX then Some(a + b) else None
  }

  function CheckedMul(a: nat, b: nat): Option<nat>
  {
    if a * b <= U256_MAX then Some(a * b) else None
  }

  /** A native amount pays for another one, with a margin. */
  predicate PaysFor(sell: nat, buy: nat, factor: real)
  {
    sell as real >= buy as real * factor
  }

  // ----------------------------------------------------------------------- the conditions

  predicate Banned(env: Env, o: Order)
  {
    o.owner in env.banned || (o.receiver.Some? && o.receiver.value in env.banned)
  }

  predicate BadSignature(env: Env, o: Order)
  {
    if o.eip1271 && env.disable1271SignatureFilter then false
    else o.presignaturePending || (o.eip1271 && !env.signatureValidates(o))
  }

  /** A token whose quality cannot be determined counts as bad; an order of one token is not looked at. */
  predicate BadToken(env: Env, o: Order)
  {
    o.sellToken != o.buyToken &&
    (env.tokenIsGood(o.sellToken) != Some(true) || env.tokenIsGood(o.buyToken) != Some(true))
  }

  predicate HasBalance(env: Env, o: Order)
  {
    if env.disable1271BalanceFilter && o.eip1271 then true
    else if o.receiver == Some(env.settlementContract) then true
    else if FromOrder(o) !in env.balances then false
    else
      var balance := env.balances[FromOrder(o)];
      if o.partiallyFillable && balance >= 1 then true
      else
        var needed := CheckedAdd(o.sellAmount, o.feeAmount);
        needed.Some? && balance >= needed.value
  }

  predicate HasPrices(prices: map<Address, nat>, o: Order)
  {
    o.sellToken in prices && o.buyToken in prices
  }

  /** Only limit orders are compared with the market; their tokens must have prices. */
  predicate InMarket(prices: map<Address, nat>, factor: real, o: Order)
    requires o.class_.Limit? ==> HasPrices(prices, o)
  {
    if !o.class_.Limit? then true
    else
      var sell := CheckedMul(o.sellAmount, prices[o.sellToken]);
      var buy := CheckedMul(o.buyAmount, prices[o.buyToken]);
      sell.Some? && buy.Some? && PaysFor(sell.value, buy.value, factor)
  }

  function WithWeth(env: Env): map<Address, nat>
  {
    InsertIfAbsent(env.nativePrices, env.weth, env.wethPrice)
  }

  datatype Reason =
    | BannedUser | InvalidSignature | UnsupportedToken | InsufficientBalance
    | DustOrder | MissingPrice | OutOfMarket | Other

  /** Why an order is not in the auction: the first condition it fails. */
  function Blame(env: Env, o: Order): Option<Reason>
  {
    if Banned(env, o) then Some(BannedUser)
    else if BadSignature(env, o) then Some(InvalidSignature)
    else if BadToken(env, o) then Some(UnsupportedToken)
    else if !env.disableBalanceFilter && !HasBalance(env, o) then Some(InsufficientBalance)
    else if !env.disableBalanceFilter && env.dust(o) then Some(DustOrder)
    else if !HasPrices(env.nativePrices, o) then Some(MissingPrice)
    else if !InMarket(WithWeth(env), env.priceFactor, o) then Some(OutOfMarket)
    else None
  }

  /** An order of a token whose quality could not be determined is dropped. */
  lemma UnknownTokenIsDropped(env: Env, o: Order)
    requires !Banned(env, o) && !BadSignature(env, o) && o.sellToken != o.buyToken
    requires env.tokenIsGood(o.sellToken).None? || env.tokenIsGood(o.buyToken).None?
    ensures Blame(env, o) == Some(UnsupportedToken)
  {
  }

  // ----------------------------------------------------------- how the answer depends on what

  /** The other services say the same about two orders that differ in their amounts only. */
  predicate AnswersAlike(env: Env, o: Order, p: Order)
  {
    && p == o.(sellAmount := p.sellAmount, buyAmount := p.buyAmount)
    && env.signatureValidates(p) == env.signatureValidates(o) && env.dust(p) == env.dust(o)
  }

  predicate ReachesMarketFilter(env: Env, o: Order)
  {
    o.class_.Limit? && (Blame(env, o).None? || Blame(env, o) == Some(OutOfMarket))
  }

  predicate Overflows(env: Env, o: Order)
    requires HasPrices(env.nativePrices, o)
  {
    || o.sellAmount * env.nativePrices[o.sellToken] > U256_MAX
    || o.buyAmount * env.nativePrices[o.buyToken] > U256_MAX
  }

  lemma Reaching(env: Env, o: Order)
    requires ReachesMarketFilter(env, o)
    ensures HasPrices(env.nativePrices, o)
    ensures Overflows(env, o) ==> Blame(env, o) == Some(OutOfMarket)
    ensures !Overflows(env, o) ==>
              var sell := o.sellAmount * env.nativePrices[o.sellToken];
              var buy := o.buyAmount * env.nativePrices[o.buyToken];
              Blame(env, o).None? <==> PaysFor(sell, buy, env.priceFactor)
  {
  }

  lemma ProductGrows(a: nat, b: nat, factor: nat)
    requires a <= b
    ensures a * factor <= b * factor
  {
  }

  lemma ScaledGrows(a: real, b: real, factor: real)
    requires a <= b && factor >= 0.0
    ensures a * factor <= b * factor
  {
  }

  /** What pays for something pays for less, also under a factor without a sensible sign. */
  lemma PaysForLess(sell: nat, less: nat, more: nat, factor: real)
    requires less <= more && PaysFor(sell, more, factor)
    ensures PaysFor(sell, less, factor)
  {
    if factor >= 0.0 {
      ScaledGrows(less as real, more as real, factor);
    } else {
      ScaledGrows(0.0, less as real, -factor);
    }
  }

  lemma MorePays(less: nat, more: nat, buy: nat, factor: real)
    requires less <= more && PaysFor(less, buy, factor)
    ensures PaysFor(more, buy, factor)
  {
  }

  lemma PaysForItselfIff(value: nat, factor: real)
    requires value > 0
    ensures PaysFor(value, value, factor) <==> factor <= 1.0
  {
    var v := value as real;
    if factor <= 1.0 {
      ScaledGrows(factor, 1.0, v);
    } else {
      assert v * (factor - 1.0) > 0.0;
      assert v * factor == v + v * (factor - 1.0);
    }
  }

  lemma SmallerFactorPays(sell: nat, buy: nat, small: real, large: real)
    requires small <= large && PaysFor(sell, buy, large)
    ensures PaysFor(sell, buy, small)
  {
    ScaledGrows(small, large, buy as real);
  }

  lemma PaysWithNothing(buy: nat, factor: real)
    requires factor > 0.0
    ensures PaysFor(0, buy, factor) <==> buy == 0
  {
    if buy > 0 {
      assert buy as real * factor > 0.0;
    }
  }

  /** A limit order in the auction stays there if it asks for less. */
  lemma AskingLessKeeps(env: Env, o: Order, p: Order)
    requires Blame(env, o).None? && o.class_.Limit? && AnswersAlike(env, o, p)
    requires p.sellAmount == o.sellAmount && p.buyAmount <= o.buyAmount
    ensures Blame(env, p).None?
  {
    Reaching(env, o);
    Reaching(env, p);
    var sell, price := o.sellAmount * env.nativePrices[o.sellToken], env.nativePrices[o.buyToken];
    ProductGrows(p.buyAmount, o.buyAmount, price);
    PaysForLess(sell, p.buyAmount * price, o.buyAmount * price, env.priceFactor);
  }

  /** If it offers more, it is never out of the market, but its owner may not be able to pay. */
  lemma OfferingMoreKeeps(env: Env, o: Order, p: Order)
    requires Blame(env, o).None? && o.class_.Limit? && AnswersAlike(env, o, p)
    requires p.sellAmount >= o.sellAmount && p.buyAmount == o.buyAmount
    requires p.sellToken in env.nativePrices && p.sellAmount * env.nativePrices[p.sellToken] <= U256_MAX
    ensures Blame(env, p).None? || Blame(env, p) == Some(InsufficientBalance)
  {
    Reaching(env, o);
    if Blame(env, p) != Some(InsufficientBalance) {
      Reaching(env, p);
      var price, buy := env.nativePrices[o.sellToken], o.buyAmount * env.nativePrices[o.buyToken];
      ProductGrows(o.sellAmount, p.sellAmount, price);
      MorePays(o.sellAmount * price, p.sellAmount * price, buy, env.priceFactor);
    }
  }

  /** An order that asks for exactly what its tokens are worth is kept if and only if the factor is at most one. */
  lemma AtMarketPriceIff(env: Env, o: Order)
    requires ReachesMarketFilter(env, o)
    requires HasPrices(env.nativePrices, o) && !Overflows(env, o)
    requires o.sellAmount * env.nativePrices[o.sellToken] == o.buyAmount * env.nativePrices[o.buyToken] > 0
    ensures Blame(env, o).None? <==> env.priceFactor <= 1.0
  {
    Reaching(env, o);
    PaysForItselfIff(o.buyAmount * env.nativePrices[o.buyToken], env.priceFactor);
  }

  /** Selling nothing for something is out of the market, and buying nothing is not. */
  lemma NothingForSomething(env: Env, o: Order)
    requires ReachesMarketFilter(env, o) && env.priceFactor > 0.0
    requires HasPrices(env.nativePrices, o) && env.nativePrices[o.sellToken] > 0 && env.nativePrices[o.buyToken] > 0
    ensures o.sellAmount == 0 && o.buyAmount > 0 ==> Blame(env, o) == Some(OutOfMarket)
    ensures o.buyAmount == 0 && !Overflows(env, o) ==> Blame(env, o).None?
  {
    Reaching(env, o);
    var sell, buy := o.sellAmount * env.nativePrices[o.sellToken], o.buyAmount * env.nativePrices[o.buyToken];
    PaysWithNothing(buy, env.priceFactor);
    if o.buyAmount == 0 {
      MorePays(0, sell, 0, env.priceFactor);
    } else {
      ProductGrows(1, o.buyAmount, env.nativePrices[o.buyToken]);
    }
  }

  /** Native amounts that do not fit are out of the market, whatever the factor. */
  lemma OverflowIsDropped(env: Env, o: Order)
    requires ReachesMarketFilter(env, o) && HasPrices(env.nativePrices, o) && Overflows(env, o)
    ensures Blame(env, o) == Some(OutOfMarket)
  {
    Reaching(env, o);
  }

  /** A larger factor keeps no order that a smaller one drops. */
  lemma LargerFactorKeepsLess(env: Env, o: Order, factor: real)
    requires factor >= env.priceFactor && Blame(env.(priceFactor := factor), o).None?
    ensures Blame(env, o).None?
  {
    var env' := env.(priceFactor := factor);
    if o.class_.Limit? {
      Reaching(env', o);
      Reaching(env, o);
      var sell, buy := o.sellAmount * env.nativePrices[o.sellToken], o.buyAmount * env.nativePrices[o.buyToken];
      SmallerFactorPays(sell, buy, env.priceFactor, factor);
    }
  }

  /** Only limit orders are compared with the market. */
  lemma OtherClassesIgnoreMarket(env: Env, o: Order, factor: real)
    requires !o.class_.Limit?
    ensures Blame(env, o) != Some(OutOfMarket) && Blame(env.(priceFactor := factor), o) == Blame(env, o)
  {
  }

  /** Banning one more address drops exactly the orders that pay from it or to it. */
  lemma BanDropsExactly(env: Env, a: Address, o: Order)
    ensures Blame(env.(banned := env.banned + {a}), o) ==
            if o.owner == a || o.receiver == Some(a) then Some(BannedUser) else Blame(env, o)
    ensures env.banned == {} ==> Blame(env, o) != Some(BannedUser)
  {
    var env' := env.(banned := env.banned + {a});
    if o.owner != a && o.receiver != Some(a) {
      assert Banned(env', o) == Banned(env, o);
    }
  }

  /** More balance drops no order for lack of it, and changes nothing for orders with another fate. */
  lemma MoreBalanceKeeps(env: Env, balances: map<Query, nat>, o: Order)
    requires forall q | q in env.balances :: q in balances && balances[q] >= env.balances[q]
    ensures Blame(env, o) != Some(InsufficientBalance) ==> Blame(env.(balances := balances), o) == Blame(env, o)
  {
  }

  /** Passes the filters that come before the balances are looked at. */
  predicate ReachesBalanceFilter(env: Env, o: Order)
  {
    !env.disableBalanceFilter && !(Blame(env, o).Some? && Blame(env, o).value in {BannedUser, InvalidSignature,
                                                                                  UnsupportedToken})
  }

  /** Whose balance counts, and how much of it is needed. */
  lemma EnoughBalanceIff(env: Env, o: Order)
    requires ReachesBalanceFilter(env, o)
    requires o.receiver != Some(env.settlementContract) && !(env.disable1271BalanceFilter && o.eip1271)
    ensures
      var query := Query(o.owner, o.sellToken, o.sellSource, o.preInteractions);
      var balance := if query in env.balances then env.balances[query] else 0;
      var needed := o.sellAmount + o.feeAmount;
      && (!o.partiallyFillable && 0 < needed <= U256_MAX ==>
            (Blame(env, o) != Some(InsufficientBalance) <==> balance >= needed))
      && (o.partiallyFillable && needed > 0 ==>
            (Blame(env, o) != Some(InsufficientBalance) <==> balance > 0))
      && (!o.partiallyFillable && needed > U256_MAX ==> Blame(env, o) == Some(InsufficientBalance))
  {
  }

  /** Orders that pay into the settlement contract, and contract orders if so configured, need no balance. */
  lemma ExemptFromBalance(env: Env, o: Order)
    requires env.disableBalanceFilter || o.receiver == Some(env.settlementContract)
             || (env.disable1271BalanceFilter && o.eip1271)
    ensures Blame(env, o) != Some(InsufficientBalance)
  {
  }

  /** A pending pre-signature or a bad contract signature is dropped, unless contract signatures are not checked. */
  lemma SignatureIff(env: Env, o: Order)
    requires Blame(env, o) != Some(BannedUser)
    ensures !o.eip1271 ==> (Blame(env, o) == Some(InvalidSignature) <==> o.presignaturePending)
    ensures o.eip1271 && !o.presignaturePending && !env.disable1271SignatureFilter ==>
              (Blame(env, o) == Some(InvalidSignature) <==> !env.signatureValidates(o))
    ensures o.eip1271 && env.disable1271SignatureFilter ==> Blame(env, o) != Some(InvalidSignature)
  {
  }

  /** Both tokens must be known to be good, except in an order of one token. */
  lemma TokensIff(env: Env, o: Order)
    requires Blame(env, o) != Some(BannedUser) && Blame(env, o) != Some(InvalidSignature)
    ensures Blame(env, o) != Some(UnsupportedToken) <==>
            || o.sellToken == o.buyToken
            || (env.tokenIsGood(o.sellToken) == Some(true) && env.tokenIsGood(o.buyToken) == Some(true))
  {
  }

  /** Taking away the price of a token drops exactly the orders that trade it, if nothing else did before. */
  lemma UnpricedTokenDrops(env: Env, token: Address, o: Order)
    ensures Blame(env.(nativePrices := env.nativePrices - {token}), o) ==
            if (o.sellToken == token || o.buyToken == token)
               && (ReachesMarketFilter(env, o) || Blame(env, o).None?)
            then Some(MissingPrice) else Blame(env, o)
    ensures HasPrices(env.nativePrices, o) ==> Blame(env, o) != Some(MissingPrice)
  {
    var env' := env.(nativePrices := env.nativePrices - {token});
    if o.sellToken != token && o.buyToken != token && HasPrices(env.nativePrices, o) {
      assert HasPrices(env'.nativePrices, o);
      assert InMarket(WithWeth(env'), env.priceFactor, o) == InMarket(WithWeth(env), env.priceFactor, o);
    }
  }

  // -------------------------------------------------------------------------- the counter

  function Uids(orders: seq<Order>): set<OrderUid>
  {
    set o | o in orders :: o.uid
  }

  function CountOf(counts: map<Reason, int>, reason: Reason): int
  {
    if reason in counts then counts[reason] else 0
  }

  function AddCount(counts: map<Reason, int>, reason: Reason, n: int): map<Reason, int>
  {
    counts[reason := CountOf(counts, reason) + n]
  }

  /** Remaining orders and counted ones together. */
  ghost function Total(orders: map<OrderUid, OrderClass>, counts: map<Reason, int>): int
  {
    |orders| + Sum(counts)
  }

  lemma SizeWithout(orders: map<OrderUid, OrderClass>, gone: set<OrderUid>)
    requires gone <= orders.Keys
    ensures |orders - gone| == |orders| - |gone|
  {
    assert (orders - gone).Keys == orders.Keys - gone;
    assert |orders.Keys - gone| == |orders.Keys| - |gone|;
  }

  lemma SumAddCount(counts: map<Reason, int>, reason: Reason, n: int)
    ensures Sum(AddCount(counts, reason, n)) == Sum(counts) + n
  {
    if reason in counts {
      SumUpdate(counts, reason, counts[reason] + n);
    } else {
      SumInsert(counts, reason, n);
    }
  }

  lemma TotalKept(orders: map<OrderUid, OrderClass>, counts: map<Reason, int>, reason: Reason, gone: set<OrderUid>)
    requires gone <= orders.Keys
    ensures Total(orders - gone, AddCount(counts, reason, |gone|)) == Total(orders, counts)
  {
    SizeWithout(orders, gone);
    SumAddCount(counts, reason, |gone|);
  }

  function Members(uids: seq<OrderUid>): set<OrderUid>
  {
    set uid | uid in uids
  }

  lemma MembersExtended(uids: seq<OrderUid>, uid: OrderUid)
    ensures Members(uids + [uid]) == Members(uids) + {uid}
  {
  }

  /** Taking out one more uid counts it only if it was still there. */
  lemma OneMoreRemoved(keys: set<OrderUid>, seen: set<OrderUid>, uid: OrderUid)
    ensures |keys * (seen + {uid})| == |keys * seen| + if uid in keys && uid !in seen then 1 else 0
  {
    if uid in keys && uid !in seen {
      assert keys * (seen + {uid}) == keys * seen + {uid};
    } else {
      assert keys * (seen + {uid}) == keys * seen;
    }
  }

  lemma OneLess(orders: map<OrderUid, OrderClass>, seen: set<OrderUid>, uid: OrderUid)
    ensures orders - (seen + {uid}) == orders - seen - {uid}
    ensures uid !in orders - seen ==> orders - (seen + {uid}) == orders - seen
  {
  }

  lemma KeysKept(orders: map<OrderUid, OrderClass>, kept: set<OrderUid>)
    requires kept <= orders.Keys
    ensures (orders - (orders.Keys - kept)).Keys == kept
  {
  }

  class OrderFilterCounter {
    var orders: map<OrderUid, OrderClass>
    var counts: map<Reason, int>

    constructor (candidates: seq<Order>)
      ensures orders.Keys == Uids(candidates) && counts == map[]
    {
      orders := map uid | uid in Uids(candidates) :: ClassOf(candidates, uid);
      counts := map[];
    }

    /** Returns what was dropped since the last checkpoint. */
    method Checkpoint(reason: Reason, kept: seq<Order>) returns (removed: seq<OrderUid>)
      modifies this
      ensures Distinct(removed) && Members(removed) == old(orders).Keys - Uids(kept)
      ensures orders == old(orders) - (old(orders).Keys - Uids(kept))
      ensures counts == AddCount(old(counts), reason, |old(orders).Keys - Uids(kept)|)
      ensures Total(orders, counts) == old(Total(orders, counts))
    {
      var filtered := orders;
      for i := 0 to |kept|
        invariant filtered == orders - Uids(kept[..i])
      {
        assert Uids(kept[..i + 1]) == Uids(kept[..i]) + {kept[i].uid};
        filtered := filtered - {kept[i].uid};
      }
      assert kept[..|kept|] == kept;
      var gone := filtered.Keys;
      assert gone == orders.Keys - Uids(kept);
      TotalKept(orders, counts, reason, gone);
      counts := AddCount(counts, reason, |gone|);
      removed := Drop(gone);
    }

    /** Takes known orders out; `remove` finds every one of them. */
    method Drop(gone: set<OrderUid>) returns (removed: seq<OrderUid>)
      requires gone <= orders.Keys
      modifies this`orders
      ensures orders == old(orders) - gone
      ensures Distinct(removed) && Members(removed) == gone
    {
      removed := [];
      var left := gone;
      while left != {}
        invariant left <= gone && left <= orders.Keys && orders == old(orders) - (gone - left)
        invariant Distinct(removed) && Members(removed) == gone - left
      {
        var uid :| uid in left;
        assert uid in orders;
        orders := orders - {uid};
        MembersExtended(removed, uid);
        removed := removed + [uid];
        left := left - {uid};
      }
    }

    method CheckpointByInvalidOrders(reason: Reason, invalid: seq<OrderUid>)
      modifies this
      ensures orders == old(orders) - Members(invalid)
      ensures forall r :: CountOf(counts, r) ==
                CountOf(old(counts), r) + if r == reason then |old(orders).Keys * Members(invalid)| else 0
      ensures Total(orders, counts) == old(Total(orders, counts))
    {
      if invalid == [] {
        assert orders - Members(invalid) == orders;
        return;
      }
      ghost var gone := orders.Keys * Members(invalid);
      assert orders - Members(invalid) == orders - gone;
      TotalKept(orders, counts, reason, gone);
      var counter := RemoveKnown(invalid);
      counts := AddCount(counts, reason, counter);
    }

    method RemoveKnown(invalid: seq<OrderUid>) returns (counter: nat)
      modifies this`orders
      ensures orders == old(orders) - Members(invalid)
      ensures counter == |old(orders).Keys * Members(invalid)|
    {
      counter := 0;
      ghost var seen: set<OrderUid> := {};
      for i := 0 to |invalid|
        invariant seen == Members(invalid[..i])
        invariant orders == old(orders) - seen && counter == |old(orders).Keys * seen|
      {
        var uid := invalid[i];
        assert invalid[..i + 1] == invalid[..i] + [uid];
        MembersExtended(invalid[..i], uid);
        OneMoreRemoved(old(orders).Keys, seen, uid);
        OneLess(old(orders), seen, uid);
        seen := seen + {uid};
        if uid in orders {
          orders := orders - {uid};
          counter := counter + 1;
        }
      }
      assert invalid[..|invalid|] == invalid;
    }

    /** The last checkpoint catches what no other one has. */
    method Record(kept: seq<Order>) returns (removed: seq<OrderUid>)
      modifies this
      ensures Distinct(removed) && Members(removed) == old(orders).Keys - Uids(kept)
      ensures orders == old(orders) - (old(orders).Keys - Uids(kept))
      ensures counts == AddCount(old(counts), Other, |old(orders).Keys - Uids(kept)|)
      ensures Total(orders, counts) == old(Total(orders, counts))
    {
      removed := Checkpoint(Other, kept);
    }
  }

  function ClassOf(orders: seq<Order>, uid: OrderUid): OrderClass
    requires uid in Uids(orders)
  {
    if orders[|orders| - 1].uid == uid then orders[|orders| - 1].class_ else ClassOf(orders[..|orders| - 1], uid)
  }

  // -------------------------------------------------------------------------- the filters

  ghost predicate UidsDiffer(orders: seq<Order>)
  {
    forall i, j | 0 <= i < j < |orders| :: orders[i].uid != orders[j].uid
  }

  /** The uids of the orders that fail a condition. */
  method Find(orders: seq<Order>, bad: Order -> bool) returns (found: seq<OrderUid>)
    ensures Members(found) == set o | o in orders && bad(o) :: o.uid
  {
    found := [];
    for i := 0 to |orders|
      invariant Members(found) == set o | o in orders[..i] && bad(o) :: o.uid
    {
      assert orders[..i + 1] == orders[..i] + [orders[i]];
      if bad(orders[i]) {
        MembersExtended(found, orders[i].uid);
        found := found + [orders[i].uid];
      }
    }
    assert orders[..|orders|] == orders;
  }

  function NewestFirst(): Order -> int
  {
    (o: Order) => -o.created
  }

  /** Sorts newest first and keeps what the owner can pay for. */
  method OrdersWithBalance(env: Env, orders: seq<Order>) returns (kept: seq<Order>)
    requires UidsDiffer(orders)
    ensures UidsDiffer(kept) && forall o :: o in kept <==> o in orders && HasBalance(env, o)
    ensures SortedBy(kept, NewestFirst())
  {
    var sorted := SortBy(orders, NewestFirst());
    SortByPermutes(orders, NewestFirst());
    SortBySorts(orders, NewestFirst());
    PermutationUidsDiffer(orders, sorted);
    kept := Filter(sorted, IsSolvent(env));
    FilterKeeps(sorted, IsSolvent(env), NewestFirst());
  }

  /** What a filter leaves is in the same order and has different uids still. */
  lemma FilterKeeps(orders: seq<Order>, keep: Order -> bool, key: Order -> int)
    ensures SortedBy(orders, key) ==> SortedBy(Filter(orders, keep), key)
    ensures UidsDiffer(orders) ==> UidsDiffer(Filter(orders, keep))
  {
    if SortedBy(orders, key) { FilterSorted(orders, keep, key); }
    if UidsDiffer(orders) { FilterUidsDiffer(orders, keep); }
  }

  lemma {:induction false} FilterUidsDiffer(orders: seq<Order>, keep: Order -> bool)
    requires UidsDiffer(orders)
    ensures UidsDiffer(Filter(orders, keep))
  {
    if orders != [] {
      FilterUidsDiffer(orders[1..], keep);
      assert forall o | o in orders[1..] :: orders[0].uid != o.uid;
    }
  }

  lemma {:induction false} DifferingUidsCount(orders: seq<Order>)
    requires UidsDiffer(orders)
    ensures |Uids(orders)| == |orders|
  {
    if orders != [] {
      DifferingUidsCount(orders[1..]);
      assert orders == [orders[0]] + orders[1..];
      assert Uids(orders) == Uids(orders[1..]) + {orders[0].uid};
    }
  }

  lemma {:induction false} CountUidsAtMost(orders: seq<Order>)
    ensures |Uids(orders)| <= |orders|
  {
    if orders != [] {
      CountUidsAtMost(orders[1..]);
      assert orders == [orders[0]] + orders[1..];
      assert Uids(orders) == Uids(orders[1..]) + {orders[0].uid};
    }
  }

  lemma PermutationUidsDiffer(orders: seq<Order>, sorted: seq<Order>)
    requires UidsDiffer(orders) && |sorted| == |orders| && forall o :: o in sorted <==> o in orders
    ensures UidsDiffer(sorted)
  {
    DifferingUidsCount(orders);
    assert Uids(sorted) == Uids(orders);
    if i, j :| 0 <= i < j < |sorted| && sorted[i].uid == sorted[j].uid {
      var shorter := sorted[..j] + sorted[j + 1..];
      assert Uids(sorted) <= Uids(shorter) by {
        forall o | o in sorted
          ensures o.uid in Uids(shorter)
        {
          var k :| 0 <= k < |sorted| && sorted[k] == o;
          var at := if k == j then i else if k < j then k else k - 1;
          assert shorter[at].uid == o.uid && shorter[at] in shorter;
        }
      }
      CountUidsAtMost(shorter);
      SubsetSize(Uids(sorted), Uids(shorter));
    }
  }

  predicate Acceptable(prices: map<Address, nat>, factor: real, o: Order)
  {
    (o.class_.Limit? ==> HasPrices(prices, o)) && InMarket(prices, factor, o)
  }

  function IsAcceptable(prices: map<Address, nat>, factor: real): Order -> bool
  {
    (o: Order) => Acceptable(prices, factor, o)
  }

  predicate WorthSelling(prices: map<Address, nat>, factor: real, o: Order)
  {
    && HasPrices(prices, o)
    && var sell, buy := o.sellAmount * prices[o.sellToken], o.buyAmount * prices[o.buyToken];
       sell <= U256_MAX && buy <= U256_MAX && sell as real >= buy as real * factor
  }

  lemma AcceptableIff(prices: map<Address, nat>, factor: real, o: Order)
    ensures Acceptable(prices, factor, o) <==> (o.class_.Limit? ==> WorthSelling(prices, factor, o))
  {
  }

  lemma KeptIffWorthSelling(prices: map<Address, nat>, factor: real, orders: seq<Order>)
    ensures forall o :: o in Filter(orders, IsAcceptable(prices, factor)) <==>
                        o in orders && (o.class_.Limit? ==> WorthSelling(prices, factor, o))
  {
    forall o { AcceptableIff(prices, factor, o); }
  }

  /** Looking up the prices of a limit order cannot fail: only orders with prices get here. */
  method FilterMispricedLimitOrders(prices: map<Address, nat>, factor: real, orders: seq<Order>)
    returns (kept: seq<Order>)
    requires forall o | o in orders :: o.class_.Limit? ==> HasPrices(prices, o)
    ensures kept == Filter(orders, IsAcceptable(prices, factor))
    // what a limit order sells is worth at least `factor` times what it buys, and both values fit
    ensures forall o :: o in kept <==> o in orders && (o.class_.Limit? ==> WorthSelling(prices, factor, o))
  {
    var keep := IsAcceptable(prices, factor);
    kept := [];
    for i := 0 to |orders|
      invariant kept == Filter(orders[..i], keep)
    {
      assert orders[..i + 1] == orders[..i] + [orders[i]];
      FilterAppend(orders[..i], [orders[i]], keep);
      assert orders[i] in orders;
      if InMarket(prices, factor, orders[i]) {
        kept := kept + [orders[i]];
      }
    }
    assert orders[..|orders|] == orders;
    KeptIffWorthSelling(prices, factor, orders);
  }

  // --------------------------------------------------------------------- who is left when

  /** The place of a reason in the chain of filters. */
  function Position(reason: Reason): nat
  {
    match reason
    case BannedUser => 1
    case InvalidSignature => 2
    case UnsupportedToken => 3
    case InsufficientBalance => 4
    case DustOrder => 5
    case MissingPrice => 6
    case OutOfMarket => 7
    case Other => 8
  }

  predicate Survives(env: Env, o: Order, k: nat)
  {
    Blame(env, o).None? || Position(Blame(env, o).value) > k
  }

  /** `left` are the candidates that pass the first `k` filters. */
  ghost predicate AreSurvivors(env: Env, orders: seq<Order>, k: nat, left: seq<Order>)
  {
    UidsDiffer(left) && forall o :: o in left <==> o in orders && Survives(env, o, k)
  }

  ghost function Blamed(env: Env, orders: seq<Order>, reason: Reason): set<OrderUid>
  {
    set o | o in orders && Blame(env, o) == Some(reason) :: o.uid
  }

  lemma SameUidSameOrder(orders: seq<Order>, o: Order, p: Order)
    requires UidsDiffer(orders) && o in orders && p in orders && o.uid == p.uid
    ensures o == p
  {
    var i :| 0 <= i < |orders| && orders[i] == o;
    var j :| 0 <= j < |orders| && orders[j] == p;
    assert !(i < j) && !(j < i);
  }

  /** A filter drops exactly the orders it is to blame for. */
  lemma DroppedAreBlamed(env: Env, orders: seq<Order>, before: seq<Order>, after: seq<Order>, reason: Reason)
    requires UidsDiffer(orders)
    requires AreSurvivors(env, orders, Position(reason) - 1, before)
    requires AreSurvivors(env, orders, Position(reason), after)
    ensures Uids(before) - Uids(after) == Blamed(env, orders, reason)
  {
    forall o | o in before
      ensures o.uid in Uids(after) <==> Survives(env, o, Position(reason))
    {
      KeptIffSurvives(env, orders, after, Position(reason), o);
    }
    assert forall o | o in orders && Blame(env, o) == Some(reason) :: o in before && o !in after;
    assert forall o | o in before && !Survives(env, o, Position(reason)) :: Blame(env, o) == Some(reason);
  }

  lemma KeptIffSurvives(env: Env, orders: seq<Order>, after: seq<Order>, k: nat, o: Order)
    requires UidsDiffer(orders) && AreSurvivors(env, orders, k, after) && o in orders
    ensures o.uid in Uids(after) <==> Survives(env, o, k)
  {
    forall p | p in after && p.uid == o.uid
      ensures p == o
    {
      SameUidSameOrder(orders, o, p);
    }
  }

  lemma BlamedDisjoint(env: Env, orders: seq<Order>, a: Reason, b: Reason)
    requires UidsDiffer(orders) && a != b
    ensures Blamed(env, orders, a) !! Blamed(env, orders, b)
  {
    forall uid | uid in Blamed(env, orders, a)
      ensures uid !in Blamed(env, orders, b)
    {
      var o :| o in orders && Blame(env, o) == Some(a) && o.uid == uid;
      forall p | p in orders && p.uid == uid
        ensures p == o
      {
        SameUidSameOrder(orders, o, p);
      }
    }
  }

  lemma DistinctAppend(a: seq<OrderUid>, b: seq<OrderUid>)
    requires Distinct(a) && Distinct(b) && Members(a) !! Members(b)
    ensures Distinct(a + b) && Members(a + b) == Members(a) + Members(b)
  {
    forall i, j | 0 <= i < |a| && 0 <= j < |b|
      ensures a[i] != b[j]
    {
      assert a[i] in Members(a) && b[j] in Members(b);
    }
  }

  // ------------------------------------------------------------------------- the pipeline

  function IsBanned(env: Env): Order -> bool
  {
    (o: Order) => Banned(env, o)
  }

  function IsBadSignature(env: Env): Order -> bool
  {
    (o: Order) => BadSignature(env, o)
  }

  function IsBadToken(env: Env): Order -> bool
  {
    (o: Order) => BadToken(env, o)
  }

  function IsNotIn(invalid: set<OrderUid>): Order -> bool
  {
    (o: Order) => o.uid !in invalid
  }

  /** The counts of the first `k` filters are the numbers of orders they are to blame for. */
  ghost predicate Tallied(env: Env, orders: seq<Order>, k: nat, counts: map<Reason, int>)
  {
    forall r :: CountOf(counts, r) == if Position(r) <= k then |Blamed(env, orders, r)| else 0
  }

  /** Three independent checks of all candidates. */
  method FilterInvalidOrders(env: Env, orders: seq<Order>, counter: OrderFilterCounter)
    returns (left: seq<Order>, invalid: set<OrderUid>)
    requires UidsDiffer(orders) && counter.orders.Keys == Uids(orders) && counter.counts == map[]
    modifies counter
    ensures AreSurvivors(env, orders, 3, left) && counter.orders.Keys == Uids(left)
    ensures invalid == Blamed(env, orders, BannedUser) + Blamed(env, orders, InvalidSignature) +
                       Blamed(env, orders, UnsupportedToken)
    ensures Tallied(env, orders, 3, counter.counts)
    ensures Total(counter.orders, counter.counts) == old(Total(counter.orders, counter.counts))
  {
    var banned, badSignature, badToken := FindInvalidOrders(env, orders);
    CheckpointInvalid(counter, banned, badSignature, badToken);
    invalid := Members(banned) + Members(badSignature) + Members(badToken);
    left := Filter(orders, IsNotIn(invalid));
    InvalidTallied(env, orders, Members(banned), Members(badSignature), Members(badToken), counter.counts);
    InvalidDropped(env, orders, Members(banned), Members(badSignature), Members(badToken), left);
  }

  method FindInvalidOrders(env: Env, orders: seq<Order>)
    returns (banned: seq<OrderUid>, badSignature: seq<OrderUid>, badToken: seq<OrderUid>)
    ensures Members(banned) == Failing(orders, IsBanned(env))
    ensures Members(badSignature) == Failing(orders, IsBadSignature(env))
    ensures Members(badToken) == Failing(orders, IsBadToken(env))
  {
    banned := Find(orders, IsBanned(env));
    badSignature := Find(orders, IsBadSignature(env));
    badToken := Find(orders, IsBadToken(env));
  }

  /** Every uid is counted by the first of the three lists it is on. */
  ghost predicate InvalidCounts(uids: set<OrderUid>, banned: set<OrderUid>, badSignature: set<OrderUid>,
                                badToken: set<OrderUid>, counts: map<Reason, int>)
  {
    && CountOf(counts, BannedUser) == |uids * banned|
    && CountOf(counts, InvalidSignature) == |(uids - banned) * badSignature|
    && CountOf(counts, UnsupportedToken) == |(uids - banned - badSignature) * badToken|
    && forall r | Position(r) > 3 :: CountOf(counts, r) == 0
  }

  method CheckpointInvalid(counter: OrderFilterCounter, banned: seq<OrderUid>, badSignature: seq<OrderUid>,
                           badToken: seq<OrderUid>)
    requires counter.counts == map[]
    modifies counter
    ensures counter.orders.Keys ==
            old(counter.orders.Keys) - (Members(banned) + Members(badSignature) + Members(badToken))
    ensures InvalidCounts(old(counter.orders.Keys), Members(banned), Members(badSignature), Members(badToken),
                          counter.counts)
    ensures Total(counter.orders, counter.counts) == old(Total(counter.orders, counter.counts))
  {
    counter.CheckpointByInvalidOrders(BannedUser, banned);
    assert counter.orders.Keys == old(counter.orders.Keys) - Members(banned);
    counter.CheckpointByInvalidOrders(InvalidSignature, badSignature);
    assert counter.orders.Keys == old(counter.orders.Keys) - Members(banned) - Members(badSignature);
    counter.CheckpointByInvalidOrders(UnsupportedToken, badToken);
  }

  lemma KeptSurvive(env: Env, orders: seq<Order>, invalid: set<OrderUid>, left: seq<Order>)
    requires UidsDiffer(orders) && left == Filter(orders, IsNotIn(invalid))
    requires forall o | o in orders :: o.uid in invalid <==> !Survives(env, o, 3)
    ensures AreSurvivors(env, orders, 3, left) && Uids(left) == Uids(orders) - invalid
  {
    FilterKeeps(orders, IsNotIn(invalid), NewestFirst());
  }

  ghost function Failing(orders: seq<Order>, bad: Order -> bool): set<OrderUid>
  {
    set o | o in orders && bad(o) :: o.uid
  }

  lemma FailingIff(orders: seq<Order>, bad: Order -> bool, o: Order)
    requires UidsDiffer(orders) && o in orders
    ensures o.uid in Failing(orders, bad) <==> bad(o)
  {
    forall p | p in orders && p.uid == o.uid
      ensures p == o
    {
      SameUidSameOrder(orders, o, p);
    }
  }

  lemma InvalidAreBlamed(env: Env, orders: seq<Order>, banned: set<OrderUid>, badSignature: set<OrderUid>,
                         badToken: set<OrderUid>)
    requires UidsDiffer(orders)
    requires banned == Failing(orders, IsBanned(env))
    requires badSignature == Failing(orders, IsBadSignature(env))
    requires badToken == Failing(orders, IsBadToken(env))
    ensures Uids(orders) * banned == Blamed(env, orders, BannedUser)
    ensures (Uids(orders) - banned) * badSignature == Blamed(env, orders, InvalidSignature)
    ensures (Uids(orders) - banned - badSignature) * badToken == Blamed(env, orders, UnsupportedToken)
    ensures forall o | o in orders :: o.uid in banned + badSignature + badToken <==> !Survives(env, o, 3)
    ensures banned + badSignature + badToken == Blamed(env, orders, BannedUser) +
              Blamed(env, orders, InvalidSignature) + Blamed(env, orders, UnsupportedToken)
  {
    forall o | o in orders
      ensures o.uid in banned <==> Banned(env, o)
      ensures o.uid in badSignature <==> BadSignature(env, o)
      ensures o.uid in badToken <==> BadToken(env, o)
    {
      FailingIff(orders, IsBanned(env), o);
      FailingIff(orders, IsBadSignature(env), o);
      FailingIff(orders, IsBadToken(env), o);
    }
  }

  lemma InvalidTallied(env: Env, orders: seq<Order>, banned: set<OrderUid>, badSignature: set<OrderUid>,
                       badToken: set<OrderUid>, counts: map<Reason, int>)
    requires UidsDiffer(orders) && InvalidCounts(Uids(orders), banned, badSignature, badToken, counts)
    requires banned == Failing(orders, IsBanned(env))
    requires badSignature == Failing(orders, IsBadSignature(env))
    requires badToken == Failing(orders, IsBadToken(env))
    ensures Tallied(env, orders, 3, counts)
  {
    InvalidAreBlamed(env, orders, banned, badSignature, badToken);
    forall r
      ensures CountOf(counts, r) == if Position(r) <= 3 then |Blamed(env, orders, r)| else 0
    {
      match r
      case BannedUser =>
      case InvalidSignature =>
      case UnsupportedToken =>
      case _ =>
    }
  }

  lemma InvalidDropped(env: Env, orders: seq<Order>, banned: set<OrderUid>, badSignature: set<OrderUid>,
                       badToken: set<OrderUid>, left: seq<Order>)
    requires UidsDiffer(orders) && left == Filter(orders, IsNotIn(banned + badSignature + badToken))
    requires banned == Failing(orders, IsBanned(env))
    requires badSignature == Failing(orders, IsBadSignature(env))
    requires badToken == Failing(orders, IsBadToken(env))
    ensures AreSurvivors(env, orders, 3, left) && Uids(left) == Uids(orders) - (banned + badSignature + badToken)
    ensures banned + badSignature + badToken == Blamed(env, orders, BannedUser) +
              Blamed(env, orders, InvalidSignature) + Blamed(env, orders, UnsupportedToken)
  {
    InvalidAreBlamed(env, orders, banned, badSignature, badToken);
    KeptSurvive(env, orders, banned + badSignature + badToken, left);
  }

  lemma TalliedStep(env: Env, orders: seq<Order>, counts: map<Reason, int>, reason: Reason)
    requires Tallied(env, orders, Position(reason) - 1, counts)
    ensures Tallied(env, orders, Position(reason), AddCount(counts, reason, |Blamed(env, orders, reason)|))
  {
    var counts' := AddCount(counts, reason, |Blamed(env, orders, reason)|);
    assert CountOf(counts, reason) == 0;
    forall r
      ensures CountOf(counts', r) == if Position(r) <= Position(reason) then |Blamed(env, orders, r)| else 0
    {
      assert r != reason ==> CountOf(counts', r) == CountOf(counts, r);
      assert r != reason ==> Position(r) != Position(reason);
    }
  }

  /** A checkpoint after a filter: what it removes are the orders that filter is to blame for. */
  method CheckpointFilter(ghost env: Env, ghost orders: seq<Order>, counter: OrderFilterCounter,
                          ghost before: seq<Order>, after: seq<Order>, reason: Reason) returns (removed: seq<OrderUid>)
    requires Done(env, orders, Position(reason) - 1, before, counter.orders.Keys, counter.counts)
    requires AreSurvivors(env, orders, Position(reason), after)
    modifies counter
    ensures Done(env, orders, Position(reason), after, counter.orders.Keys, counter.counts)
    ensures Distinct(removed) && Members(removed) == Blamed(env, orders, reason)
    ensures Total(counter.orders, counter.counts) == old(Total(counter.orders, counter.counts))
  {
    FilterDone(env, orders, before, after, counter.counts, reason);
    KeysKept(counter.orders, Uids(after));
    removed := counter.Checkpoint(reason, after);
  }

  lemma FilterDone(env: Env, orders: seq<Order>, before: seq<Order>, after: seq<Order>, counts: map<Reason, int>,
                   reason: Reason)
    requires Done(env, orders, Position(reason) - 1, before, Uids(before), counts)
    requires AreSurvivors(env, orders, Position(reason), after)
    ensures Uids(before) - Uids(after) == Blamed(env, orders, reason) && Uids(after) <= Uids(before)
    ensures Done(env, orders, Position(reason), after, Uids(after),
                 AddCount(counts, reason, |Blamed(env, orders, reason)|))
  {
    DroppedAreBlamed(env, orders, before, after, reason);
    TalliedStep(env, orders, counts, reason);
    assert forall o | o in after :: o in before;
  }

  lemma SkippedFilters(env: Env, orders: seq<Order>, left: seq<Order>, counts: map<Reason, int>)
    requires env.disableBalanceFilter && AreSurvivors(env, orders, 3, left) && Tallied(env, orders, 3, counts)
    ensures AreSurvivors(env, orders, 5, left) && Tallied(env, orders, 5, counts)
    ensures Blamed(env, orders, InsufficientBalance) == {} && Blamed(env, orders, DustOrder) == {}
  {
    forall o
      ensures Survives(env, o, 3) == Survives(env, o, 5)
    {
    }
    assert Blamed(env, orders, InsufficientBalance) == {} && Blamed(env, orders, DustOrder) == {};
    forall r
      ensures CountOf(counts, r) == if Position(r) <= 5 then |Blamed(env, orders, r)| else 0
    {
      assert 3 < Position(r) <= 5 ==> r == InsufficientBalance || r == DustOrder;
    }
  }

  function IsSolvent(env: Env): Order -> bool
  {
    (o: Order) => HasBalance(env, o)
  }

  function IsNotDust(env: Env): Order -> bool
  {
    (o: Order) => !env.dust(o)
  }

  /** A filter that drops exactly what fails its condition leads from one list of survivors to the next. */
  lemma NextSurvivors(env: Env, orders: seq<Order>, k: nat, before: seq<Order>, after: seq<Order>, pass: Order -> bool)
    requires AreSurvivors(env, orders, k, before) && UidsDiffer(after)
    requires forall o :: o in after <==> o in before && pass(o)
    requires forall o | Survives(env, o, k) :: pass(o) <==> Survives(env, o, k + 1)
    ensures AreSurvivors(env, orders, k + 1, after)
  {
  }

  lemma ConditionsDecide(env: Env, o: Order)
    ensures !env.disableBalanceFilter && Survives(env, o, 3) ==> (HasBalance(env, o) <==> Survives(env, o, 4))
    ensures !env.disableBalanceFilter && Survives(env, o, 4) ==> (!env.dust(o) <==> Survives(env, o, 5))
    ensures Survives(env, o, 5) ==> (HasPrices(env.nativePrices, o) <==> Survives(env, o, 6))
    ensures Survives(env, o, 6) ==> HasPrices(WithWeth(env), o)
    ensures Survives(env, o, 6) ==> (Acceptable(WithWeth(env), env.priceFactor, o) <==> Survives(env, o, 7))
  {
  }

  lemma SolventSurvive(env: Env, orders: seq<Order>, before: seq<Order>, after: seq<Order>)
    requires !env.disableBalanceFilter && AreSurvivors(env, orders, 3, before) && UidsDiffer(after)
    requires forall o :: o in after <==> o in before && HasBalance(env, o)
    ensures AreSurvivors(env, orders, 4, after)
  {
    forall o { ConditionsDecide(env, o); }
    NextSurvivors(env, orders, 3, before, after, IsSolvent(env));
  }

  lemma NotDustSurvive(env: Env, orders: seq<Order>, before: seq<Order>, after: seq<Order>)
    requires !env.disableBalanceFilter && AreSurvivors(env, orders, 4, before)
    requires after == Filter(before, IsNotDust(env))
    ensures AreSurvivors(env, orders, 5, after)
  {
    forall o { ConditionsDecide(env, o); }
    FilterKeeps(before, IsNotDust(env), NewestFirst());
    NextSurvivors(env, orders, 4, before, after, IsNotDust(env));
  }

  lemma PricedSurvive(env: Env, orders: seq<Order>, before: seq<Order>, after: seq<Order>)
    requires AreSurvivors(env, orders, 5, before) && after == Filter(before, IsPriced(env))
    ensures AreSurvivors(env, orders, 6, after) && forall o | o in after :: HasPrices(WithWeth(env), o)
    ensures SortedBy(before, NewestFirst()) ==> SortedBy(after, NewestFirst())
  {
    forall o { ConditionsDecide(env, o); }
    FilterKeeps(before, IsPriced(env), NewestFirst());
    NextSurvivors(env, orders, 5, before, after, IsPriced(env));
  }

  lemma InMarketSurvive(env: Env, orders: seq<Order>, before: seq<Order>, after: seq<Order>)
    requires AreSurvivors(env, orders, 6, before)
    requires after == Filter(before, IsAcceptable(WithWeth(env), env.priceFactor))
    ensures AreSurvivors(env, orders, 7, after)
    ensures SortedBy(before, NewestFirst()) ==> SortedBy(after, NewestFirst())
  {
    forall o { ConditionsDecide(env, o); }
    FilterKeeps(before, IsAcceptable(WithWeth(env), env.priceFactor), NewestFirst());
    NextSurvivors(env, orders, 6, before, after, IsAcceptable(WithWeth(env), env.priceFactor));
  }

  /** The first `k` filters are done: who is left, and what the counter knows. */
  ghost predicate Done(env: Env, orders: seq<Order>, k: nat, left: seq<Order>, uids: set<OrderUid>,
                       counts: map<Reason, int>)
  {
    UidsDiffer(orders) && AreSurvivors(env, orders, k, left) && uids == Uids(left) && Tallied(env, orders, k, counts)
  }

  /** A filter with its checkpoint. */
  method DropInsolvent(env: Env, ghost orders: seq<Order>, counter: OrderFilterCounter, before: seq<Order>)
    returns (left: seq<Order>, removed: seq<OrderUid>)
    requires !env.disableBalanceFilter && Done(env, orders, 3, before, counter.orders.Keys, counter.counts)
    modifies counter
    ensures Done(env, orders, 4, left, counter.orders.Keys, counter.counts) && SortedBy(left, NewestFirst())
    ensures Distinct(removed) && Members(removed) == Blamed(env, orders, InsufficientBalance)
    ensures Total(counter.orders, counter.counts) == old(Total(counter.orders, counter.counts))
  {
    left := OrdersWithBalance(env, before);
    SolventSurvive(env, orders, before, left);
    removed := CheckpointFilter(env, orders, counter, before, left, InsufficientBalance);
  }

  method DropDust(env: Env, ghost orders: seq<Order>, counter: OrderFilterCounter, before: seq<Order>)
    returns (left: seq<Order>, removed: seq<OrderUid>)
    requires !env.disableBalanceFilter && Done(env, orders, 4, before, counter.orders.Keys, counter.counts)
    modifies counter
    ensures Done(env, orders, 5, left, counter.orders.Keys, counter.counts)
    ensures Distinct(removed) && Members(removed) == Blamed(env, orders, DustOrder)
    ensures Total(counter.orders, counter.counts) == old(Total(counter.orders, counter.counts))
    ensures SortedBy(before, NewestFirst()) ==> SortedBy(left, NewestFirst())
  {
    left := Filter(before, IsNotDust(env));
    NotDustSurvive(env, orders, before, left);
    FilterKeeps(before, IsNotDust(env), NewestFirst());
    removed := CheckpointFilter(env, orders, counter, before, left, DustOrder);
  }

  function IsPriced(env: Env): Order -> bool
  {
    (o: Order) => HasPrices(env.nativePrices, o)
  }

  method DropUnpriced(env: Env, ghost orders: seq<Order>, counter: OrderFilterCounter, before: seq<Order>)
    returns (left: seq<Order>, removed: seq<OrderUid>)
    requires Done(env, orders, 5, before, counter.orders.Keys, counter.counts)
    modifies counter
    ensures Done(env, orders, 6, left, counter.orders.Keys, counter.counts)
    ensures Distinct(removed) && Members(removed) == Blamed(env, orders, MissingPrice)
    ensures Total(counter.orders, counter.counts) == old(Total(counter.orders, counter.counts))
    ensures SortedBy(before, NewestFirst()) ==> SortedBy(left, NewestFirst())
    ensures forall o | o in left :: HasPrices(WithWeth(env), o)
  {
    left := Filter(before, IsPriced(env));
    PricedSurvive(env, orders, before, left);
    removed := CheckpointFilter(env, orders, counter, before, left, MissingPrice);
  }

  method DropMispriced(env: Env, ghost orders: seq<Order>, counter: OrderFilterCounter, before: seq<Order>)
    returns (left: seq<Order>, removed: seq<OrderUid>)
    requires Done(env, orders, 6, before, counter.orders.Keys, counter.counts)
    requires forall o | o in before :: HasPrices(WithWeth(env), o)
    modifies counter
    ensures Done(env, orders, 7, left, counter.orders.Keys, counter.counts)
    ensures Distinct(removed) && Members(removed) == Blamed(env, orders, OutOfMarket)
    ensures Total(counter.orders, counter.counts) == old(Total(counter.orders, counter.counts))
    ensures SortedBy(before, NewestFirst()) ==> SortedBy(left, NewestFirst())
  {
    left := KeepInMarket(env, orders, before);
    removed := CheckpointFilter(env, orders, counter, before, left, OutOfMarket);
  }

  method KeepInMarket(env: Env, ghost orders: seq<Order>, before: seq<Order>) returns (left: seq<Order>)
    requires AreSurvivors(env, orders, 6, before) && forall o | o in before :: HasPrices(WithWeth(env), o)
    ensures AreSurvivors(env, orders, 7, left)
    ensures SortedBy(before, NewestFirst()) ==> SortedBy(left, NewestFirst())
  {
    left := FilterMispricedLimitOrders(WithWeth(env), env.priceFactor, before);
    InMarketSurvive(env, orders, before, left);
  }

  /** The two filters that look at balances, unless they are switched off. */
  method FilterByBalance(env: Env, ghost orders: seq<Order>, counter: OrderFilterCounter, before: seq<Order>)
    returns (left: seq<Order>, broke: set<OrderUid>, dusty: seq<OrderUid>)
    requires Done(env, orders, 3, before, counter.orders.Keys, counter.counts)
    modifies counter
    ensures Done(env, orders, 5, left, counter.orders.Keys, counter.counts)
    ensures broke == Blamed(env, orders, InsufficientBalance)
    ensures Distinct(dusty) && Members(dusty) == Blamed(env, orders, DustOrder)
    ensures Total(counter.orders, counter.counts) == old(Total(counter.orders, counter.counts))
    ensures !env.disableBalanceFilter ==> SortedBy(left, NewestFirst())
  {
    if env.disableBalanceFilter {
      SkippedFilters(env, orders, before, counter.counts);
      return before, {}, [];
    }
    var removed;
    left, removed := DropInsolvent(env, orders, counter, before);
    broke := Members(removed);
    left, dusty := DropDust(env, orders, counter, left);
  }

  /** The two filters that look at prices. */
  method FilterByPrice(env: Env, ghost orders: seq<Order>, counter: OrderFilterCounter, before: seq<Order>)
    returns (left: seq<Order>, unpriced: seq<OrderUid>, mispriced: seq<OrderUid>)
    requires Done(env, orders, 5, before, counter.orders.Keys, counter.counts)
    modifies counter
    ensures Done(env, orders, 7, left, counter.orders.Keys, counter.counts)
    ensures Distinct(unpriced) && Members(unpriced) == Blamed(env, orders, MissingPrice)
    ensures Distinct(mispriced) && Members(mispriced) == Blamed(env, orders, OutOfMarket)
    ensures Total(counter.orders, counter.counts) == old(Total(counter.orders, counter.counts))
    ensures SortedBy(before, NewestFirst()) ==> SortedBy(left, NewestFirst())
  {
    left, unpriced := DropUnpriced(env, orders, counter, before);
    left, mispriced := DropMispriced(env, orders, counter, left);
  }

  method RunFilters(env: Env, orders: seq<Order>, counter: OrderFilterCounter)
    returns (left: seq<Order>, invalid: set<OrderUid>, filtered: seq<OrderUid>)
    requires UidsDiffer(orders) && counter.orders.Keys == Uids(orders) && counter.counts == map[]
    modifies counter
    ensures Done(env, orders, 7, left, counter.orders.Keys, counter.counts)
    ensures invalid == Blamed(env, orders, BannedUser) + Blamed(env, orders, InvalidSignature) +
                       Blamed(env, orders, UnsupportedToken) + Blamed(env, orders, InsufficientBalance)
    ensures Members(filtered) == Blamed(env, orders, DustOrder) + Blamed(env, orders, MissingPrice) +
                                 Blamed(env, orders, OutOfMarket)
    ensures Distinct(filtered)
    ensures Total(counter.orders, counter.counts) == old(Total(counter.orders, counter.counts))
    ensures !env.disableBalanceFilter ==> SortedBy(left, NewestFirst())
  {
    var broke, dusty, unpriced, mispriced;
    left, invalid := FilterInvalidOrders(env, orders, counter);
    left, broke, dusty := FilterByBalance(env, orders, counter, left);
    left, unpriced, mispriced := FilterByPrice(env, orders, counter, left);
    invalid := invalid + broke;
    filtered := dusty + unpriced + mispriced;
    FilteredDistinct(env, orders, dusty, unpriced, mispriced);
  }

  datatype Outcome = Outcome(
    auction: seq<Order>,
    invalid: set<OrderUid>,
    filtered: seq<OrderUid>,
    other: seq<OrderUid>,
    counts: map<Reason, int>)

  /**
   Every candidate ends in the auction, among the invalid orders or among the filtered ones, and it is
   the first filter it fails that decides where. Nothing is left for the catch-all checkpoint.
   */
  method Update(env: Env, orders: seq<Order>) returns (r: Outcome)
    requires UidsDiffer(orders)
    ensures Partitions(Uids(orders), Uids(r.auction), r.invalid, Members(r.filtered))
    ensures UidsDiffer(r.auction) && forall o :: o in r.auction <==> o in orders && Blame(env, o).None?
    ensures r.invalid == Blamed(env, orders, BannedUser) + Blamed(env, orders, InvalidSignature) +
                         Blamed(env, orders, UnsupportedToken) + Blamed(env, orders, InsufficientBalance)
    ensures Members(r.filtered) == Blamed(env, orders, DustOrder) + Blamed(env, orders, MissingPrice) +
                                   Blamed(env, orders, OutOfMarket)
    ensures Distinct(r.filtered) && r.other == []
    ensures forall reason :: CountOf(r.counts, reason) == |Blamed(env, orders, reason)|
    ensures |r.auction| + Sum(r.counts) == |orders|
    ensures !env.disableBalanceFilter ==> SortedBy(r.auction, NewestFirst())
  {
    var counter := new OrderFilterCounter(orders);
    DifferingUidsCount(orders);
    assert Total(counter.orders, counter.counts) == |orders|;
    var left, invalid, filtered := RunFilters(env, orders, counter);
    FinalSurvivors(env, orders, left);
    var other := RecordNothing(env, orders, counter, left);
    assert filtered + other == filtered;
    EveryOrderInOnePlace(env, orders, left, invalid, Members(filtered));
    r := Outcome(left, invalid, filtered + other, other, counter.counts);
  }

  ghost predicate Partitions(all: set<OrderUid>, a: set<OrderUid>, b: set<OrderUid>, c: set<OrderUid>)
  {
    all == a + b + c && a !! b !! c
  }

  lemma EveryOrderInOnePlace(env: Env, orders: seq<Order>, left: seq<Order>, invalid: set<OrderUid>,
                             filtered: set<OrderUid>)
    requires UidsDiffer(orders) && forall o :: o in left <==> o in orders && Blame(env, o).None?
    requires invalid == Blamed(env, orders, BannedUser) + Blamed(env, orders, InvalidSignature) +
                        Blamed(env, orders, UnsupportedToken) + Blamed(env, orders, InsufficientBalance)
    requires filtered == Blamed(env, orders, DustOrder) + Blamed(env, orders, MissingPrice) +
                         Blamed(env, orders, OutOfMarket)
    ensures Partitions(Uids(orders), Uids(left), invalid, filtered)
  {
    forall o | o in orders
      ensures o.uid in Uids(left) <==> Blame(env, o).None?
      ensures forall reason :: o.uid in Blamed(env, orders, reason) <==> Blame(env, o) == Some(reason)
    {
      forall p | p in orders && p.uid == o.uid
        ensures p == o
      {
        SameUidSameOrder(orders, o, p);
      }
    }
    forall o | o in orders
      ensures o.uid in Uids(left) + invalid + filtered
    {
      if Blame(env, o).Some? {
        assert o.uid in Blamed(env, orders, Blame(env, o).value);
      }
    }
  }

  /** All filters have a checkpoint, so the last one finds nothing. */
  method RecordNothing(ghost env: Env, ghost orders: seq<Order>, counter: OrderFilterCounter, left: seq<Order>)
    returns (other: seq<OrderUid>)
    requires Done(env, orders, 7, left, counter.orders.Keys, counter.counts)
    modifies counter
    ensures other == []
    ensures forall reason :: CountOf(counter.counts, reason) == |Blamed(env, orders, reason)|
    ensures |left| + Sum(counter.counts) == old(Total(counter.orders, counter.counts))
  {
    assert counter.orders.Keys - Uids(left) == {};
    AllTallied(env, orders, counter.counts);
    other := counter.Record(left);
    NoMembers(other);
    DifferingUidsCount(left);
    assert counter.orders.Keys == Uids(left);
  }

  lemma AllTallied(env: Env, orders: seq<Order>, counts: map<Reason, int>)
    requires Tallied(env, orders, 7, counts)
    ensures forall reason :: CountOf(AddCount(counts, Other, 0), reason) == |Blamed(env, orders, reason)|
  {
    assert Blamed(env, orders, Other) == {};
    forall reason
      ensures CountOf(AddCount(counts, Other, 0), reason) == |Blamed(env, orders, reason)|
    {
      assert CountOf(counts, reason) == if Position(reason) <= 7 then |Blamed(env, orders, reason)| else 0;
    }
  }

  lemma FinalSurvivors(env: Env, orders: seq<Order>, left: seq<Order>)
    requires AreSurvivors(env, orders, 7, left)
    ensures forall o :: o in left <==> o in orders && Blame(env, o).None?
  {
    forall o
      ensures Survives(env, o, 7) <==> Blame(env, o).None?
    {
    }
  }

  lemma FilteredDistinct(env: Env, orders: seq<Order>, dusty: seq<OrderUid>, unpriced: seq<OrderUid>,
                         mispriced: seq<OrderUid>)
    requires UidsDiffer(orders) && Distinct(dusty) && Distinct(unpriced) && Distinct(mispriced)
    requires Members(dusty) == Blamed(env, orders, DustOrder)
    requires Members(unpriced) == Blamed(env, orders, MissingPrice)
    requires Members(mispriced) == Blamed(env, orders, OutOfMarket)
    ensures Distinct(dusty + unpriced + mispriced)
    ensures Members(dusty + unpriced + mispriced) == Members(dusty) + Members(unpriced) + Members(mispriced)
  {
    BlamedDisjoint(env, orders, DustOrder, MissingPrice);
    BlamedDisjoint(env, orders, DustOrder, OutOfMarket);
    BlamedDisjoint(env, orders, MissingPrice, OutOfMarket);
    DistinctAppend(dusty, unpriced);
    DistinctAppend(dusty + unpriced, mispriced);
  }

  lemma NoMembers(uids: seq<OrderUid>)
    ensures Members(uids) == {} <==> uids == []
  {
    assert uids != [] ==> uids[0] in Members(uids);
  }
}
