/** Which missing token prices to fetch first: those of recent orders, then the most used ones. */
module PricePriority {
  import opened Common
  import opened Sequences
  import opened OrderPipeline

  /** Half an hour, in the microseconds of a timestamp. */
  const MARKET_ORDER_AGE := 30 * 60 * 1_000_000

  predicate Recent(now: int, o: Order)
  {
    now - o.created <= MARKET_ORDER_AGE
  }

  function IsRecent(now: int): Order -> bool
  {
    (o: Order) => Recent(now, o)
  }

  function IsOld(now: int): Order -> bool
  {
    (o: Order) => !Recent(now, o)
  }

  function TokensOf(orders: seq<Order>): seq<Address>
  {
    if orders == [] then []
    else TokensOf(orders[..|orders| - 1]) + [orders[|orders| - 1].sellToken, orders[|orders| - 1].buyToken]
  }

  /** An ordered set: what is already in it keeps its place. */
  function Extend(tokens: seq<Address>, more: seq<Address>): seq<Address>
  {
    if more == [] then tokens
    else
      var before, last := Extend(tokens, more[..|more| - 1]), more[|more| - 1];
      if last in before then before else before + [last]
  }

  /** Each token once, in order of first appearance. */
  function Deduplicated(tokens: seq<Address>): seq<Address>
  {
    Extend([], tokens)
  }

  lemma {:induction false} ExtendAppend(tokens: seq<Address>, a: seq<Address>, b: seq<Address>)
    ensures Extend(tokens, a + b) == Extend(Extend(tokens, a), b)
    decreases |b|
  {
    if b == [] {
      assert a + b == a;
    } else {
      assert (a + b)[..|a + b| - 1] == a + b[..|b| - 1];
      ExtendAppend(tokens, a, b[..|b| - 1]);
    }
  }

  lemma {:induction false} ExtendMembers(tokens: seq<Address>, more: seq<Address>)
    requires Distinct(tokens)
    ensures Distinct(Extend(tokens, more)) && tokens <= Extend(tokens, more)
    ensures forall t :: t in Extend(tokens, more) <==> t in tokens || t in more
  {
    if more != [] {
      ExtendMembers(tokens, more[..|more| - 1]);
      assert more == more[..|more| - 1] + [more[|more| - 1]];
    }
  }

  function FirstIndex(tokens: seq<Address>, t: Address): (i: nat)
    requires t in tokens
    ensures i < |tokens| && tokens[i] == t && t !in tokens[..i]
  {
    var before := tokens[..|tokens| - 1];
    if t in before then
      var i := FirstIndex(before, t);
      assert tokens[..i] == before[..i];
      i
    else
      assert tokens == before + [tokens[|tokens| - 1]];
      |tokens| - 1
  }

  /** The order is that of first appearance. */
  lemma {:induction false} DeduplicatedInOrder(tokens: seq<Address>, i: nat, j: nat)
    requires i < j < |Deduplicated(tokens)|
    ensures Deduplicated(tokens)[i] in tokens && Deduplicated(tokens)[j] in tokens
    ensures FirstIndex(tokens, Deduplicated(tokens)[i]) < FirstIndex(tokens, Deduplicated(tokens)[j])
  {
    var r := Deduplicated(tokens);
    ExtendMembers([], tokens);
    assert r[i] in r && r[j] in r;
    var before, last := tokens[..|tokens| - 1], tokens[|tokens| - 1];
    ExtendMembers([], before);
    var r' := Deduplicated(before);
    if j < |r'| {
      DeduplicatedInOrder(before, i, j);
    } else {
      assert r[i] == r'[i] && r'[i] in r' && r[j] == last && last !in r';
    }
  }

  /** Adding different tokens appends those that are new. */
  lemma {:induction false} ExtendIsFilter(tokens: seq<Address>, more: seq<Address>)
    requires Distinct(tokens) && Distinct(more)
    ensures Extend(tokens, more) == tokens + Filter(more, IsNew(tokens))
  {
    if more != [] {
      var before, last := more[..|more| - 1], more[|more| - 1];
      ExtendIsFilter(tokens, before);
      assert more == before + [last];
      FilterSnoc(before, last, IsNew(tokens));
      assert last !in before;
      assert last in tokens + Filter(before, IsNew(tokens)) <==> last in tokens;
    }
  }

  function IsNew(tokens: seq<Address>): Address -> bool
  {
    (t: Address) => t !in tokens
  }

  /** How often a token is used. */
  function Uses(tokens: seq<Address>, t: Address): nat
  {
    multiset(tokens)[t]
  }

  function MostUsedFirst(tokens: seq<Address>): Address -> int
  {
    (t: Address) => 0 - Uses(tokens, t) as int
  }

  lemma TokensExtended(orders: seq<Order>, keep: Order -> bool, i: nat)
    requires i < |orders|
    ensures TokensOf(Filter(orders[..i + 1], keep)) == TokensOf(Filter(orders[..i], keep)) +
              if keep(orders[i]) then [orders[i].sellToken, orders[i].buyToken] else []
  {
    assert orders[..i + 1] == orders[..i] + [orders[i]];
    FilterAppend(orders[..i], [orders[i]], keep);
    var before := Filter(orders[..i], keep);
    if keep(orders[i]) {
      assert (before + [orders[i]])[..|before|] == before;
    } else {
      assert before + [] == before;
    }
  }

  function Increment(counts: map<Address, nat>, t: Address): map<Address, nat>
  {
    counts[t := (if t in counts then counts[t] else 0) + 1]
  }

  ghost predicate CountsUses(counts: map<Address, nat>, tokens: seq<Address>)
  {
    forall t :: (t in counts <==> t in tokens) && (t in counts ==> counts[t] == Uses(tokens, t))
  }

  lemma IncrementCounts(counts: map<Address, nat>, tokens: seq<Address>, t: Address)
    requires CountsUses(counts, tokens)
    ensures CountsUses(Increment(counts, t), tokens + [t])
  {
    assert t !in tokens ==> t !in multiset(tokens);
  }

  lemma CountBoth(counts: map<Address, nat>, tokens: seq<Address>, a: Address, b: Address)
    requires CountsUses(counts, tokens)
    ensures CountsUses(Increment(Increment(counts, a), b), tokens + [a, b])
  {
    IncrementCounts(counts, tokens, a);
    IncrementCounts(Increment(counts, a), tokens + [a], b);
    assert tokens + [a] + [b] == tokens + [a, b];
  }

  ghost function TokensWhere(orders: seq<Order>, keep: Order -> bool): seq<Address>
  {
    TokensOf(Filter(orders, keep))
  }

  /** What an order adds to the tokens of recent and of old orders. */
  lemma OrderAdds(now: int, sorted: seq<Order>, i: nat)
    requires i < |sorted|
    ensures
      var o := sorted[i];
      var newer, older := TokensWhere(sorted[..i], IsRecent(now)), TokensWhere(sorted[..i], IsOld(now));
      var newer', older' := TokensWhere(sorted[..i + 1], IsRecent(now)), TokensWhere(sorted[..i + 1], IsOld(now));
      if Recent(now, o) then newer' == newer + [o.sellToken, o.buyToken] && older' == older
      else newer' == newer && older' == older + [o.sellToken, o.buyToken]
  {
    TokensExtended(sorted, IsRecent(now), i);
    TokensExtended(sorted, IsOld(now), i);
  }

  /** One pass over the orders, newest first. */
  method SplitTokens(now: int, sorted: seq<Order>) returns (recent: seq<Address>, counts: map<Address, nat>)
    ensures recent == Deduplicated(TokensOf(Filter(sorted, IsRecent(now))))
    ensures CountsUses(counts, TokensOf(Filter(sorted, IsOld(now))))
  {
    recent, counts := [], map[];
    for i := 0 to |sorted|
      invariant recent == Deduplicated(TokensWhere(sorted[..i], IsRecent(now)))
      invariant CountsUses(counts, TokensWhere(sorted[..i], IsOld(now)))
    {
      var o := sorted[i];
      OrderAdds(now, sorted, i);
      if now - o.created <= MARKET_ORDER_AGE {
        ExtendAppend([], TokensWhere(sorted[..i], IsRecent(now)), [o.sellToken, o.buyToken]);
        recent := Extend(recent, [o.sellToken, o.buyToken]);
      } else {
        CountBoth(counts, TokensWhere(sorted[..i], IsOld(now)), o.sellToken, o.buyToken);
        counts := Increment(counts, o.sellToken);
        counts := Increment(counts, o.buyToken);
      }
    }
    assert sorted[..|sorted|] == sorted;
  }

  /** The keys of a hash map in whatever order it yields them, then sorted by count. */
  method Popular(counts: map<Address, nat>, ghost tokens: seq<Address>) returns (popular: seq<Address>)
    requires CountsUses(counts, tokens)
    ensures Distinct(popular) && SortedBy(popular, MostUsedFirst(tokens))
    ensures forall t :: t in popular <==> t in tokens
  {
    var entries: seq<Address> := [];
    var left := counts.Keys;
    while left != {}
      invariant left <= counts.Keys && forall t :: t in entries <==> t in counts.Keys - left
      invariant Distinct(entries)
    {
      var t :| t in left;
      assert t !in entries;
      entries := entries + [t];
      left := left - {t};
    }
    var key := (t: Address) => if t in counts then 0 - counts[t] as int else 0;
    popular := SortBy(entries, key);
    SortByPermutes(entries, key);
    SortBySorts(entries, key);
    PermutationDistinct(entries, popular);
    forall i, j | 0 <= i < j < |popular|
      ensures MostUsedFirst(tokens)(popular[i]) <= MostUsedFirst(tokens)(popular[j])
    {
      assert popular[i] in popular && popular[j] in popular;
      assert key(popular[i]) <= key(popular[j]);
    }
  }

  lemma {:induction false} TokensMembers(orders: seq<Order>, t: Address)
    ensures t in TokensOf(orders) <==> exists o :: o in orders && (o.sellToken == t || o.buyToken == t)
  {
    if orders != [] {
      var before, last := orders[..|orders| - 1], orders[|orders| - 1];
      TokensMembers(before, t);
      assert orders == before + [last];
    }
  }

  lemma AllTokens(now: int, orders: seq<Order>, sorted: seq<Order>)
    requires sorted == SortBy(orders, NewestFirst())
    ensures forall t :: t in TokensOf(orders) <==>
              t in TokensOf(Filter(sorted, IsRecent(now))) || t in TokensOf(Filter(sorted, IsOld(now)))
  {
    SortByPermutes(orders, NewestFirst());
    forall t
      ensures t in TokensOf(orders) <==>
              t in TokensOf(Filter(sorted, IsRecent(now))) || t in TokensOf(Filter(sorted, IsOld(now)))
    {
      TokensMembers(orders, t);
      TokensMembers(Filter(sorted, IsRecent(now)), t);
      TokensMembers(Filter(sorted, IsOld(now)), t);
      if o :| o in orders && (o.sellToken == t || o.buyToken == t) {
        assert o in Filter(sorted, IsRecent(now)) || o in Filter(sorted, IsOld(now));
      }
    }
  }

  // ------------------------------------------------------------------ what comes before what

  predicate Trades(o: Order, t: Address)
  {
    o.sellToken == t || o.buyToken == t
  }

  /** Some order that trades the token was created at that time or later. */
  ghost predicate UsedSince(orders: seq<Order>, t: Address, time: int)
  {
    exists o :: o in orders && Trades(o, t) && o.created >= time
  }

  function UsesBy(o: Order, t: Address): nat
  {
    (if o.sellToken == t then 1 else 0) + if o.buyToken == t then 1 else 0
  }

  /** How often the orders sell or buy a token. */
  function TimesTraded(orders: seq<Order>, t: Address): nat
  {
    if orders == [] then 0 else UsesBy(orders[0], t) + TimesTraded(orders[1..], t)
  }

  /**
   Why `t` may come before `u`: for every order of the last 30 minutes that trades `u` there is one
   that trades `t` and is not older; if no such order trades `t`, it is traded at least as often as `u`.
   */
  ghost predicate MayPrecede(now: int, orders: seq<Order>, t: Address, u: Address)
  {
    && (forall o | o in orders && Trades(o, u) && o.created >= now - 1_800_000_000 :: UsedSince(orders, t, o.created))
    && (!UsedSince(orders, t, now - 1_800_000_000) ==> TimesTraded(orders, t) >= TimesTraded(orders, u))
  }

  lemma {:induction false} TokensAt(orders: seq<Order>, k: nat)
    requires k < |orders|
    ensures |TokensOf(orders)| == 2 * |orders|
    ensures TokensOf(orders)[2 * k] == orders[k].sellToken && TokensOf(orders)[2 * k + 1] == orders[k].buyToken
  {
    var n := |orders| - 1;
    if n > 0 { TokensAt(orders[..n], if k < n then k else 0); }
  }

  lemma FirstIndexLeast(tokens: seq<Address>, t: Address, k: nat)
    requires k < |tokens| && tokens[k] == t
    ensures t in tokens && FirstIndex(tokens, t) <= k
  {
    assert t in tokens;
    var before := tokens[..FirstIndex(tokens, t)];
    assert forall i | 0 <= i < |before| :: tokens[i] in before;
  }

  lemma RecentTokens(now: int, orders: seq<Order>, sorted: seq<Order>, t: Address)
    requires sorted == SortBy(orders, NewestFirst())
    ensures t in TokensOf(Filter(sorted, IsRecent(now))) <==> UsedSince(orders, t, now - 1_800_000_000)
  {
    SortByPermutes(orders, NewestFirst());
    TokensMembers(Filter(sorted, IsRecent(now)), t);
  }

  /** In a list that is sorted newest first, the token that appears first is traded by an order that is not older. */
  lemma NewestAppearsFirst(orders: seq<Order>, t: Address, u: Address, o: Order) returns (p: Order)
    requires SortedBy(orders, NewestFirst()) && t in TokensOf(orders) && u in TokensOf(orders)
    requires FirstIndex(TokensOf(orders), t) < FirstIndex(TokensOf(orders), u)
    requires o in orders && Trades(o, u)
    ensures p in orders && Trades(p, t) && p.created >= o.created
  {
    var f := FirstIndex(TokensOf(orders), t);
    var k := TradedNoEarlier(orders, u, o, f);
    p := TraderAt(orders, t, f);
    if f / 2 < k { assert NewestFirst()(orders[f / 2]) <= NewestFirst()(orders[k]); }
  }

  lemma TradedNoEarlier(orders: seq<Order>, u: Address, o: Order, f: nat) returns (k: nat)
    requires o in orders && Trades(o, u) && u in TokensOf(orders) && f < FirstIndex(TokensOf(orders), u)
    ensures k < |orders| && orders[k] == o && f / 2 <= k
  {
    k :| 0 <= k < |orders| && orders[k] == o;
    TokensAt(orders, k);
    FirstIndexLeast(TokensOf(orders), u, if o.sellToken == u then 2 * k else 2 * k + 1);
  }

  lemma TraderAt(orders: seq<Order>, t: Address, f: nat) returns (p: Order)
    requires f < |TokensOf(orders)| && TokensOf(orders)[f] == t
    ensures f / 2 < |orders| && p == orders[f / 2] && Trades(p, t)
  {
    if orders != [] { TokensAt(orders, 0); }
    TokensAt(orders, f / 2);
    p := orders[f / 2];
    assert f == 2 * (f / 2) || f == 2 * (f / 2) + 1;
  }

  lemma UsesAppend(orders: seq<Order>, o: Order, t: Address)
    ensures Uses(TokensOf(orders + [o]), t) == Uses(TokensOf(orders), t) + UsesBy(o, t)
  {
    assert (orders + [o])[..|orders|] == orders;
    var pair := [o.sellToken, o.buyToken];
    assert Uses(TokensOf(orders) + pair, t) == Uses(TokensOf(orders), t) + Uses(pair, t);
    assert Uses(pair, t) == UsesBy(o, t);
  }

  lemma {:induction false} TimesAppend(orders: seq<Order>, o: Order, t: Address)
    ensures TimesTraded(orders + [o], t) == TimesTraded(orders, t) + UsesBy(o, t)
  {
    if orders == [] {
      assert ([] + [o])[1..] == [];
    } else {
      TimesAppend(orders[1..], o, t);
      assert (orders + [o])[1..] == orders[1..] + [o];
    }
  }

  lemma UsesAreTimesExtended(orders: seq<Order>, o: Order, t: Address)
    requires Uses(TokensOf(orders), t) == TimesTraded(orders, t)
    ensures Uses(TokensOf(orders + [o]), t) == TimesTraded(orders + [o], t)
  {
    UsesAppend(orders, o, t);
    TimesAppend(orders, o, t);
  }

  lemma {:induction false} UsesAreTimes(orders: seq<Order>, t: Address)
    ensures Uses(TokensOf(orders), t) == TimesTraded(orders, t)
  {
    if orders != [] {
      var init, last := orders[..|orders| - 1], orders[|orders| - 1];
      assert orders == init + [last];
      UsesAreTimes(init, t);
      UsesAreTimesExtended(init, last, t);
    }
  }

  lemma {:induction false} TimesInsert(o: Order, orders: seq<Order>, key: Order -> int, t: Address)
    ensures TimesTraded(Insert(o, orders, key), t) == TimesTraded(orders, t) + UsesBy(o, t)
  {
    if orders != [] && key(orders[0]) < key(o) {
      TimesInsert(o, orders[1..], key, t);
      assert ([orders[0]] + Insert(o, orders[1..], key))[1..] == Insert(o, orders[1..], key);
    } else {
      assert ([o] + orders)[1..] == orders;
    }
  }

  /** Sorting does not change how often a token is traded. */
  lemma {:induction false} TimesSorted(orders: seq<Order>, key: Order -> int, t: Address)
    ensures TimesTraded(SortBy(orders, key), t) == TimesTraded(orders, t)
  {
    if orders != [] {
      TimesSorted(orders[1..], key, t);
      TimesInsert(orders[0], SortBy(orders[1..], key), key, t);
    }
  }

  lemma {:induction false} TimesFiltered(orders: seq<Order>, keep: Order -> bool, t: Address)
    requires forall o | o in orders && Trades(o, t) :: keep(o)
    ensures TimesTraded(Filter(orders, keep), t) == TimesTraded(orders, t)
  {
    if orders != [] {
      var rest := orders[1..];
      assert orders[0] in orders && forall o | o in rest :: o in orders;
      TimesFiltered(rest, keep, t);
      if keep(orders[0]) {
        assert ([orders[0]] + Filter(rest, keep))[1..] == Filter(rest, keep);
      }
    }
  }

  /** A token without a recent order is traded by old orders alone. */
  lemma OldUses(now: int, orders: seq<Order>, sorted: seq<Order>, t: Address)
    requires sorted == SortBy(orders, NewestFirst()) && !UsedSince(orders, t, now - 1_800_000_000)
    ensures Uses(TokensOf(Filter(sorted, IsOld(now))), t) == TimesTraded(orders, t)
  {
    SortByPermutes(orders, NewestFirst());
    UsesAreTimes(Filter(sorted, IsOld(now)), t);
    TimesFiltered(sorted, IsOld(now), t);
    TimesSorted(orders, NewestFirst(), t);
  }

  lemma RecentPrecede(now: int, orders: seq<Order>, sorted: seq<Order>, recent: seq<Address>, i: nat, j: nat)
    requires sorted == SortBy(orders, NewestFirst())
    requires recent == Deduplicated(TokensOf(Filter(sorted, IsRecent(now)))) && i < j < |recent|
    ensures MayPrecede(now, orders, recent[i], recent[j])
  {
    var mine := Filter(sorted, IsRecent(now));
    var t, u := recent[i], recent[j];
    SortByPermutes(orders, NewestFirst());
    SortBySorts(orders, NewestFirst());
    FilterSorted(sorted, IsRecent(now), NewestFirst());
    DeduplicatedInOrder(TokensOf(mine), i, j);
    RecentTokens(now, orders, sorted, t);
    forall o | o in orders && Trades(o, u) && o.created >= now - 1_800_000_000
      ensures UsedSince(orders, t, o.created)
    {
      var p := NewestAppearsFirst(mine, t, u, o);
    }
  }

  lemma OldPrecede(now: int, orders: seq<Order>, sorted: seq<Order>, t: Address, u: Address)
    requires sorted == SortBy(orders, NewestFirst()) && !UsedSince(orders, u, now - 1_800_000_000)
    requires !UsedSince(orders, t, now - 1_800_000_000) ==>
               Uses(TokensOf(Filter(sorted, IsOld(now))), t) >= Uses(TokensOf(Filter(sorted, IsOld(now))), u)
    ensures MayPrecede(now, orders, t, u)
  {
    OldUses(now, orders, sorted, u);
    if !UsedSince(orders, t, now - 1_800_000_000) { OldUses(now, orders, sorted, t); }
  }

  lemma InPriority(now: int, orders: seq<Order>, sorted: seq<Order>, recent: seq<Address>, tokens: seq<Address>,
                   i: nat, j: nat)
    requires sorted == SortBy(orders, NewestFirst()) && i < j < |tokens| && Distinct(tokens)
    requires recent == Deduplicated(TokensOf(Filter(sorted, IsRecent(now)))) && recent <= tokens
    requires SortedBy(tokens[|recent|..], MostUsedFirst(TokensOf(Filter(sorted, IsOld(now)))))
    ensures MayPrecede(now, orders, tokens[i], tokens[j])
  {
    var n := |recent|;
    if j < n {
      RecentPrecede(now, orders, sorted, recent, i, j);
    } else {
      ExtendMembers([], TokensOf(Filter(sorted, IsRecent(now))));
      RecentTokens(now, orders, sorted, tokens[j]);
      assert tokens[j] !in recent;
      RecentTokens(now, orders, sorted, tokens[i]);
      if i < n {
        assert tokens[i] == recent[i] && recent[i] in recent;
      } else {
        var older := MostUsedFirst(TokensOf(Filter(sorted, IsOld(now))));
        assert older(tokens[n..][i - n]) <= older(tokens[n..][j - n]);
      }
      OldPrecede(now, orders, sorted, tokens[i], tokens[j]);
    }
  }

  /**
   Every token of the orders once: tokens of recent orders first, newest order first and in order of
   first appearance, then the tokens that only old orders use, the most used ones first.
   */
  method PrioritizeMissingPrices(now: int, orders: seq<Order>) returns (tokens: seq<Address>)
    ensures Distinct(tokens) && forall t :: t in tokens <==> exists o :: o in orders && Trades(o, t)
    ensures forall i, j | 0 <= i < j < |tokens| :: MayPrecede(now, orders, tokens[i], tokens[j])
    ensures
      var sorted := SortBy(orders, NewestFirst());
      var recent := Deduplicated(TokensOf(Filter(sorted, IsRecent(now))));
      && recent <= tokens
      && SortedBy(tokens[|recent|..], MostUsedFirst(TokensOf(Filter(sorted, IsOld(now)))))
  {
    var sorted := SortBy(orders, NewestFirst());
    ghost var older := TokensOf(Filter(sorted, IsOld(now)));
    var recent, counts := SplitTokens(now, sorted);
    var popular := Popular(counts, older);
    tokens := Extend(recent, popular);
    ExtendMembers([], TokensOf(Filter(sorted, IsRecent(now))));
    ExtendIsFilter(recent, popular);
    ExtendMembers(recent, popular);
    FilterSorted(popular, IsNew(recent), MostUsedFirst(older));
    assert tokens[|recent|..] == Filter(popular, IsNew(recent));
    AllTokens(now, orders, sorted);
    forall t { TokensMembers(orders, t); }
    forall i, j | 0 <= i < j < |tokens|
      ensures MayPrecede(now, orders, tokens[i], tokens[j])
    {
      InPriority(now, orders, sorted, recent, tokens, i, j);
    }
  }
}
