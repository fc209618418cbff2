/**
 The stream of current blocks: which of the blocks received from a node are published, how a
 throttled stream follows another one, and how a range of blocks is put together.
 */
module BlockStream {
  import opened Common
  import opened Sequences

  datatype BlockInfo = BlockInfo(number: nat, hash: Hash, parentHash: Hash)

  // ----------------------------------------------------------------- the published blocks

  /** A block is sent if it differs from the last one sent and has a larger number. */
  predicate Noticed(previous: BlockInfo, b: BlockInfo)
  {
    previous.hash != b.hash && b.number > previous.number
  }

  /** All values of the channel, the first one included; a header that does not parse is `None`. */
  function Published(first: BlockInfo, incoming: seq<Option<BlockInfo>>): (r: seq<BlockInfo>)
    ensures r != [] && r[0] == first
  {
    if incoming == [] then [first]
    else
      var before := Published(first, incoming[..|incoming| - 1]);
      var b := incoming[|incoming| - 1];
      if b.Some? && Noticed(before[|before| - 1], b.value) then before + [b.value] else before
  }

  method PublishBlocks(first: BlockInfo, incoming: seq<Option<BlockInfo>>) returns (published: seq<BlockInfo>)
    ensures published == Published(first, incoming)
  {
    published := [first];
    var previous := first;
    for i := 0 to |incoming|
      invariant published == Published(first, incoming[..i])
      invariant previous == published[|published| - 1]
    {
      assert incoming[..i + 1][..i] == incoming[..i];
      if incoming[i].None? { continue; }
      var b := incoming[i].value;
      if previous.hash == b.hash { continue; }
      if b.number <= previous.number { continue; }
      published := published + [b];
      previous := b;
    }
    assert incoming[..|incoming|] == incoming;
  }

  ghost predicate Increasing(blocks: seq<BlockInfo>)
  {
    forall i, j | 0 <= i < j < |blocks| :: blocks[i].number < blocks[j].number
  }

  /** The block was received: it is the first one or a header that parsed. */
  predicate Received(first: BlockInfo, incoming: seq<Option<BlockInfo>>, b: BlockInfo)
  {
    b == first || Some(b) in incoming
  }

  /** The hash commits to the block: received blocks with one hash are one block. */
  ghost predicate HashesFixBlocks(first: BlockInfo, incoming: seq<Option<BlockInfo>>)
  {
    forall a, b | Received(first, incoming, a) && Received(first, incoming, b) && a.hash == b.hash :: a == b
  }

  /** Whatever is received, in any order and with any reorg, published numbers strictly increase. */
  lemma {:induction false} PublishedIncreasing(first: BlockInfo, incoming: seq<Option<BlockInfo>>)
    ensures Increasing(Published(first, incoming))
    ensures forall b | b in Published(first, incoming) :: Received(first, incoming, b)
  {
    if incoming != [] {
      PublishedIncreasing(first, incoming[..|incoming| - 1]);
    }
  }

  /** The current block has the largest number received so far. */
  lemma {:induction false} CurrentIsMaximum(first: BlockInfo, incoming: seq<Option<BlockInfo>>)
    requires HashesFixBlocks(first, incoming)
    ensures
      var published := Published(first, incoming);
      var current := published[|published| - 1];
      && Received(first, incoming, current)
      && forall b | Received(first, incoming, b) :: b.number <= current.number
  {
    if incoming != [] {
      var before := incoming[..|incoming| - 1];
      var last := incoming[|incoming| - 1];
      assert forall b | Received(first, before, b) :: Received(first, incoming, b);
      assert forall b | Received(first, incoming, b) :: Received(first, before, b) || last == Some(b);
      CurrentIsMaximum(first, before);
      if last.Some? {
        assert Received(first, incoming, last.value);
      }
    }
  }

  /** A received block is published exactly if its number is larger than all numbers before it. */
  lemma PublishedIffRecord(first: BlockInfo, incoming: seq<Option<BlockInfo>>, b: BlockInfo)
    requires HashesFixBlocks(first, incoming + [Some(b)])
    ensures
      var before, after := Published(first, incoming), Published(first, incoming + [Some(b)]);
      && (after == before || after == before + [b])
      && (after == before + [b] <==> forall a | Received(first, incoming, a) :: a.number < b.number)
  {
    var all := incoming + [Some(b)];
    assert all[..|incoming|] == incoming;
    assert forall a | Received(first, incoming, a) :: Received(first, all, a);
    assert Received(first, all, b);
    CurrentIsMaximum(first, incoming);
  }

  // ------------------------------------------------------------------------- throttling

  /** Skips `n` updates, forwards one, and so on. */
  function Throttled<T>(updates: seq<T>, n: nat): seq<T>
  {
    if |updates| <= n then [] else [updates[n]] + Throttled(updates[n + 1..], n)
  }

  method Throttle<T>(updates: seq<T>, n: nat) returns (forwarded: seq<T>)
    ensures forwarded == Throttled(updates, n)
  {
    forwarded := [];
    var skipped := 0;
    for i := 0 to |updates|
      invariant 0 <= skipped <= n && skipped <= i
      invariant forwarded + Throttled(updates[i - skipped..], n) == Throttled(updates, n)
    {
      if skipped == n {
        skipped := 0;
      } else {
        skipped := skipped + 1;
        continue;
      }
      assert updates[i - n..][n + 1..] == updates[i + 1..];
      forwarded := forwarded + [updates[i]];
    }
  }

  lemma {:induction false} ThrottledLength<T>(updates: seq<T>, n: nat)
    ensures |Throttled(updates, n)| * (n + 1) <= |updates| < (|Throttled(updates, n)| + 1) * (n + 1)
  {
    if |updates| > n {
      ThrottledLength(updates[n + 1..], n);
      var length := |Throttled(updates[n + 1..], n)|;
      Distribute(length, n + 1);
      Distribute(length + 1, n + 1);
    }
  }

  /** The j-th forwarded update is the ((j + 1) * (n + 1))-th one. */
  lemma {:induction false} ThrottledEvery<T>(updates: seq<T>, n: nat, j: nat, k: int)
    requires j < |Throttled(updates, n)| && k == (j + 1) * (n + 1) - 1
    ensures 0 <= k < |updates| && Throttled(updates, n)[j] == updates[k]
    decreases j
  {
    if j == 0 {
      assert k == n;
    } else {
      Distribute(j, n + 1);
      ThrottledEvery(updates[n + 1..], n, j - 1, k - n - 1);
    }
  }

  lemma Distribute(a: int, d: int)
    ensures (a + 1) * d == a * d + d
  {
  }

  // ------------------------------------------------------------------- a range of blocks

  /** Whether every block names the one before it as its parent. */
  ghost predicate Linked(blocks: seq<BlockInfo>)
  {
    forall i | 0 < i < |blocks| :: blocks[i].parentHash == blocks[i - 1].hash
  }

  function NumberAndHash(blocks: seq<BlockInfo>): seq<(nat, Hash)>
  {
    seq(|blocks|, i requires 0 <= i < |blocks| => (blocks[i].number, blocks[i].hash))
  }

  function ByNumber(): BlockInfo -> int
  {
    (b: BlockInfo) => b.number
  }

  /** The collected answers: one missing block fails the whole request. */
  function Collected(completed: seq<Option<BlockInfo>>): Option<seq<BlockInfo>>
  {
    if completed == [] then Some([])
    else
      var rest := Collected(completed[1..]);
      if completed[0].Some? && rest.Some? then Some([completed[0].value] + rest.value) else None
  }

  /** The result for the answers in some order. */
  ghost function RangeOf(completed: seq<Option<BlockInfo>>): Result<seq<(nat, Hash)>, Failure>
  {
    match Collected(completed)
    case None => Err(Failure)
    case Some(blocks) =>
      var sorted := SortBy(blocks, ByNumber());
      if Linked(sorted) then Ok(NumberAndHash(sorted)) else Err(Failure)
  }

  /** `completed` are the answers in the order in which the requests happened to complete. */
  method Blocks(completed: seq<Option<BlockInfo>>) returns (r: Result<seq<(nat, Hash)>, Failure>)
    ensures r == RangeOf(completed)
  {
    var collected := Collected(completed);
    if collected.None? { return Err(Failure); }
    var blocks := SortBy(collected.value, ByNumber());
    var previous: Option<Hash> := None;
    var result := [];
    for i := 0 to |blocks|
      invariant Linked(blocks[..i])
      invariant previous == if i == 0 then None else Some(blocks[i - 1].hash)
      invariant result == NumberAndHash(blocks[..i])
    {
      if previous.Some? && previous.value != blocks[i].parentHash {
        assert !Linked(blocks);
        return Err(Failure);
      }
      previous := Some(blocks[i].hash);
      result := result + [(blocks[i].number, blocks[i].hash)];
    }
    assert blocks[..|blocks|] == blocks;
    return Ok(result);
  }

  /** The answers for the blocks of a range, from lowest to highest. */
  function Answers(start: nat, end: nat, node: nat -> Option<BlockInfo>): seq<Option<BlockInfo>>
  {
    if end < start then [] else seq(end - start + 1, i requires 0 <= i => node(start + i))
  }

  /** The node answers a request for a number with the block of that number. */
  ghost predicate Honest(node: nat -> Option<BlockInfo>)
  {
    forall n: nat | node(n).Some? :: node(n).value.number == n
  }

  lemma {:induction false} CollectedContents(completed: seq<Option<BlockInfo>>)
    ensures Collected(completed).Some? <==> None !in completed
    ensures Collected(completed).Some? ==>
              && |Collected(completed).value| == |completed|
              && forall i | 0 <= i < |completed| :: completed[i] == Some(Collected(completed).value[i])
  {
    if completed != [] {
      CollectedContents(completed[1..]);
      assert completed == [completed[0]] + completed[1..];
    }
  }

  lemma {:induction false} CollectedCounts(completed: seq<Option<BlockInfo>>, b: BlockInfo)
    requires Collected(completed).Some?
    ensures multiset(Collected(completed).value)[b] == multiset(completed)[Some(b)]
  {
    if completed != [] {
      CollectedCounts(completed[1..], b);
      assert completed == [completed[0]] + completed[1..];
    }
  }

  /**
   For every order in which the requests complete the result is the same: the chain of the
   requested blocks from lowest to highest if all exist and each is the parent of the next one,
   and an error otherwise.
   */
  lemma BlocksIgnoreCompletionOrder(start: nat, end: nat, node: nat -> Option<BlockInfo>,
                                    completed: seq<Option<BlockInfo>>)
    requires Honest(node) && multiset(completed) == multiset(Answers(start, end, node))
    ensures Collected(completed).Some? <==> None !in Answers(start, end, node)
    ensures Collected(completed).Some? ==>
              Collected(Answers(start, end, node)) == Some(SortBy(Collected(completed).value, ByNumber()))
  {
    var answers := Answers(start, end, node);
    SameMultisetSameMembers(completed, answers);
    CollectedContents(completed);
    CollectedContents(answers);
    if Collected(completed).Some? {
      var blocks, chain := Collected(completed).value, Collected(answers).value;
      AnswersAreSorted(start, end, node, chain);
      SameAnswersSameBlocks(completed, answers);
      SortByPermutes(blocks, ByNumber());
      SortBySorts(blocks, ByNumber());
      SortedUnique(SortBy(blocks, ByNumber()), chain, ByNumber());
    }
  }

  predicate NamesParent(node: nat -> Option<BlockInfo>, n: nat)
  {
    n > 0 && node(n).Some? && node(n - 1).Some? && node(n).value.parentHash == node(n - 1).value.hash
  }

  /** Every block of the range exists and names the one before it as its parent. */
  ghost predicate IsChain(start: nat, end: nat, node: nat -> Option<BlockInfo>)
  {
    && (forall n: nat | start <= n <= end :: node(n).Some?)
    && (forall n: nat | start < n <= end :: NamesParent(node, n))
  }

  /** So for every completion order, the request succeeds exactly on a chain, and returns it from start to end. */
  lemma RangeIsChain(start: nat, end: nat, node: nat -> Option<BlockInfo>, completed: seq<Option<BlockInfo>>)
    requires Honest(node) && multiset(completed) == multiset(Answers(start, end, node))
    ensures RangeOf(completed).Ok? <==> IsChain(start, end, node)
    ensures RangeOf(completed).Ok? ==>
              var r := RangeOf(completed).value;
              && |r| == (if end < start then 0 else end - start + 1)
              && forall i | 0 <= i < |r| :: node(start + i).Some? && r[i] == (start + i, node(start + i).value.hash)
  {
    var answers := Answers(start, end, node);
    BlocksIgnoreCompletionOrder(start, end, node, completed);
    CollectedContents(answers);
    if None in answers {
      var i :| 0 <= i < |answers| && answers[i] == None;
      assert node(start + i).None?;
    } else {
      AnswersLinkedIff(start, end, node, Collected(answers).value);
    }
  }

  lemma AnswersLinkedIff(start: nat, end: nat, node: nat -> Option<BlockInfo>, chain: seq<BlockInfo>)
    requires Collected(Answers(start, end, node)) == Some(chain)
    ensures |chain| == (if end < start then 0 else end - start + 1)
    ensures forall i | 0 <= i < |chain| :: node(start + i) == Some(chain[i])
    ensures Linked(chain) <==> IsChain(start, end, node)
  {
    var answers := Answers(start, end, node);
    CollectedContents(answers);
    assert forall i | 0 <= i < |chain| :: answers[i] == node(start + i);
    assert forall n: nat | start <= n <= end :: node(n) == Some(chain[n - start]);
    if Linked(chain) {
      forall n: nat | start < n <= end
        ensures NamesParent(node, n)
      {
        assert chain[n - start].parentHash == chain[n - start - 1].hash;
      }
    }
    if IsChain(start, end, node) {
      forall i | 0 < i < |chain|
        ensures chain[i].parentHash == chain[i - 1].hash
      {
        assert NamesParent(node, start + i);
      }
    }
  }

  lemma SameAnswersSameBlocks(completed: seq<Option<BlockInfo>>, answers: seq<Option<BlockInfo>>)
    requires multiset(completed) == multiset(answers) && Collected(completed).Some? && Collected(answers).Some?
    ensures multiset(Collected(completed).value) == multiset(Collected(answers).value)
  {
    forall b: BlockInfo
      ensures multiset(Collected(completed).value)[b] == multiset(Collected(answers).value)[b]
    {
      CollectedCounts(completed, b);
      CollectedCounts(answers, b);
    }
  }

  lemma AnswersAreSorted(start: nat, end: nat, node: nat -> Option<BlockInfo>, chain: seq<BlockInfo>)
    requires Honest(node) && Collected(Answers(start, end, node)) == Some(chain)
    ensures StrictlySortedBy(chain, ByNumber())
  {
    CollectedContents(Answers(start, end, node));
    forall i | 0 <= i < |chain|
      ensures chain[i].number == start + i
    {
      assert Answers(start, end, node)[i] == node(start + i) == Some(chain[i]);
    }
  }
}
