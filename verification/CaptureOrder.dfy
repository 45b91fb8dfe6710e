/**
 The reorder buffer of the capture loop (crates/cli/src/capture/mod.rs): blocks arrive in any order
 and are processed in ascending order, with early arrivals parked in a map. The block number is a
 64-bit counter.
 */
module CaptureOrder {
  import opened Common

  datatype Block = Block(number: nat, contents: nat)

  datatype Fetch = Fetched(block: Block) | Failed

  datatype Outcome =
    | Processed(blocks: seq<Block>)
    | FetchError
    | StreamEnded      // the `expect` on the block stream
    | CounterOverflow  // the increment of the block number, in a build with overflow checks

  /** An arrival order of the range: `index(n)` is the position at which block `n` arrives. */
  ghost predicate Arrives(stream: seq<Fetch>, from: nat, to: nat, index: nat -> nat) {
    && (forall i :: 0 <= i < |stream| ==>
                      && stream[i].Fetched? && from <= stream[i].block.number <= to
                      && index(stream[i].block.number) == i)
    && (forall n :: from <= n <= to ==> index(n) < |stream| && stream[index(n)] == Fetched(BlockAt(stream, index(n))))
    && (forall n :: from <= n <= to ==> BlockAt(stream, index(n)).number == n)
  }

  function BlockAt(stream: seq<Fetch>, i: nat): Block {
    if i < |stream| && stream[i].Fetched? then stream[i].block else Block(0, 0)
  }

  /** The blocks `from`, `from + 1`, ... as they arrived. */
  ghost predicate InOrder(blocks: seq<Block>, stream: seq<Fetch>, from: nat, index: nat -> nat) {
    forall k :: 0 <= k < |blocks| ==> blocks[k] == BlockAt(stream, index(from + k))
  }

  /** `pending` holds exactly the blocks from `next` on that arrived before `pos`. */
  ghost predicate Parked(pending: map<nat, Block>, stream: seq<Fetch>, to: nat, index: nat -> nat, pos: nat,
                         next: nat) {
    && (forall n :: n in pending <==> next <= n <= to && index(n) < pos)
    && (forall n :: n in pending ==> pending[n] == BlockAt(stream, index(n)))
  }

  /** The state between two blocks: `done` is processed, the rest of what arrived is parked. */
  ghost predicate Between(stream: seq<Fetch>, from: nat, to: nat, index: nat -> nat,
                          pending: map<nat, Block>, pos: nat, done: seq<Block>) {
    && |done| <= to - from + 1
    && InOrder(done, stream, from, index)
    && (forall n :: from <= n < from + |done| ==> index(n) < pos)
    && Parked(pending, stream, to, index, pos, from + |done|)
  }

  /** The next block of the stream is parked, unless it is the wanted one. */
  lemma ParkStep(stream: seq<Fetch>, from: nat, to: nat, index: nat -> nat, pending: map<nat, Block>, pos: nat,
                 next: nat)
    requires Arrives(stream, from, to, index) && pos < |stream| && from <= next
    requires forall n :: from <= n < next ==> index(n) < pos
    requires Parked(pending, stream, to, index, pos, next)
    ensures var block := stream[pos].block;
            if block.number == next then next !in pending && Parked(pending, stream, to, index, pos + 1, next + 1)
            else Parked(pending[block.number := block], stream, to, index, pos + 1, next)
  {
    var block := stream[pos].block;
    assert index(block.number) == pos && next <= block.number <= to;
    forall n | from <= n <= to && index(n) == pos ensures n == block.number {
      assert BlockAt(stream, index(n)).number == n;
    }
  }

  lemma UnparkStep(stream: seq<Fetch>, to: nat, index: nat -> nat, pending: map<nat, Block>, pos: nat, next: nat)
    requires Parked(pending, stream, to, index, pos, next) && next in pending
    ensures Parked(pending - {next}, stream, to, index, pos, next + 1)
  {
  }

  /** From `start` up to `pos` every fetch succeeded, with a block other than `next`. */
  predicate Passed(stream: seq<Fetch>, start: nat, pos: nat, next: nat) {
    forall i :: start <= i < pos && i < |stream| ==> stream[i].Fetched? && stream[i].block.number != next
  }

  /** Parked blocks stand under their own number and were read from the stream. */
  predicate FromStream(pending: map<nat, Block>, stream: seq<Fetch>, pos: nat) {
    forall n :: n in pending ==> pending[n].number == n && WasRead(stream, pos, pending[n])
  }

  predicate WasRead(stream: seq<Fetch>, pos: nat, block: Block) {
    exists i :: 0 <= i < pos && i < |stream| && stream[i] == Fetched(block)
  }

  lemma ReadsStay(pending: map<nat, Block>, stream: seq<Fetch>, pos: nat, later: nat)
    requires FromStream(pending, stream, pos) && pos <= later
    ensures FromStream(pending, stream, later)
  {
    forall n | n in pending ensures WasRead(stream, later, pending[n]) {
      var i :| 0 <= i < pos && i < |stream| && stream[i] == Fetched(pending[n]);
    }
  }

  predicate AnyFailed(stream: seq<Fetch>) { exists i :: 0 <= i < |stream| && stream[i].Failed? }

  /** Pulls blocks until `next` arrives, parking the others. */
  method PullUntil(stream: seq<Fetch>, start: nat, parked: map<nat, Block>, next: nat,
                   ghost from: nat, ghost to: nat, ghost index: nat -> nat)
    returns (r: Result<Block, Outcome>, pending: map<nat, Block>, pos: nat)
    requires start <= |stream| && next !in parked
    ensures start <= pos <= |stream| && (r.Ok? ==> start < pos)
    ensures Wanted(stream, from, to, index, parked, start, next) ==>
              && r == Ok(BlockAt(stream, index(next))) && index(next) < pos
              && Parked(pending, stream, to, index, pos, next + 1)
    ensures start == |stream| ==> r == Err(StreamEnded)
    ensures r.Err? ==> r.error == FetchError || r.error == StreamEnded
    ensures r == Err(FetchError) ==> AnyFailed(stream)
    ensures match r
            case Ok(block) =>
              && Passed(stream, start, pos - 1, next) && stream[pos - 1] == Fetched(block) && block.number == next
            case Err(FetchError) => Passed(stream, start, pos, next) && pos < |stream| && stream[pos].Failed?
            case Err(_) => Passed(stream, start, pos, next) && pos == |stream|
    ensures FromStream(parked, stream, start) ==> FromStream(pending, stream, pos)
  {
    pending, pos := parked, start;
    ghost var wanted := Wanted(stream, from, to, index, parked, start, next);
    while pos < |stream|
      invariant start <= pos <= |stream| && Passed(stream, start, pos, next)
      invariant FromStream(parked, stream, start) ==> FromStream(pending, stream, pos)
      invariant wanted ==> Wanted(stream, from, to, index, pending, pos, next) && next !in pending
    {
      if stream[pos].Failed? { return Err(FetchError), pending, pos; }
      var block := stream[pos].block;
      if wanted {
        ParkStep(stream, from, to, index, pending, pos, next);
      }
      if FromStream(parked, stream, start) { ReadsStay(pending, stream, pos, pos + 1); }
      pos := pos + 1;
      assert WasRead(stream, pos, block) by { assert stream[pos - 1] == Fetched(block); }
      if block.number == next {
        return Ok(block), pending, pos;
      }
      pending := pending[block.number := block];
    }
    return Err(StreamEnded), pending, pos;
  }

  ghost predicate Wanted(stream: seq<Fetch>, from: nat, to: nat, index: nat -> nat, pending: map<nat, Block>, pos: nat,
                         next: nat) {
    && Arrives(stream, from, to, index) && from <= next <= to
    && (forall n :: from <= n < next ==> index(n) < pos)
    && Parked(pending, stream, to, index, pos, next)
  }

  /** Once the whole range is processed, nothing is parked and the stream is used up. */
  lemma NothingLeft(stream: seq<Fetch>, from: nat, to: nat, index: nat -> nat, pending: map<nat, Block>, pos: nat,
                    done: seq<Block>)
    requires Arrives(stream, from, to, index) && Between(stream, from, to, index, pending, pos, done)
    requires from <= to && |done| == to - from + 1 && pos <= |stream|
    ensures pending == map[] && pos == |stream|
  {
    assert forall n :: n !in pending;
    assert index(from) < |stream|;
    var last := stream[|stream| - 1].block.number;
    assert from <= last <= to && index(last) == |stream| - 1;
  }

  lemma ProcessStep(stream: seq<Fetch>, from: nat, to: nat, index: nat -> nat, pending: map<nat, Block>, before: nat,
                    pos: nat, done: seq<Block>)
    requires |done| <= to - from && before <= pos && InOrder(done, stream, from, index)
    requires forall n :: from <= n < from + |done| ==> index(n) < before
    requires index(from + |done|) < pos && Parked(pending, stream, to, index, pos, from + |done| + 1)
    ensures Between(stream, from, to, index, pending, pos, done + [BlockAt(stream, index(from + |done|))])
  {
  }

  /** Incrementing a 64-bit counter. */
  function Increment(n: nat): nat { if n == U64_MAX then 0 else n + 1 }

  /** The counter after `done` blocks: past the range, or wrapped to zero. */
  function CounterAfter(from: nat, to: nat, done: nat): nat {
    if done <= to - from then from + done else Increment(to)
  }

  /** Taking the next block processes it; past the end of the range there is none to take. */
  ghost predicate Takes(stream: seq<Fetch>, from: nat, to: nat, index: nat -> nat, parked: map<nat, Block>, start: nat,
                        done: seq<Block>, next: nat, r: Result<Block, Outcome>, pending: map<nat, Block>, pos: nat) {
    Arrives(stream, from, to, index) && Between(stream, from, to, index, parked, start, done) ==>
      if |done| <= to - from then
        next == from + |done| ==> r.Ok? && Between(stream, from, to, index, pending, pos, done + [r.value])
      else r == Err(StreamEnded)
  }

  lemma TakesParked(stream: seq<Fetch>, from: nat, to: nat, index: nat -> nat, parked: map<nat, Block>, start: nat,
                    done: seq<Block>, next: nat)
    requires next in parked && from <= to
    ensures Takes(stream, from, to, index, parked, start, done, next, Ok(parked[next]), parked - {next}, start)
  {
    if Arrives(stream, from, to, index) && Between(stream, from, to, index, parked, start, done) {
      UnparkNext(stream, from, to, index, parked, start, done, next);
    }
  }

  lemma TakesPulled(stream: seq<Fetch>, from: nat, to: nat, index: nat -> nat, parked: map<nat, Block>, start: nat,
                    done: seq<Block>, next: nat, r: Result<Block, Outcome>, pending: map<nat, Block>, pos: nat)
    requires from <= to && start <= pos <= |stream|
    requires Wanted(stream, from, to, index, parked, start, next) ==>
               && r == Ok(BlockAt(stream, index(next))) && index(next) < pos
               && Parked(pending, stream, to, index, pos, next + 1)
    requires start == |stream| ==> r == Err(StreamEnded)
    ensures Takes(stream, from, to, index, parked, start, done, next, r, pending, pos)
  {
    if Arrives(stream, from, to, index) && Between(stream, from, to, index, parked, start, done) {
      if |done| > to - from {
        NothingLeft(stream, from, to, index, parked, start, done);
      } else if next == from + |done| {
        ProcessStep(stream, from, to, index, pending, start, pos, done);
      }
    }
  }

  /** The next block, from the parked ones or from the stream. */
  method TakeNext(stream: seq<Fetch>, start: nat, parked: map<nat, Block>, next: nat,
                  ghost from: nat, ghost to: nat, ghost index: nat -> nat, ghost done: seq<Block>)
    returns (r: Result<Block, Outcome>, pending: map<nat, Block>, pos: nat)
    requires start <= |stream| && from <= to
    ensures start <= pos <= |stream|
    ensures r.Ok? ==> start < pos || (start == pos && |pending| < |parked|)
    ensures r == Err(FetchError) ==> AnyFailed(stream)
    ensures r.Err? ==> r.error == FetchError || r.error == StreamEnded
    ensures forall i :: start <= i < pos ==> stream[i].Fetched?
    ensures r == Err(FetchError) ==> pos < |stream| && stream[pos].Failed?
    ensures r == Err(StreamEnded) ==> pos == |stream|
    ensures FromStream(parked, stream, start) ==> FromStream(pending, stream, pos)
    ensures FromStream(parked, stream, start) && r.Ok? ==> r.value.number == next && WasRead(stream, pos, r.value)
    ensures Takes(stream, from, to, index, parked, start, done, next, r, pending, pos)
  {
    if next in parked {
      TakesParked(stream, from, to, index, parked, start, done, next);
      RemoveShrinks(parked, next);
      return Ok(parked[next]), parked - {next}, start;
    }
    r, pending, pos := PullUntil(stream, start, parked, next, from, to, index);
    TakesPulled(stream, from, to, index, parked, start, done, next, r, pending, pos);
  }

  /** Nothing is parked once the range is processed; a parked next block is the one to process. */
  lemma UnparkNext(stream: seq<Fetch>, from: nat, to: nat, index: nat -> nat, parked: map<nat, Block>, pos: nat,
                   done: seq<Block>, next: nat)
    requires Between(stream, from, to, index, parked, pos, done) && next in parked && from <= to
    ensures |done| <= to - from
    ensures next == from + |done| ==> Between(stream, from, to, index, parked - {next}, pos, done + [parked[next]])
  {
    if next == from + |done| {
      UnparkStep(stream, to, index, parked, pos, next);
      ProcessStep(stream, from, to, index, parked - {next}, pos, pos, done);
    }
  }

  /** The capture loop, for the arrival order that `index` tells; `read` is how far the stream was read. */
  method CaptureLoop(stream: seq<Fetch>, from: nat, to: nat, overflowChecks: bool, ghost index: nat -> nat)
    returns (r: Outcome, pending: map<nat, Block>, ghost read: nat)
    requires from <= to <= U64_MAX
    ensures Arrives(stream, from, to, index) && to < U64_MAX ==>
              r.Processed? && |r.blocks| == to - from + 1 && InOrder(r.blocks, stream, from, index) && pending == map[]
    ensures Arrives(stream, from, to, index) && to == U64_MAX ==>
              r == if overflowChecks then CounterOverflow else StreamEnded
    ensures r.CounterOverflow? ==> overflowChecks && to == U64_MAX
    ensures r.FetchError? ==> AnyFailed(stream)
    ensures read <= |stream| && forall i :: 0 <= i < read ==> stream[i].Fetched?
    ensures r.FetchError? ==> read < |stream| && stream[read].Failed?
    ensures r.StreamEnded? ==> read == |stream|
    ensures r.Processed? ==>
              && |r.blocks| == to - from + 1
              && AllRead(r.blocks, stream, from, read)
  {
    pending := map[];
    var next: nat, pos: nat := from, 0;
    var done: seq<Block> := [];
    ghost var arrives := Arrives(stream, from, to, index);
    while next <= to
      invariant pos <= |stream| && FromStream(pending, stream, pos)
      invariant forall i :: 0 <= i < pos ==> stream[i].Fetched?
      invariant next <= U64_MAX && (to < U64_MAX ==> next == from + |done| && |done| <= to - from + 1)
      invariant to < U64_MAX ==> AllRead(done, stream, from, pos)
      invariant arrives ==>
                  Between(stream, from, to, index, pending, pos, done) == true && next == CounterAfter(from, to, |done|)
      invariant arrives && overflowChecks && to == U64_MAX ==> |done| <= to - from
      decreases |stream| - pos, |pending|
    {
      var block;
      ghost var before := pos;
      block, pending, pos := TakeNext(stream, pos, pending, next, from, to, index, done);
      if block.Err? { return block.error, pending, pos; }
      if to < U64_MAX { AllReadSnoc(done, stream, from, before, pos, block.value); }
      done := done + [block.value];
      if overflowChecks && next == U64_MAX { return CounterOverflow, pending, pos; }
      next := Increment(next);
    }
    if arrives {
      NothingLeft(stream, from, to, index, pending, pos, done);
    }
    return Processed(done), pending, pos;
  }

  /** The blocks `from`, `from + 1`, ... and all of them read. */
  predicate AllRead(blocks: seq<Block>, stream: seq<Fetch>, from: nat, pos: nat) {
    forall k :: 0 <= k < |blocks| ==> blocks[k].number == from + k && WasRead(stream, pos, blocks[k])
  }

  lemma AllReadSnoc(blocks: seq<Block>, stream: seq<Fetch>, from: nat, before: nat, pos: nat, block: Block)
    requires AllRead(blocks, stream, from, before) && before <= pos
    requires block.number == from + |blocks| && WasRead(stream, pos, block)
    ensures AllRead(blocks + [block], stream, from, pos)
  {
    forall k | 0 <= k < |blocks| ensures WasRead(stream, pos, blocks[k]) {
      var i :| 0 <= i < before && i < |stream| && stream[i] == Fetched(blocks[k]);
    }
  }

  lemma RemoveShrinks(m: map<nat, Block>, n: nat)
    requires n in m
    ensures |m - {n}| < |m|
  {
    assert (m - {n}).Keys == m.Keys - {n};
  }

  // ----- any order ----------------------------------------------------------------------------------------

  function Fetches(blocks: seq<Block>): seq<Fetch> {
    seq(|blocks|, k requires 0 <= k < |blocks| => Fetched(blocks[k]))
  }

  /** The blocks `from`, `from + 1`, ... arrive in some order, each once. */
  ghost predicate Shuffles(stream: seq<Fetch>, blocks: seq<Block>, from: nat) {
    && multiset(stream) == multiset(Fetches(blocks))
    && forall k :: 0 <= k < |blocks| ==> blocks[k].number == from + k
  }

  predicate Carries(stream: seq<Fetch>, i: nat, n: nat) {
    i < |stream| && stream[i].Fetched? && stream[i].block.number == n
  }

  /** Where block `n` arrives. */
  ghost function Position(stream: seq<Fetch>, n: nat): nat {
    if exists i: nat :: Carries(stream, i, n) then var i: nat :| Carries(stream, i, n); i else 0
  }

  lemma TwiceCounts<T>(s: seq<T>, i: nat, j: nat)
    requires i < j < |s| && s[i] == s[j]
    ensures multiset(s)[s[i]] >= 2
  {
    assert s == s[..j] + s[j..];
    assert s[i] in s[..j] && s[i] in s[j..];
  }

  lemma {:induction false} FetchedOnce(blocks: seq<Block>, from: nat, x: Fetch)
    requires forall k :: 0 <= k < |blocks| ==> blocks[k].number == from + k
    ensures multiset(Fetches(blocks))[x] <= 1
  {
    if blocks != [] {
      var n := |blocks| - 1;
      FetchedOnce(blocks[..n], from, x);
      assert Fetches(blocks) == Fetches(blocks[..n]) + [Fetched(blocks[n])];
      if x == Fetched(blocks[n]) {
        assert x !in Fetches(blocks[..n]);
      }
    }
  }

  /** Every fetch of a shuffled range is one of its blocks. */
  lemma ShuffledFetch(stream: seq<Fetch>, blocks: seq<Block>, from: nat, i: nat) returns (k: nat)
    requires Shuffles(stream, blocks, from) && i < |stream|
    ensures k < |blocks| && stream[i] == Fetched(blocks[k])
  {
    assert stream[i] in multiset(stream);
    assert stream[i] in Fetches(blocks);
    k :| 0 <= k < |blocks| && Fetches(blocks)[k] == stream[i];
  }

  /** No two fetches of a shuffled range carry the same number. */
  lemma ShuffledOnce(stream: seq<Fetch>, blocks: seq<Block>, from: nat, i: nat, j: nat, n: nat)
    requires Shuffles(stream, blocks, from) && Carries(stream, i, n) && Carries(stream, j, n)
    ensures i == j
  {
    var k := ShuffledFetch(stream, blocks, from, i);
    var l := ShuffledFetch(stream, blocks, from, j);
    assert k == l;
    FetchedOnce(blocks, from, stream[i]);
    if i < j { TwiceCounts(stream, i, j); }
    if j < i { TwiceCounts(stream, j, i); }
  }

  lemma ShuffledPosition(stream: seq<Fetch>, blocks: seq<Block>, from: nat, k: nat)
    requires Shuffles(stream, blocks, from) && k < |blocks|
    ensures Position(stream, from + k) < |stream| && stream[Position(stream, from + k)] == Fetched(blocks[k])
  {
    assert Fetches(blocks)[k] in multiset(Fetches(blocks));
    assert Fetched(blocks[k]) in stream;
    var i :| 0 <= i < |stream| && stream[i] == Fetched(blocks[k]);
    assert Carries(stream, i, from + k);
    var p := Position(stream, from + k);
    ShuffledOnce(stream, blocks, from, i, p, from + k);
  }

  /** A shuffled range arrives, each block at its position. */
  lemma ShuffleArrives(stream: seq<Fetch>, blocks: seq<Block>, from: nat, to: nat)
    requires Shuffles(stream, blocks, from) && from <= to && |blocks| == to - from + 1
    ensures Arrives(stream, from, to, (n: nat) => Position(stream, n))
    ensures forall k :: 0 <= k < |blocks| ==> BlockAt(stream, Position(stream, from + k)) == blocks[k]
  {
    var index := (n: nat) => Position(stream, n);
    forall i: nat | i < |stream|
      ensures stream[i].Fetched? && from <= stream[i].block.number <= to && index(stream[i].block.number) == i
    {
      var k := ShuffledFetch(stream, blocks, from, i);
      ShuffledPosition(stream, blocks, from, k);
      ShuffledOnce(stream, blocks, from, i, Position(stream, from + k), from + k);
    }
    forall n: nat | from <= n <= to
      ensures index(n) < |stream| && stream[index(n)] == Fetched(BlockAt(stream, index(n)))
      ensures BlockAt(stream, index(n)).number == n && BlockAt(stream, Position(stream, n)) == blocks[n - from]
    {
      ShuffledPosition(stream, blocks, from, n - from);
    }
    forall k | 0 <= k < |blocks| ensures BlockAt(stream, Position(stream, from + k)) == blocks[k] {
      ShuffledPosition(stream, blocks, from, k);
    }
  }

  /**
   The capture of a range. Whatever the order in which its blocks arrive, it processes exactly these
   blocks in ascending order and leaves nothing parked, unless the range ends at the last 64-bit
   number: then the counter overflows. A build with overflow checks stops there; in one without, the
   counter wraps, the loop asks for a block that never comes and fails on the ended stream. For any
   stream at all, `read` is how far it was read: up to a failed fetch, which ends the loop, or its
   end, or until the blocks of the range, each read from it, are processed.
   */
  method CaptureInOrder(stream: seq<Fetch>, from: nat, to: nat, overflowChecks: bool, ghost blocks: seq<Block>)
    returns (r: Outcome, pending: map<nat, Block>, ghost read: nat)
    requires from <= to <= U64_MAX
    ensures Shuffles(stream, blocks, from) && |blocks| == to - from + 1 && to < U64_MAX ==>
              r == Processed(blocks) && pending == map[]
    ensures Shuffles(stream, blocks, from) && |blocks| == to - from + 1 && to == U64_MAX ==>
              r == if overflowChecks then CounterOverflow else StreamEnded
    ensures r.CounterOverflow? ==> overflowChecks && to == U64_MAX
    ensures read <= |stream| && forall i :: 0 <= i < read ==> stream[i].Fetched?
    ensures r.FetchError? ==> read < |stream| && stream[read].Failed?
    ensures r.StreamEnded? ==> read == |stream|
    ensures r.Processed? ==> |r.blocks| == to - from + 1 && AllRead(r.blocks, stream, from, read)
  {
    r, pending, read := CaptureLoop(stream, from, to, overflowChecks, (n: nat) => Position(stream, n));
    if Shuffles(stream, blocks, from) && |blocks| == to - from + 1 {
      ShuffleArrives(stream, blocks, from, to);
      if to < U64_MAX { assert r.blocks == blocks; }
    }
  }
}
