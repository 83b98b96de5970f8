/** The greedy batching of agent/spool_batch.go. */
module Batching {
  import opened Contract

  /** Room reserved in every request for the batch envelope. */
  const ENVELOPE: nat := 1024

  /** Longest encoded entry a batch can hold on its own. */
  const MAX_SENDABLE: nat := 130_048

  /** Bytes an entry may take in a request: re-encoding can double it and adds identity fields. */
  function Cost(encoded: nat): nat { 2 * encoded + 1024 }

  /** Upper bound on the body of a request holding entries a..b, given the entries' encoded lengths. */
  function BodyBound(lens: seq<nat>, a: nat, b: nat): nat
    requires a <= b <= |lens|
  {
    if a == b then ENVELOPE else BodyBound(lens, a, b - 1) + Cost(lens[b - 1])
  }

  /** end is where a batch starting at next stops: it fits, and it could not be longer. */
  ghost predicate Greedy(lens: seq<nat>, next: nat, max: nat, end: nat) {
    && next <= end <= |lens|
    && end - next <= max
    && BodyBound(lens, next, end) <= MAX_BATCH_BYTES
    && (end == |lens| || end - next == max || BodyBound(lens, next, end + 1) > MAX_BATCH_BYTES)
  }

  lemma {:induction false} BodyBoundMonotone(lens: seq<nat>, a: nat, b: nat, c: nat)
    requires a <= b <= c <= |lens|
    ensures BodyBound(lens, a, b) <= BodyBound(lens, a, c)
    decreases c
  {
    if b < c {
      BodyBoundMonotone(lens, a, b, c - 1);
    }
  }

  lemma GreedyUnique(lens: seq<nat>, next: nat, max: nat, e1: nat, e2: nat)
    requires Greedy(lens, next, max, e1) && Greedy(lens, next, max, e2)
    ensures e1 == e2
  {
    if e1 < e2 {
      BodyBoundMonotone(lens, next, e1 + 1, e2);
    } else if e2 < e1 {
      BodyBoundMonotone(lens, next, e2 + 1, e1);
    }
  }

  function Grow(lens: seq<nat>, next: nat, end: nat, max: nat): (r: nat)
    requires next <= end <= |lens| && end - next <= max
    requires BodyBound(lens, next, end) <= MAX_BATCH_BYTES
    ensures Greedy(lens, next, max, r)
    decreases |lens| - end
  {
    if end < |lens| && end - next < max && BodyBound(lens, next, end + 1) <= MAX_BATCH_BYTES
    then Grow(lens, next, end + 1, max) else end
  }

  /** Where the batch that starts at next ends. */
  function BatchEnd(lens: seq<nat>, next: nat, max: nat): (r: nat)
    requires next <= |lens|
    ensures Greedy(lens, next, max, r)
  {
    Grow(lens, next, next, max)
  }

  /** The loop of DrainBatches that grows a batch. */
  method NextBatch(lens: seq<nat>, next: nat, max: nat) returns (end: nat)
    requires next <= |lens|
    ensures Greedy(lens, next, max, end)
  {
    end := next;
    var size := ENVELOPE;
    while end < |lens| && end - next < max
      invariant next <= end <= |lens| && end - next <= max
      invariant size == BodyBound(lens, next, end) <= MAX_BATCH_BYTES
    {
      var cost := Cost(lens[end]);
      if size + cost > MAX_BATCH_BYTES {
        break;
      }
      size := size + cost;
      end := end + 1;
    }
  }

  /** A batch is empty exactly when its first entry cannot be sent at all. */
  lemma BlockedBySize(lens: seq<nat>, next: nat, max: nat)
    requires next < |lens| && max >= 1
    ensures BatchEnd(lens, next, max) == next <==> lens[next] > MAX_SENDABLE
  {
    assert BodyBound(lens, next, next + 1) == ENVELOPE + Cost(lens[next]);
  }

  /** The ends of the batches of one segment, in order, until it is finished or blocked. */
  function Cuts(lens: seq<nat>, next: nat, max: nat): seq<nat>
    requires next <= |lens|
    decreases |lens| - next
  {
    var end := BatchEnd(lens, next, max);
    if end == next then [] else [end] + Cuts(lens, end, max)
  }

  function Before(next: nat, cuts: seq<nat>, i: nat): nat
    requires i <= |cuts|
  {
    if i == 0 then next else cuts[i - 1]
  }

  /** Each batch starts where the previous one ended, and is non-empty and greedy. */
  ghost predicate Tiles(lens: seq<nat>, next: nat, max: nat, cuts: seq<nat>) {
    forall i :: 0 <= i < |cuts| ==>
      Before(next, cuts, i) < cuts[i] && Greedy(lens, Before(next, cuts, i), max, cuts[i])
  }

  lemma TilesMore(lens: seq<nat>, next: nat, end: nat, max: nat, rest: seq<nat>)
    requires next < end && Greedy(lens, next, max, end) && Tiles(lens, end, max, rest)
    ensures Tiles(lens, next, max, [end] + rest)
    ensures Before(next, [end] + rest, |rest| + 1) == Before(end, rest, |rest|)
  {
    hide Greedy;
    var cuts := [end] + rest;
    forall i | 0 <= i < |cuts|
      ensures Before(next, cuts, i) < cuts[i] && Greedy(lens, Before(next, cuts, i), max, cuts[i])
    {
      if i > 0 {
        BeforeMore(next, end, rest, i);
        var j := i - 1;
        assert Before(end, rest, j) < rest[j] && Greedy(lens, Before(end, rest, j), max, rest[j]);
      }
    }
    BeforeMore(next, end, rest, |cuts|);
  }

  lemma BeforeMore(next: nat, end: nat, rest: seq<nat>, i: nat)
    requires 1 <= i <= |rest| + 1
    ensures Before(next, [end] + rest, i) == Before(end, rest, i - 1) && (i <= |rest| ==> ([end] + rest)[i] == rest[i - 1])
  {
  }

  lemma CutsStep(lens: seq<nat>, next: nat, max: nat)
    requires next <= |lens|
    ensures var end := BatchEnd(lens, next, max);
      Cuts(lens, next, max) == if end == next then [] else [end] + Cuts(lens, end, max)
  {
  }

  /** Every record from `next` on can be sent. */
  ghost predicate AllSendable(lens: seq<nat>, next: nat) {
    forall i :: next <= i < |lens| ==> lens[i] <= MAX_SENDABLE
  }

  /**
   The batches tile the unacknowledged suffix: each starts where the previous one
   ended, is non-empty and greedy, and together they reach the end of the segment
   if and only if every entry left is small enough to be sent.
   */
  lemma {:induction false} BatchesTile(lens: seq<nat>, next: nat, max: nat)
    requires next <= |lens| && max >= 1
    ensures var cuts := Cuts(lens, next, max);
      && Tiles(lens, next, max, cuts)
      && (Before(next, cuts, |cuts|) == |lens| <==> AllSendable(lens, next))
    decreases |lens| - next
  {
    hide Cuts, BatchEnd, Tiles, BodyBound;
    var end := BatchEnd(lens, next, max);
    CutsStep(lens, next, max);
    NoTiles(lens, next, max);
    if next < |lens| {
      BlockedBySize(lens, next, max);
      if end > next {
        BatchSendable(lens, next, end);
        BatchesTile(lens, end, max);
        TilesMore(lens, next, end, max, Cuts(lens, end, max));
      }
    }
  }

  lemma NoTiles(lens: seq<nat>, next: nat, max: nat)
    ensures Tiles(lens, next, max, [])
  {
  }

  lemma {:induction false} BatchSendable(lens: seq<nat>, a: nat, b: nat)
    requires a <= b <= |lens| && BodyBound(lens, a, b) <= MAX_BATCH_BYTES
    ensures forall i :: a <= i < b ==> lens[i] <= MAX_SENDABLE
    decreases b
  {
    if a < b {
      BodyBoundMonotone(lens, a, a, b - 1);
      BatchSendable(lens, a, b - 1);
    }
  }

  function Sum(xs: seq<nat>): nat { if xs == [] then 0 else Sum(xs[..|xs| - 1]) + xs[|xs| - 1] }

  /**
   If every entry re-encodes, separator included, to at most twice its length plus
   1024 bytes, the body of a batch stays within the transport limit.
   */
  lemma {:induction false} BodyFits(lens: seq<nat>, next: nat, max: nat, end: nat, sent: seq<nat>)
    requires next <= end <= |lens| && |sent| == end - next
    requires forall i :: 0 <= i < |sent| ==> sent[i] <= Cost(lens[next + i])
    ensures ENVELOPE + Sum(sent) <= BodyBound(lens, next, end)
    ensures Greedy(lens, next, max, end) ==> ENVELOPE + Sum(sent) <= MAX_BATCH_BYTES
    decreases end
  {
    if next < end {
      BodyFits(lens, next, max, end - 1, sent[..|sent| - 1]);
    }
  }
}
