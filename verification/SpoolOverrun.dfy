/**
 A run of the queue that passes the disk budget: a segment is removed while the
 spool is nearly full, the directory sync fails, appends to the open segment use
 the space again, and a crash brings the removed segment back.
 */
module SpoolOverrun {
  import opened Common
  import opened Identity
  import opened Contract
  import opened Batching
  import opened Spool
  import opened SpoolBound
  import opened Ledger

  const MIB := 1_048_576
  const TARGET := Binding(Url("https", "hub", ""), "tenant", "server")
  const METRIC := MetricRow(0, 0, "", "", "host", 1.0, 1.0, 1.0, 0, 0, 1, 1.0, 1.0, 0, 0, 1.0, 1.0, 1, 0, 0, 0, 0)
  const SAMPLE := Event("event", "boot", 1, Some(METRIC), None)
  const FIRST := Entry(SAMPLE, 100, TARGET)
  const SENT := Segment([FIRST], 101, false)

  /** A record whose line fills a whole MiB, and a small one. */
  function Large(name: int): Write { Write(SAMPLE, MIB - 1, name, 0) }
  function Small(name: int): Write { Write(SAMPLE, 100, name, 0) }

  /** The record is one the Hub would take, at the time it was made. */
  lemma SampleIsValid()
    ensures ValidEvent(SAMPLE, ScopeOf(TARGET), 0)
  {
  }

  /** And a Hub that has nothing yet does take it. */
  lemma SampleIsTaken(w: Wire)
    requires w.size(Normalized(SAMPLE, ScopeOf(TARGET))) <= 1000
    ensures Accept(Tables(map[], map[], []), w, ScopeOf(TARGET), Batch(INGEST_SCHEMA, [SAMPLE]), Policy(10, 262_144, 10, 262_144), 0).Ok?
  {
    SampleIsValid();
    hide ValidEvent;
    var es := NormalizedAll([SAMPLE], ScopeOf(TARGET));
    assert Admissible(Batch(INGEST_SCHEMA, [SAMPLE]), ScopeOf(TARGET), 0) by {
      assert !Blank("tenant") by {
        assert !Whitespace("tenant"[0]);
      }
    }
    assert es == [Normalized(SAMPLE, ScopeOf(TARGET))] && es[..0] == [];
    var none := Tables(map[], map[], []);
    assert AcceptAll(none, w, ScopeOf(TARGET), es[..0], Policy(10, 262_144, 10, 262_144), 0) == Ok(Commit(none, []));
  }

  lemma RunOne(acts: seq<Action>, a: Action)
    ensures Run(NEW_NODE, acts + [a]) == Do(Run(NEW_NODE, acts), a)
  {
    assert (acts + [a])[..|acts|] == acts;
  }

  /** The first record is out for delivery, and `k` large ones have been queued behind it. */
  ghost predicate Filling(n: Node, k: nat) {
    && n.bound && n.binding == Some(TARGET) && n.control == Waiting([1], 0, 1)
    && n.jail == map[] && n.unlinked == map[] && n.acks == map[]
    && 1 in n.live && n.live[1] == SENT && Bytes(n.live) == 101 + k * MIB && n.lastName >= 1
    && (k == 0 ==> n.current == None)
    && (k > 0 ==>
      n.current.Some? && n.current.value in n.live && n.current.value > 1 && n.curSize == ((k - 1) % 8 + 1) * MIB)
  }

  /** From a new spool to the first record handed over. */
  lemma Begin() returns (acts: seq<Action>)
    ensures Filling(Run(NEW_NODE, acts), 0)
  {
    acts := [] + [BindStart(TARGET)];
    RunOne([], BindStart(TARGET));
    RunOne(acts, BindCommit);
    acts := acts + [BindCommit];
    var bound := Run(NEW_NODE, acts);
    assert bound == NEW_NODE.(binding := Some(TARGET), bound := true);
    NoBytes();
    RunOne(acts, Append(Small(1), true));
    acts := acts + [Append(Small(1), true)];
    BytesPut(map[], 1, SENT);
    QueueFirst(bound);
    acts := HandOver(acts, Run(NEW_NODE, acts));
  }

  lemma QueueFirst(n: Node)
    requires n == NEW_NODE.(binding := Some(TARGET), bound := true)
    ensures var r := Do(n, Append(Small(1), true));
      r.live == map[1 := SENT] && r == n.(live := r.live, current := Some(1), curSize := 101, lastName := 1, stored := r.stored)
  {
    NoBytes();
    var w := Small(1);
    assert Admitted(n, w);
    var o := Opened(n, w);
    assert o.live == map[1 := EMPTY] && o.current == Some(1);
    assert Written(EMPTY, NewEntry(n, w)) == SENT;
    assert Appended(n, w, true).live == map[1 := SENT];
  }

  lemma HandOver(acts: seq<Action>, n: Node) returns (more: seq<Action>)
    requires n == Run(NEW_NODE, acts) && n.live == map[1 := SENT] && n.bound && n.binding == Some(TARGET) && n.control == Idle
    requires n.jail == map[] && n.unlinked == map[] && n.acks == map[] && n.lastName == 1 && Bytes(n.live) == 101
    ensures Filling(Run(NEW_NODE, more), 0)
  {
    hide Run, Do, Bytes;
    RunOne(acts, DrainStart);
    RunOne(acts + [DrainStart], ReadSegment);
    RunOne(acts + [DrainStart] + [ReadSegment], Send);
    more := acts + [DrainStart] + [ReadSegment] + [Send];
    ListFirst(n);
    SendFirst(n.(current := None, curSize := 0, control := Reading([1], 0)));
  }

  lemma ListFirst(n: Node)
    requires n.live == map[1 := SENT] && n.bound && n.control == Idle && n.acks == map[]
    ensures Do(Do(n, DrainStart), ReadSegment) == n.(current := None, curSize := 0, control := Reading([1], 0))
  {
    hide Bytes, Sorted;
    OnlyOne(n.live.Keys);
    assert Do(n, DrainStart) == n.(current := None, curSize := 0, control := Ready([1]));
  }

  lemma SendFirst(n: Node)
    requires n.live == map[1 := SENT] && n.binding == Some(TARGET) && n.control == Reading([1], 0)
    ensures var r := Do(n, Send); r == n.(control := Waiting([1], 0, 1), log := r.log)
  {
    hide Bytes;
    var lens := Lens([FIRST]);
    BlockedBySize(lens, 0, MAX_BATCH_EVENTS);
    assert BatchEnd(lens, 0, MAX_BATCH_EVENTS) == 1;
  }

  lemma OnlyOne(s: set<int>)
    requires s == {1}
    ensures Sorted(s) == [1]
  {
    var r := Sorted(s);
    assert 1 in r;
    forall i | 0 <= i < |r| ensures r[i] == 1 {
      var x := r[i];
      assert x in r;
    }
    if |r| > 1 {
      TwoIncrease(r);
    }
  }

  lemma TwoIncrease(r: seq<int>)
    requires Increasing(r) && |r| > 1
    ensures r[0] < r[1]
  {
  }

  lemma Admits(n: Node, k: nat)
    requires Filling(n, k) && k < 99
    ensures Admitted(n, Large(n.lastName + 1))
  {
    NoBytes();
  }

  lemma FillOne(n: Node, k: nat)
    requires Filling(n, k) && k < 99 && (forall i :: i in n.live ==> i <= n.lastName)
    ensures var r := Do(n, Append(Large(n.lastName + 1), true)); Filling(r, k + 1) && forall i :: i in r.live ==> i <= r.lastName
  {
    Admits(n, k);
    Cycle(k);
    hide Bytes, Admitted;
    var w := Large(n.lastName + 1);
    if k > 0 && (k - 1) % 8 < 7 {
      assert Opened(n, w) == n;
      BytesPut(n.live, n.current.value, Written(n.live[n.current.value], NewEntry(n, w)));
    } else {
      var next := Written(EMPTY, NewEntry(n, w));
      BytesPut(n.live, w.name, next);
      assert Appended(n, w, true).live == n.live[w.name := next];
    }
  }

  /** Eight large records fill a segment. */
  lemma Cycle(k: nat)
    ensures k > 0 && (k - 1) % 8 < 7 ==> k % 8 == (k - 1) % 8 + 1
    ensures k > 0 && (k - 1) % 8 == 7 ==> k % 8 == 0
  {
  }

  lemma {:induction false} Fill(k: nat) returns (acts: seq<Action>)
    requires k <= 99
    ensures var n := Run(NEW_NODE, acts); Filling(n, k) && forall i :: i in n.live ==> i <= n.lastName
  {
    hide Do, Run;
    if k == 0 {
      acts := Begin();
      Named(acts);
    } else {
      acts := Fill(k - 1);
      var n := Run(NEW_NODE, acts);
      FillOne(n, k - 1);
      RunOne(acts, Append(Large(n.lastName + 1), true));
      acts := acts + [Append(Large(n.lastName + 1), true)];
    }
  }

  lemma Named(acts: seq<Action>)
    ensures var n := Run(NEW_NODE, acts); forall i :: i in n.live ==> i <= n.lastName
  {
    AlwaysSized(acts);
  }

  /** The first segment is gone, its removal unsure, and one more record has taken its place. */
  lemma Refill(n: Node) returns (r: Node)
    requires Filling(n, 99)
    ensures r == Do(Do(Do(Do(n, GotAck), Checkpoint), RemoveSegment), SyncFail)
    ensures r.unlinked == map[1 := SENT] && 1 !in r.live && r.jail == map[] && r.control == Idle && Bytes(r.live) == 99 * MIB
    ensures r.bound && r.binding == n.binding && r.current == n.current && r.curSize == 3 * MIB && r.lastName == n.lastName
    ensures r.current.Some? && r.current.value in r.live
  {
    hide Do, Bytes;
    BytesTake(n.live, 1);
    r := n.(live := n.live - {1}, acks := map[1 := 1], unlinked := map[1 := SENT], control := Idle);
    CheckFirst(n);
    RemoveFirst(n.(acks := map[1 := 1], control := Reading([1], 1)));
  }

  lemma CheckFirst(n: Node)
    requires n.control == Waiting([1], 0, 1) && n.acks == map[]
    ensures Do(Do(n, GotAck), Checkpoint) == n.(acks := map[1 := 1], control := Reading([1], 1))
  {
    hide Bytes;
    assert Do(n, GotAck) == n.(control := Answered([1], 0, 1));
  }

  lemma RemoveFirst(n: Node)
    requires n.control == Reading([1], 1) && 1 in n.live && n.live[1] == SENT && n.unlinked == map[]
    ensures Do(Do(n, RemoveSegment), SyncFail) == n.(live := n.live - {1}, unlinked := map[1 := SENT], control := Idle)
  {
    hide Bytes;
    assert Do(n, RemoveSegment) == n.(live := n.live - {1}, unlinked := map[1 := SENT], control := Unlinked([1]));
  }

  lemma LastAppend(n: Node) returns (r: Node)
    requires n.unlinked == map[1 := SENT] && 1 !in n.live && n.jail == map[] && n.control == Idle && Bytes(n.live) == 99 * MIB
    requires n.bound && n.binding == Some(TARGET) && n.current.Some? && n.current.value in n.live && n.curSize == 3 * MIB
    ensures r == Do(n, Append(Large(n.lastName + 1), true)) && r.current == n.current
    ensures r.unlinked == n.unlinked && 1 !in r.live && r.jail == map[] && Bytes(r.live) == 100 * MIB
  {
    NoBytes();
    var w := Large(n.lastName + 1);
    var c := n.current.value;
    BytesPut(n.live, c, Written(n.live[c], NewEntry(n, w)));
    assert Admitted(n, w);
    r := Do(n, Append(w, true));
  }

  /** The budget can be passed: the segments of this run hold 100 MiB and 101 bytes. */
  lemma OverBudget() returns (acts: seq<Action>)
    ensures Held(Run(NEW_NODE, acts)) == MAX_SPOOL_BYTES + 101
  {
    hide Do, Run, Bytes;
    acts := Fill(99);
    var n := Run(NEW_NODE, acts);
    RunOne(acts, GotAck);
    RunOne(acts + [GotAck], Checkpoint);
    RunOne(acts + [GotAck] + [Checkpoint], RemoveSegment);
    RunOne(acts + [GotAck] + [Checkpoint] + [RemoveSegment], SyncFail);
    acts := acts + [GotAck] + [Checkpoint] + [RemoveSegment] + [SyncFail];
    var m := Refill(n);
    var last := Append(Large(m.lastName + 1), true);
    RunOne(acts, last);
    acts := acts + [last];
    var full := LastAppend(m);
    RunOne(acts, Crash({1}));
    acts := acts + [Crash({1})];
    Comeback(full);
  }

  lemma Comeback(n: Node)
    requires n.unlinked == map[1 := SENT] && 1 !in n.live && n.jail == map[] && Bytes(n.live) == 100 * MIB
    ensures Held(Do(n, Crash({1}))) == MAX_SPOOL_BYTES + 101
  {
    hide Bytes;
    NoBytes();
    CrashAdds(n, {1});
    BytesPut(map[], 1, SENT);
    assert Part(n.unlinked, {1}) == map[][1 := SENT];
  }
}
