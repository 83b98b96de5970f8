/** The disk budget of the queue (agent/spool.go). */
module SpoolBound {
  import opened Common
  import opened Identity
  import opened Spool
  import opened SpoolSafety

  ghost predicate SmallSegments(m: map<int, Segment>) { forall k :: k in m ==> m[k].bytes <= MAX_SEGMENT_BYTES }

  /** The segment whose removal is not yet synced: the drain still holds the lock. */
  ghost function Leaving(c: Control, unlinked: map<int, Segment>): map<int, Segment> {
    if c.Unlinked? && c.paths != [] && c.paths[0] in unlinked then map[c.paths[0] := unlinked[c.paths[0]]] else map[]
  }

  /** Segments whose removal a failed sync left unsure. */
  ghost function Stale(n: Node): map<int, Segment> { n.unlinked - Leaving(n.control, n.unlinked).Keys }

  ghost function Part(m: map<int, Segment>, ks: set<int>): map<int, Segment> { map k | k in m && k in ks :: m[k] }

  /** Live and quarantined segments, and the one being removed, within the budget and `extra`. */
  ghost predicate Fits(
    live: map<int, Segment>, jail: map<int, Segment>, unlinked: map<int, Segment>, leaving: map<int, Segment>, extra: nat)
  {
    && Bytes(live) + Bytes(jail) + Bytes(leaving) <= MAX_SPOOL_BYTES + extra
    && SmallSegments(live) && SmallSegments(jail) && SmallSegments(unlinked)
    && live.Keys !! unlinked.Keys
  }

  /** The size counter of the open segment is the size of its file. */
  ghost predicate Counted(live: map<int, Segment>, current: Option<int>, curSize: nat) {
    current.Some? ==> current.value in live && live[current.value].bytes == curSize
  }

  ghost predicate FitsNode(n: Node, extra: nat) { Fits(n.live, n.jail, n.unlinked, Leaving(n.control, n.unlinked), extra) }

  ghost predicate Sized(n: Node, extra: nat) { FitsNode(n, extra) && Counted(n.live, n.current, n.curSize) }

  ghost function Sizes(m: map<int, Segment>): map<int, nat> { map k | k in m :: m[k].bytes }

  lemma BytesPut(m: map<int, Segment>, k: int, s: Segment)
    ensures Bytes(m[k := s]) == Bytes(m) + s.bytes - (if k in m then m[k].bytes else 0)
  {
    TotalUpdate(Sizes(m), k, s.bytes);
    assert Sizes(m[k := s]) == Sizes(m)[k := s.bytes];
  }

  lemma BytesTake(m: map<int, Segment>, k: int)
    requires k in m
    ensures Bytes(m - {k}) == Bytes(m) - m[k].bytes
  {
    TotalRemove(Sizes(m), k);
    assert Sizes(m - {k}) == Sizes(m) - {k};
  }

  lemma NoBytes()
    ensures Bytes(map[]) == 0
  {
    assert Sizes(map[]) == map[];
  }

  lemma {:induction false} BytesUnion(a: map<int, Segment>, b: map<int, Segment>)
    requires a.Keys !! b.Keys
    ensures Bytes(a + b) == Bytes(a) + Bytes(b)
    decreases b.Keys
  {
    NoBytes();
    if b == map[] {
      assert a + b == a;
    } else {
      assert b.Keys != {};
      var k := Member(b.Keys);
      BytesUnion(a, b - {k});
      BytesTake(b, k);
      BytesPut(a + (b - {k}), k, b[k]);
      assert (a + (b - {k}))[k := b[k]] == a + b;
    }
  }

  lemma SizedOpened(n: Node, w: Write, extra: nat)
    requires Inv(n) && Sized(n, extra) && Admitted(n, w)
    ensures var o := Opened(n, w); Sized(o, extra) && o.current.Some? && o.curSize + Line(w) <= MAX_SEGMENT_BYTES
    ensures Bytes(Opened(n, w).live) == Bytes(n.live)
  {
    BytesPut(n.live, w.name, EMPTY);
  }

  /** The current segment grows by at most the line the budget was checked for. */
  lemma FitsGrows(n: Node, w: Write, c: int, s: Segment, r: Node, extra: nat)
    requires Inv(n) && Sized(n, extra) && Admitted(n, w)
    requires Opened(n, w).current == Some(c) && c in Opened(n, w).live
    requires var old' := Opened(n, w).live[c]; old'.bytes <= s.bytes <= old'.bytes + Line(w)
    requires r.live == Opened(n, w).live[c := s] && r.jail == n.jail && r.unlinked == n.unlinked && r.control == n.control
    ensures FitsNode(r, extra)
  {
    NoBytes();
    SizedOpened(n, w, extra);
    BytesPut(Opened(n, w).live, c, s);
  }

  lemma SizedAppended(n: Node, w: Write, synced: bool, extra: nat)
    requires Inv(n) && Sized(n, extra) && Admitted(n, w)
    ensures Sized(Appended(n, w, synced), extra)
  {
    SizedOpened(n, w, extra);
    InvOpened(n, w);
    var o := Opened(n, w);
    var c := o.current.value;
    FitsGrows(n, w, c, Written(o.live[c], NewEntry(n, w)), Appended(n, w, synced), extra);
  }

  /** A crash brings back what was being removed, which was counted, and stale removals, which were not. */
  lemma SizedRestarted(n: Node, restored: set<int>, extra: nat)
    requires FitsNode(n, extra)
    ensures Sized(Restarted(n, restored), extra + Bytes(Part(Stale(n), restored)))
  {
    hide SmallSegments;
    var r := Restarted(n, restored);
    var leave := Leaving(n.control, n.unlinked);
    var back, stale, leaving := Part(n.unlinked, restored), Part(Stale(n), restored), Part(leave, restored);
    assert back == leaving + stale && r.live == n.live + back;
    SmallUnion(n.live, n.unlinked, restored);
    BytesUnion(leaving, stale);
    BytesUnion(n.live, back);
    PartFits(leave, restored);
    NoBytes();
  }

  lemma SmallUnion(a: map<int, Segment>, b: map<int, Segment>, ks: set<int>)
    requires SmallSegments(a) && SmallSegments(b)
    ensures SmallSegments(a + Part(b, ks)) && SmallSegments(map[])
  {
  }

  lemma PartFits(m: map<int, Segment>, ks: set<int>)
    ensures Bytes(Part(m, ks)) <= Bytes(m)
  {
    var rest := m - ks;
    assert Part(m, ks) + rest == m;
    BytesUnion(Part(m, ks), rest);
  }

  lemma FitsTorn(n: Node, w: Write, part: nat, extra: nat)
    requires Inv(n) && Sized(n, extra) && Admitted(n, w) && part < Line(w)
    ensures FitsNode(Torn(n, w, part), extra)
  {
    SizedOpened(n, w, extra);
    InvOpened(n, w);
    var o := Opened(n, w);
    var c := o.current.value;
    FitsGrows(n, w, c, o.live[c].(bytes := o.live[c].bytes + part, corrupt := true), Torn(n, w, part), extra);
  }

  lemma SizedMoved(n: Node, p: int, extra: nat)
    requires Inv(n) && Sized(n, extra) && p in n.live && n.current != Some(p) && !n.control.Unlinked?
    ensures Sized(MoveSegment(n, p).(control := Idle), extra)
  {
    BytesTake(n.live, p);
    BytesPut(n.jail, p, n.live[p]);
  }

  lemma SizedUnlink(n: Node, paths: seq<int>, next: nat, extra: nat)
    requires Inv(n) && Sized(n, extra) && n.control == Reading(paths, next)
    ensures Sized(Unlink(n, paths, next), extra)
  {
    var p := paths[0];
    assert p in n.live && n.current != Some(p);
    hide Inv, Bytes;
    var r := Unlink(n, paths, next);
    NoBytes();
    BytesTake(n.live, p);
    BytesPut(map[], p, n.live[p]);
    if r != n {
      assert Leaving(r.control, r.unlinked) == map[][p := n.live[p]];
    }
  }

  lemma SizedRead(n: Node, paths: seq<int>, extra: nat)
    requires Inv(n) && Sized(n, extra) && n.control == Ready(paths)
    ensures Sized(ReadNext(n, paths), extra)
  {
    hide Bytes, Fits, Counted, Filed, Destined;
    if paths != [] && paths[0] in n.live && n.live[paths[0]].corrupt {
      SizedMoved(n, paths[0], extra);
    }
  }

  lemma SizedSend(n: Node, paths: seq<int>, next: nat, extra: nat)
    requires Sized(n, extra) && n.control == Reading(paths, next)
    ensures Sized(SendNext(n, paths, next), extra)
  {
    hide Bytes, Fits, Counted, Lens;
  }

  /** The removal is settled, or its sync failed and the drain goes on without it. */
  lemma SizedSynced(n: Node, c: Control, synced: bool, extra: nat)
    requires Sized(n, extra) && !c.Unlinked?
    ensures Sized(n.(unlinked := if synced then map[] else n.unlinked, control := c), extra)
  {
    NoBytes();
  }

  lemma SizedDrain(n: Node, a: Action, extra: nat)
    requires Inv(n) && Sized(n, extra) && !n.control.Rebinding?
    ensures Sized(Drain(n, a), extra)
  {
    hide Bytes, Fits, Counted, Inv, Sorted, SendNext, Unlink, ReadNext;
    match (a, n.control)
    case (DrainStart, Idle) => NoneOpen(n.live);
    case (ReadSegment, Ready(paths)) => SizedRead(n, paths, extra);
    case (Send, Reading(paths, next)) => SizedSend(n, paths, next, extra);
    case (RemoveSegment, Reading(paths, next)) => SizedUnlink(n, paths, next, extra);
    case (SyncDir, Unlinked(paths)) => SizedSynced(n, Synced(paths), true, extra);
    case (SyncFail, Unlinked(paths)) => SizedSynced(n, Idle, false, extra);
    case _ =>
  }

  lemma NoneOpen(live: map<int, Segment>)
    ensures Counted(live, None, 0)
  {
  }

  lemma SizedRebind(n: Node, a: Action, extra: nat)
    requires Inv(n) && Sized(n, extra) && n.control.Rebinding?
    ensures Sized(Rebind(n, a), extra)
  {
    hide Bytes, Fits, Counted, Filed, Destined;
    var Rebinding(t, todo, moved) := n.control;
    if a.JailSegment? && todo != [] && !moved && todo[0] in n.live {
      SizedMoved(n, todo[0], extra);
    }
  }

  /** The step is a crash that happens. */
  ghost predicate Crashes(n: Node, a: Action) {
    || a.Crash?
    || (a.CrashInAppend? && Admitted(n, a.w) && 0 < a.part < Line(a.w))
    || (a.CrashAfterWrite? && Admitted(n, a.w))
  }

  /** The state the crash meets. */
  ghost function AtCrash(n: Node, a: Action): Node
    requires Crashes(n, a)
  {
    if a.Crash? then n else if a.CrashInAppend? then Torn(n, a.w, a.part) else Appended(n, a.w, false)
  }

  /** What a step brings back beyond what the budget counted. */
  ghost function Back(n: Node, a: Action): nat {
    if Crashes(n, a) then Bytes(Part(Stale(AtCrash(n, a)), a.restored)) else 0
  }

  lemma SizedFailed(n: Node, w: Write, fault: AppendFault, extra: nat)
    requires Inv(n) && Sized(n, extra) && Admitted(n, w)
    ensures Sized(Failed(n, w, fault), extra)
  {
    hide Bytes, Fits, Opened;
    SizedOpened(n, w, extra);
    NoneOpen(n.live);
    NoneOpen(Opened(n, w).live);
  }

  lemma SizedStep(n: Node, a: Action, extra: nat)
    requires Inv(n) && Sized(n, extra)
    ensures Sized(Do(n, a), extra + Back(n, a))
  {
    hide Inv, FitsNode, Counted, Appended, Opened, Failed, Torn, Restarted, Bind, Rebind, Drain, Bytes, Stale;
    match a
    case Append(w, synced) =>
      if Admitted(n, w) {
        SizedAppended(n, w, synced, extra);
      }
    case AppendFail(w, fault) =>
      if Admitted(n, w) {
        SizedFailed(n, w, fault, extra);
      }
    case Crash(restored) => SizedRestarted(n, restored, extra);
    case CrashInAppend(w, part, restored) =>
      if Admitted(n, w) && 0 < part < Line(w) {
        FitsTorn(n, w, part, extra);
        InvTorn(n, w, part);
        SizedRestarted(Torn(n, w, part), restored, extra);
      }
    case CrashAfterWrite(w, restored) =>
      if Admitted(n, w) {
        SizedAppended(n, w, false, extra);
        InvAppended(n, w, false);
        SizedRestarted(Appended(n, w, false), restored, extra);
      }
    case BindStart(t) => SizedBind(n, t, extra);
    case _ =>
      if n.control.Rebinding? {
        SizedRebind(n, a, extra);
      } else {
        SizedDrain(n, a, extra);
      }
  }

  lemma SizedBind(n: Node, t: Binding, extra: nat)
    requires Sized(n, extra)
    ensures Sized(Bind(n, t), extra)
  {
    hide Bytes, Fits, Counted, Sorted, Mismatch, Merged;
    NoneOpen(n.live);
    if n.control.Idle? && Complete(t) {
      if Mismatch(n.binding, t.origin, t.tenant, t.server) {
        assert Sized(SealSegment(n).(control := Rebinding(t, Sorted(n.live.Keys), false)), extra);
      } else {
        assert Sized(Bind(n, t), extra);
      }
    }
  }

  /** The bytes of segments that crashes brought back although a drain had removed them and gone on. */
  ghost function Returned(acts: seq<Action>): nat {
    if acts == [] then 0 else
      var init := acts[..|acts| - 1];
      Returned(init) + Back(Run(NEW_NODE, init), acts[|acts| - 1])
  }

  lemma {:induction false} AlwaysSized(acts: seq<Action>)
    ensures Inv(Run(NEW_NODE, acts)) && Sized(Run(NEW_NODE, acts), Returned(acts))
  {
    if acts == [] {
      NoBytes();
    } else {
      var init := acts[..|acts| - 1];
      AlwaysSized(init);
      InvStep(Run(NEW_NODE, init), acts[|acts| - 1]);
      SizedStep(Run(NEW_NODE, init), acts[|acts| - 1], Returned(init));
    }
  }

  /** Only a failed directory sync leaves a removal unsure. */
  ghost predicate Sure(c: Control, unlinked: map<int, Segment>) {
    unlinked == map[] || (c.Unlinked? && c.paths != [] && unlinked.Keys == {c.paths[0]})
  }

  lemma SureIsStaleless(n: Node)
    requires Sure(n.control, n.unlinked)
    ensures Stale(n) == map[]
  {
  }

  lemma SureAtCrash(n: Node, a: Action)
    requires Sure(n.control, n.unlinked) && Crashes(n, a)
    ensures Stale(AtCrash(n, a)) == map[]
  {
    hide Bytes, Stale, Appended, Torn, Failed;
    if !a.Crash? {
      AppendsKeep(n, a.w, if a.CrashInAppend? then a.part else 0, NotSealed);
    }
    assert AtCrash(n, a).control == n.control && AtCrash(n, a).unlinked == n.unlinked;
    SureIsStaleless(AtCrash(n, a));
  }

  /** No append, whole, torn or failed, touches removals or the control state. */
  lemma AppendsKeep(n: Node, w: Write, part: nat, fault: AppendFault)
    ensures forall r :: r in {Torn(n, w, part), Failed(n, w, fault)} ==> r.control == n.control && r.unlinked == n.unlinked
    ensures n.binding.Some? ==>
      forall b :: Appended(n, w, b).control == n.control && Appended(n, w, b).unlinked == n.unlinked
  {
  }

  lemma SureStep(n: Node, a: Action)
    requires Sure(n.control, n.unlinked) && !a.SyncFail?
    ensures var r := Do(n, a); Sure(r.control, r.unlinked)
  {
    hide Sorted, Mismatch, Merged, Lens, Bytes, Drain, Appended, Torn, Failed;
    match a
    case Append(w, synced) => AppendsKeep(n, w, 0, NotSealed);
    case AppendFail(w, fault) => AppendsKeep(n, w, 0, fault);
    case Crash(restored) =>
    case CrashInAppend(w, part, restored) =>
    case CrashAfterWrite(w, restored) =>
    case BindStart(t) =>
    case _ =>
      if n.control.Rebinding? {
      } else {
        SureDrain(n, a);
      }
  }

  lemma SureDrain(n: Node, a: Action)
    requires Sure(n.control, n.unlinked) && !a.SyncFail?
    ensures var r := Drain(n, a); Sure(r.control, r.unlinked)
  {
    hide Sorted, Lens;
  }

  lemma {:induction false} NoneReturned(acts: seq<Action>)
    requires forall i :: 0 <= i < |acts| ==> !acts[i].SyncFail?
    ensures var n := Run(NEW_NODE, acts); Sure(n.control, n.unlinked)
    ensures Returned(acts) == 0
  {
    if acts != [] {
      var init, a := acts[..|acts| - 1], acts[|acts| - 1];
      NoneReturned(init);
      var n := Run(NEW_NODE, init);
      SureStep(n, a);
      hide Do, Sure, Stale;
      if Crashes(n, a) {
        SureAtCrash(n, a);
        assert Part(Stale(AtCrash(n, a)), a.restored) == map[];
        NoBytes();
      }
    }
  }

  /**
   Whatever runs, live and quarantined segments together take at most 100 MiB and
   what crashes brought back after a directory sync had failed, and no segment
   takes more than 8 MiB. With syncs that succeed nothing is brought back so, and
   the bound is 100 MiB, even when crashes tear records or undo a removal.
   */
  lemma DiskBudget(acts: seq<Action>)
    ensures var n := Run(NEW_NODE, acts);
      && Bytes(n.live) + Bytes(n.jail) <= MAX_SPOOL_BYTES + Returned(acts)
      && (forall k :: k in n.live ==> n.live[k].bytes <= MAX_SEGMENT_BYTES)
      && (forall k :: k in n.jail ==> n.jail[k].bytes <= MAX_SEGMENT_BYTES)
    ensures (forall i :: 0 <= i < |acts| ==> !acts[i].SyncFail?) ==> Returned(acts) == 0
  {
    AlwaysSized(acts);
    if forall i :: 0 <= i < |acts| ==> !acts[i].SyncFail? {
      NoneReturned(acts);
    }
  }

  // ---- Passing the budget --------------------------------------------------

  /** Bytes of all segments in the spool. */
  ghost function Held(n: Node): nat { Bytes(n.live) + Bytes(n.jail) }

  /** A crash adds exactly the segments it brings back. */
  lemma CrashAdds(n: Node, restored: set<int>)
    requires n.live.Keys !! n.unlinked.Keys
    ensures Held(Restarted(n, restored)) == Held(n) + Bytes(Part(n.unlinked, restored))
  {
    var back := Part(n.unlinked, restored);
    assert Restarted(n, restored).live == n.live + back;
    BytesUnion(n.live, back);
  }

  lemma QuietUnlinked(n: Node, a: Action)
    requires n.control.Unlinked? && !Crashes(n, a)
    ensures Do(n, a).live == n.live && Do(n, a).jail == n.jail
  {
    hide Bytes, Sorted;
  }

  lemma WithoutCrash(n: Node, a: Action)
    requires Inv(n) && Sized(n, Bytes(Leaving(n.control, n.unlinked))) && Held(n) <= MAX_SPOOL_BYTES && !Crashes(n, a)
    ensures Held(Do(n, a)) <= MAX_SPOOL_BYTES
  {
    hide Do, Inv, Bytes;
    NoBytes();
    if n.control.Unlinked? {
      QuietUnlinked(n, a);
    } else {
      SizedStep(n, a, 0);
    }
  }

  /**
   Exactly when the budget is passed: from any state a run reaches within 100 MiB,
   the next step leaves it if and only if it is a crash, and what the segments
   hold at the crash together with the removed segments it brings back is more.
   */
  lemma BudgetPassed(acts: seq<Action>, a: Action)
    requires Held(Run(NEW_NODE, acts)) <= MAX_SPOOL_BYTES
    ensures var n := Run(NEW_NODE, acts);
      Held(Do(n, a)) > MAX_SPOOL_BYTES <==>
      Crashes(n, a) && Held(AtCrash(n, a)) + Bytes(Part(AtCrash(n, a).unlinked, a.restored)) > MAX_SPOOL_BYTES
  {
    var n := Run(NEW_NODE, acts);
    var extra := Returned(acts);
    AlwaysSized(acts);
    hide Run, Inv, Bytes, Appended, Torn;
    if !Crashes(n, a) {
      WithoutCrash(n, a);
    } else {
      if a.CrashInAppend? {
        FitsTorn(n, a.w, a.part, extra);
      } else if a.CrashAfterWrite? {
        SizedAppended(n, a.w, false, extra);
      }
      CrashAdds(AtCrash(n, a), a.restored);
    }
  }
}
