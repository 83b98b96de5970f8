/**
 One Hub replica's authentication cache over the shared registry
 (server/auth.go). Every request is a task that moves in small steps, so that
 lookups, insertions, invalidations, revocations and epoch syncs of any number of
 requests interleave freely; reading the shared epoch and stamping it on the
 replica are separate steps, as are resolving a key, stamping its entry and
 storing it. Times are nanoseconds.
 */
module AuthCache {
  import opened Common
  import Registry
  import RegistryRules

  const SECOND := 1_000_000_000
  const TTL := 60 * SECOND
  const NEGATIVE_TTL := 10 * SECOND
  const INTERVAL := 5 * SECOND
  const CAP := 10_000

  /** The replica's copy of the epoch: the value, when it was read, and when it was stamped. */
  datatype Stamp = Never | Stamp(value: nat, readAt: int, stampAt: int)

  function Value(s: Stamp): nat { if s.Stamp? then s.value else 0 }

  /** A cached answer. `key` is None for a refusal; the last two fields record when it was resolved and stamped. */
  datatype Entry = Entry(key: Option<Registry.Key>, expires: int, epoch: nat, resolvedAt: int, stampedAt: int)

  /** cacheDeadline. */
  function Deadline(now: int, expiresAt: int): int {
    if expiresAt > 0 && expiresAt * SECOND < now + TTL then expiresAt * SECOND else now + TTL
  }

  function MakeEntry(key: Option<Registry.Key>, epoch: nat, resolvedAt: int, now: int): Entry {
    Entry(key, if key.Some? then Deadline(now, key.value.expiresAt) else now + NEGATIVE_TTL, epoch, resolvedAt, now)
  }

  datatype Verdict = Miss | Evict | Hit

  /** authCache.get on the entry it found. */
  function Judge(found: Option<Entry>, epoch: nat, now: int): Verdict {
    if found.None? || now > found.value.expires then Miss
    else if found.value.epoch < epoch then Evict
    else if found.value.key.Some? && found.value.key.value.expiresAt > 0 && now >= found.value.key.value.expiresAt * SECOND then Evict
    else Hit
  }

  /** authCache.put. */
  function Put(cache: map<string, Entry>, h: string, e: Entry): map<string, Entry> {
    if |cache| > CAP then map[h := e] else cache[h := e]
  }

  predicate Stale(seen: Stamp, now: int) { seen.Never? || now - seen.stampAt >= INTERVAL }

  // ---- The step system -----------------------------------------------------

  /** The epoch a request works with, when it checked its age, and whether its own sync, if any, succeeded. */
  datatype Taken = Taken(stamp: Stamp, checked: int, ok: bool)

  /** How far a request has come. */
  datatype Phase =
    | Looked(hash: string, seen: Stamp)
    | Syncing(hash: string, checked: int)
    | Reading(hash: string, checked: int, value: nat, readAt: int)
    | Synced(hash: string, checked: int, own: int)
    | SyncFailed(hash: string, checked: int)
    | Took(hash: string, took: Taken)
    | Peeked(hash: string, took: Taken, found: Option<Entry>)
    | Missed(hash: string, took: Taken)
    | Resolved(hash: string, took: Taken, key: Option<Registry.Key>, at: int)
    | Stamped(hash: string, took: Taken, entry: Entry)

  /** A request answered from the cache. */
  datatype Serve = Serve(hash: string, at: int, entry: Entry, took: Taken)

  datatype World = World(
    books: Registry.Books, clock: int, cache: map<string, Entry>, stamp: Stamp, tasks: map<nat, Phase>, served: seq<Serve>)

  /**
   Look starts a request; Force starts one that syncs at once (also the sync after
   a local revocation, a task that goes no further). Go takes a task's next step;
   Fail makes its epoch read fail. Forget drops a cached entry.
   */
  datatype Action =
    | Look(id: nat, hash: string)
    | Force(id: nat, hash: string)
    | Go(id: nat)
    | Fail(id: nat)
    | Forget(hash: string)
    | Change(a: Registry.Action)
    | Tick(ns: nat)

  function Answer(w: World, h: string): Option<Registry.Key> {
    var r := Registry.Resolve(w.books.keys, w.clock / SECOND, h);
    if r.Ok? then Some(r.value) else None
  }

  function Find(cache: map<string, Entry>, h: string): Option<Entry> {
    if h in cache then Some(cache[h]) else None
  }

  /** The task's step when it touches nothing but itself. */
  function Advance(w: World, p: Phase): Phase {
    match p
    case Looked(h, seen) => if Stale(seen, w.clock) then Syncing(h, w.clock) else Took(h, Taken(seen, w.clock, true))
    case Syncing(h, c) => Reading(h, c, w.books.epoch, w.clock)
    case Synced(h, c, own) => Took(h, Taken(w.stamp, c, true))
    case SyncFailed(h, c) => Took(h, Taken(w.stamp, c, false))
    case Took(h, t) => Peeked(h, t, Find(w.cache, h))
    case Missed(h, t) => Resolved(h, t, Answer(w, h), w.clock)
    case Resolved(h, t, key, at) => Stamped(h, t, MakeEntry(key, Value(t.stamp), at, w.clock))
    case _ => p
  }

  /** The lookup is decided: the request is answered from the entry it found, or goes on to the registry. */
  function Decide(w: World, id: nat, h: string, t: Taken, found: Option<Entry>): World {
    match Judge(found, Value(t.stamp), w.clock)
    case Hit => w.(tasks := w.tasks - {id}, served := w.served + [Serve(h, w.clock, found.value, t)])
    case Evict => w.(tasks := w.tasks[id := Missed(h, t)], cache := w.cache - {h})
    case Miss => w.(tasks := w.tasks[id := Missed(h, t)])
  }

  /** A task takes its next step. */
  function Proceed(w: World, id: nat): World
    requires id in w.tasks
  {
    match w.tasks[id]
    case Reading(h, c, v, r) => w.(tasks := w.tasks[id := Synced(h, c, w.clock)], stamp := Stamp(v, r, w.clock))
    case Peeked(h, t, found) => Decide(w, id, h, t, found)
    case Stamped(h, t, e) => w.(tasks := w.tasks - {id}, cache := Put(w.cache, h, e))
    case p => w.(tasks := w.tasks[id := Advance(w, p)])
  }

  /** One step; a step of a task that is not there does nothing. */
  function Do(w: World, a: Action): World {
    match a
    case Look(id, h) => if id in w.tasks then w else w.(tasks := w.tasks[id := Looked(h, w.stamp)])
    case Force(id, h) => if id in w.tasks then w else w.(tasks := w.tasks[id := Syncing(h, w.clock)])
    case Go(id) => if id in w.tasks then Proceed(w, id) else w
    case Fail(id) =>
      if id in w.tasks && w.tasks[id].Syncing?
      then w.(tasks := w.tasks[id := SyncFailed(w.tasks[id].hash, w.tasks[id].checked)]) else w
    case Forget(h) => w.(cache := w.cache - {h})
    case Change(c) => w.(books := Registry.Apply(w.books, w.clock / SECOND, c))
    case Tick(ns) => w.(clock := w.clock + ns)
  }

  function Run(w: World, acts: seq<Action>): World {
    if acts == [] then w else Do(Run(w, acts[..|acts| - 1]), acts[|acts| - 1])
  }

  /** A replica just started, with any registry behind it. */
  ghost predicate Start(w: World) {
    w.clock >= SECOND && w.cache == map[] && w.stamp == Never && w.tasks == map[] && w.served == []
  }

  // ---- What every state keeps ----------------------------------------------

  ghost predicate StampOk(s: Stamp, clock: int, db: nat) {
    s.Stamp? ==> s.readAt <= s.stampAt <= clock && s.value <= db
  }

  /** An epoch taken without a failed sync was stamped less than five seconds before its age was checked. */
  ghost predicate TakenOk(t: Taken, clock: int, db: nat) {
    && StampOk(t.stamp, clock, db) && t.checked <= clock
    && (t.ok ==> t.stamp.Stamp? && t.checked - t.stamp.stampAt < INTERVAL)
  }

  ghost predicate EntryOk(e: Entry, clock: int, db: nat) {
    e.epoch <= db && e.resolvedAt <= e.stampedAt <= clock && e == MakeEntry(e.key, e.epoch, e.resolvedAt, e.stampedAt)
  }

  ghost predicate PhaseOk(p: Phase, clock: int, db: nat, stamp: Stamp) {
    match p
    case Looked(h, seen) => StampOk(seen, clock, db)
    case Syncing(h, c) => c <= clock
    case Reading(h, c, v, r) => c <= r <= clock && v <= db
    case Synced(h, c, own) => c <= own <= clock && stamp.Stamp? && own <= stamp.stampAt
    case SyncFailed(h, c) => c <= clock
    case Took(h, t) => TakenOk(t, clock, db)
    case Peeked(h, t, found) => TakenOk(t, clock, db) && (found.Some? ==> EntryOk(found.value, clock, db))
    case Missed(h, t) => TakenOk(t, clock, db)
    case Resolved(h, t, key, at) => TakenOk(t, clock, db) && at <= clock
    case Stamped(h, t, e) => TakenOk(t, clock, db) && EntryOk(e, clock, db)
  }

  ghost predicate ServeOk(s: Serve, clock: int, db: nat) {
    && EntryOk(s.entry, clock, db) && TakenOk(s.took, clock, db) && s.took.checked <= s.at <= clock
    && s.entry.stampedAt <= s.at && Judge(Some(s.entry), Value(s.took.stamp), s.at) == Hit
  }

  ghost predicate TasksOk(tasks: map<nat, Phase>, clock: int, db: nat, stamp: Stamp) {
    forall id :: id in tasks ==> PhaseOk(tasks[id], clock, db, stamp)
  }

  ghost predicate CacheOk(cache: map<string, Entry>, clock: int, db: nat) {
    forall h :: h in cache ==> EntryOk(cache[h], clock, db)
  }

  ghost predicate ServedOk(served: seq<Serve>, clock: int, db: nat) {
    forall i :: 0 <= i < |served| ==> ServeOk(served[i], clock, db)
  }

  ghost predicate Good(w: World) {
    && w.clock >= SECOND && StampOk(w.stamp, w.clock, w.books.epoch)
    && TasksOk(w.tasks, w.clock, w.books.epoch, w.stamp)
    && CacheOk(w.cache, w.clock, w.books.epoch)
    && ServedOk(w.served, w.clock, w.books.epoch)
  }

  /** Time passing and the shared epoch growing disturb nothing. */
  lemma GoodLater(w: World, clock: int, books: Registry.Books)
    requires Good(w) && w.clock <= clock && w.books.epoch <= books.epoch
    ensures Good(w.(clock := clock, books := books))
  {
  }

  lemma GoodAdvance(w: World, id: nat)
    requires Good(w) && id in w.tasks
    ensures Good(w.(tasks := w.tasks[id := Advance(w, w.tasks[id])]))
  {
  }

  lemma GoodDecide(w: World, id: nat, h: string, t: Taken, found: Option<Entry>)
    requires Good(w) && PhaseOk(Peeked(h, t, found), w.clock, w.books.epoch, w.stamp)
    ensures Good(Decide(w, id, h, t, found))
  {
  }

  lemma GoodProceed(w: World, id: nat)
    requires Good(w) && id in w.tasks
    ensures Good(Proceed(w, id))
  {
    match w.tasks[id]
    case Reading(h, c, v, r) =>
    case Peeked(h, t, found) => GoodDecide(w, id, h, t, found);
    case Stamped(h, t, e) =>
    case _ => GoodAdvance(w, id);
  }

  lemma GoodStep(w: World, a: Action)
    requires Good(w)
    ensures Good(Do(w, a))
  {
    hide Proceed;
    match a
    case Change(c) =>
      Registry.StepKeepsRevocation(w.books, w.clock / SECOND, c, "");
      GoodLater(w, w.clock, Registry.Apply(w.books, w.clock / SECOND, c));
    case Tick(ns) => GoodLater(w, w.clock + ns, w.books);
    case Go(id) =>
      if id in w.tasks {
        GoodProceed(w, id);
      }
    case _ =>
  }

  lemma {:induction false} AlwaysGood(w: World, acts: seq<Action>)
    requires Good(w)
    ensures Good(Run(w, acts))
  {
    if acts != [] {
      AlwaysGood(w, acts[..|acts| - 1]);
      GoodStep(Run(w, acts[..|acts| - 1]), acts[|acts| - 1]);
    }
  }

  // ---- A cached answer was given by the registry ---------------------------

  /** At some moment of the run, at time `at`, the registry answered `key` for `h`. */
  ghost predicate Witnessed(w: World, acts: seq<Action>, h: string, key: Option<Registry.Key>, at: int) {
    exists n :: 0 <= n <= |acts| && Run(w, acts[..n]).clock == at && Answer(Run(w, acts[..n]), h) == key
  }

  lemma WitnessGrows(w: World, acts: seq<Action>, h: string, key: Option<Registry.Key>, at: int)
    requires acts != [] && Witnessed(w, acts[..|acts| - 1], h, key, at)
    ensures Witnessed(w, acts, h, key, at)
  {
    var init := acts[..|acts| - 1];
    var n :| 0 <= n <= |init| && Run(w, init[..n]).clock == at && Answer(Run(w, init[..n]), h) == key;
    assert init[..n] == acts[..n];
  }

  lemma WitnessNow(w: World, acts: seq<Action>, h: string)
    ensures Witnessed(w, acts, h, Answer(Run(w, acts), h), Run(w, acts).clock)
  {
    assert acts[..|acts|] == acts;
  }

  ghost predicate EntryBacked(w: World, acts: seq<Action>, h: string, e: Entry) {
    Witnessed(w, acts, h, e.key, e.resolvedAt)
  }

  ghost predicate PhaseBacked(w: World, acts: seq<Action>, p: Phase) {
    match p
    case Peeked(h, t, found) => found.Some? ==> EntryBacked(w, acts, h, found.value)
    case Resolved(h, t, key, at) => Witnessed(w, acts, h, key, at)
    case Stamped(h, t, e) => EntryBacked(w, acts, h, e)
    case _ => true
  }

  ghost predicate Backed(w: World, acts: seq<Action>, cache: map<string, Entry>, tasks: map<nat, Phase>, served: seq<Serve>) {
    && (forall h :: h in cache ==> EntryBacked(w, acts, h, cache[h]))
    && (forall id :: id in tasks ==> PhaseBacked(w, acts, tasks[id]))
    && (forall i :: 0 <= i < |served| ==> EntryBacked(w, acts, served[i].hash, served[i].entry))
  }

  lemma BackedGrows(w: World, acts: seq<Action>, cache: map<string, Entry>, tasks: map<nat, Phase>, served: seq<Serve>)
    requires acts != [] && Backed(w, acts[..|acts| - 1], cache, tasks, served)
    ensures Backed(w, acts, cache, tasks, served)
  {
    hide Witnessed;
    var init := acts[..|acts| - 1];
    forall h, key, at | Witnessed(w, init, h, key, at)
      ensures Witnessed(w, acts, h, key, at)
    {
      WitnessGrows(w, acts, h, key, at);
    }
  }

  lemma BackedProceed(w: World, init: seq<Action>, acts: seq<Action>, v: World, id: nat)
    requires id in v.tasks && Backed(w, acts, v.cache, v.tasks, v.served)
    requires forall h :: Witnessed(w, acts, h, Answer(v, h), v.clock)
    ensures var r := Proceed(v, id); Backed(w, acts, r.cache, r.tasks, r.served)
  {
    hide Witnessed, Answer;
    assert PhaseBacked(w, acts, v.tasks[id]);
  }

  /** Every cached answer, pending or served, was the registry's own at its recorded moment. */
  lemma {:induction false} AlwaysBacked(w: World, acts: seq<Action>)
    requires Start(w)
    ensures var v := Run(w, acts); Backed(w, acts, v.cache, v.tasks, v.served)
  {
    hide Witnessed, Proceed, Answer;
    if acts != [] {
      var init, a := acts[..|acts| - 1], acts[|acts| - 1];
      var v := Run(w, init);
      AlwaysBacked(w, init);
      BackedGrows(w, acts, v.cache, v.tasks, v.served);
      if a.Go? && a.id in v.tasks {
        forall h ensures Witnessed(w, acts, h, Answer(v, h), v.clock) {
          WitnessNow(w, init, h);
          WitnessGrows(w, acts, h, Answer(v, h), v.clock);
        }
        BackedProceed(w, init, acts, v, a.id);
      }
    }
  }

  /**
   In every interleaving, a request answered from the cache at `s.at` gets what
   the registry itself answered at an earlier moment. An acceptance is used no
   later than 60 s after it was stamped (10 s for a refusal), so no later after it
   was resolved than that and the pause between the two, and never at or after the
   credential's own expiry.
   */
  lemma CachedAnswerBounded(w: World, acts: seq<Action>, i: nat)
    requires Start(w) && i < |Run(w, acts).served|
    ensures var s := Run(w, acts).served[i];
      && Witnessed(w, acts, s.hash, s.entry.key, s.entry.resolvedAt)
      && s.entry.resolvedAt <= s.entry.stampedAt <= s.at
      && s.at <= s.entry.stampedAt + (if s.entry.key.Some? then 60 else 10) * SECOND
      && s.at <= s.entry.resolvedAt + (if s.entry.key.Some? then 60 else 10) * SECOND + (s.entry.stampedAt - s.entry.resolvedAt)
      && (s.entry.key.Some? && s.entry.key.value.expiresAt > 0 ==> s.at < s.entry.key.value.expiresAt * SECOND)
  {
    AlwaysBacked(w, acts);
    AlwaysGood(w, acts);
    assert ServeOk(Run(w, acts).served[i], Run(w, acts).clock, Run(w, acts).books.epoch);
  }

  /** At a moment of the run, at time `at`, the registry's row for `h` was in force, with these very columns. */
  ghost predicate RowAt(w: World, acts: seq<Action>, n: int, h: string, key: Registry.Key, at: int) {
    && 0 <= n <= |acts|
    && var v := Run(w, acts[..n]);
       v.clock == at && h in v.books.keys && v.books.keys[h] == key && RegistryRules.InForce(key, at / SECOND)
  }

  /** At a moment of the run, at time `at`, the registry had no row for `h` in force. */
  ghost predicate NoRowAt(w: World, acts: seq<Action>, n: int, h: string, at: int) {
    && 0 <= n <= |acts|
    && var v := Run(w, acts[..n]);
       v.clock == at && (h !in v.books.keys || !RegistryRules.InForce(v.books.keys[h], at / SECOND))
  }

  lemma AnswerIsRow(v: World, h: string)
    ensures Answer(v, h).Some? ==> h in v.books.keys && v.books.keys[h] == Answer(v, h).value && RegistryRules.InForce(v.books.keys[h], v.clock / SECOND)
    ensures Answer(v, h).None? ==> h !in v.books.keys || !RegistryRules.InForce(v.books.keys[h], v.clock / SECOND)
  {
    RegistryRules.ResolvesToRow(v.books.keys, v.clock / SECOND, h);
  }

  /**
   Who a served request speaks for: an acceptance from the cache carries the
   tenant, server, kind, scope and every other column of the credential's own row
   at the moment it was resolved, the row being in force then; and a refusal is
   served only where there was no such row.
   */
  lemma ServedSpeaksFor(w: World, acts: seq<Action>, i: nat)
    requires Start(w) && i < |Run(w, acts).served|
    ensures var s := Run(w, acts).served[i];
      && (s.entry.key.Some? ==> exists n :: RowAt(w, acts, n, s.hash, s.entry.key.value, s.entry.resolvedAt))
      && (s.entry.key.None? ==> exists n :: NoRowAt(w, acts, n, s.hash, s.entry.resolvedAt))
  {
    AlwaysBacked(w, acts);
    var s := Run(w, acts).served[i];
    assert Witnessed(w, acts, s.hash, s.entry.key, s.entry.resolvedAt);
    var n :| 0 <= n <= |acts| && Run(w, acts[..n]).clock == s.entry.resolvedAt && Answer(Run(w, acts[..n]), s.hash) == s.entry.key;
    hide Run, Backed, Answer, RegistryRules.InForce;
    AnswerIsRow(Run(w, acts[..n]), s.hash);
    assert s.entry.key.Some? ==> RowAt(w, acts, n, s.hash, s.entry.key.value, s.entry.resolvedAt);
    assert s.entry.key.None? ==> NoRowAt(w, acts, n, s.hash, s.entry.resolvedAt);
  }

  /** How long an entry answers: 60 s from its stamp, 10 s for a refusal, while no newer epoch is known and the key has not expired. */
  lemma EntryAnswers(key: Option<Registry.Key>, epoch: nat, resolvedAt: int, stampedAt: int, asked: nat, t: int)
    ensures Judge(Some(MakeEntry(key, epoch, resolvedAt, stampedAt)), asked, t) == Hit <==>
      && asked <= epoch && t <= stampedAt + (if key.Some? then 60 else 10) * SECOND
      && (key.Some? && key.value.expiresAt > 0 ==> t < key.value.expiresAt * SECOND)
  {
  }

  // ---- Revocation reaches the cache ----------------------------------------

  /** A copy of an epoch below `e` was read no later than `b`. */
  ghost predicate Early(s: Stamp, e: nat, b: int) { s.Stamp? && s.value < e ==> s.readAt <= b }

  /** An acceptance resolved by `b` and stamped with an epoch below `e`. */
  ghost predicate Old(x: Entry, e: nat, b: int) { x.key.Some? ==> x.epoch < e && x.resolvedAt <= b }

  ghost predicate PhaseEarly(p: Phase, e: nat, b: int, h: string) {
    match p
    case Looked(_, seen) => Early(seen, e, b)
    case Syncing(_, _) => true
    case Reading(_, _, v, r) => v < e ==> r <= b
    case Synced(_, _, _) => true
    case SyncFailed(_, _) => true
    case Took(_, t) => Early(t.stamp, e, b)
    case Peeked(g, t, found) => Early(t.stamp, e, b) && (g == h && found.Some? ==> Old(found.value, e, b))
    case Missed(_, t) => Early(t.stamp, e, b)
    case Resolved(g, t, key, at) => Early(t.stamp, e, b) && (g == h && key.Some? ==> Value(t.stamp) < e && at <= b)
    case Stamped(g, t, x) => Early(t.stamp, e, b) && (g == h ==> Old(x, e, b))
  }

  ghost predicate ServeEarly(s: Serve, e: nat, b: int) {
    s.entry.key.Some? ==> s.took.stamp.Never? || (s.took.stamp.value < e && s.took.stamp.readAt <= b)
  }

  /** What holds from the moment `b` at which epoch `e` is committed with `h` revoked. */
  ghost predicate Retired(w: World, e: nat, b: int, h: string, from: nat) {
    && Registry.Revoked(w.books, h) && e <= w.books.epoch && Early(w.stamp, e, b)
    && (forall id :: id in w.tasks ==> PhaseEarly(w.tasks[id], e, b, h))
    && (h in w.cache ==> Old(w.cache[h], e, b))
    && from <= |w.served|
    && (forall i :: from <= i < |w.served| && w.served[i].hash == h ==> Old(w.served[i].entry, e, b) && ServeEarly(w.served[i], e, b))
  }

  lemma RetiredStart(w: World, c: Registry.Action, h: string)
    requires Good(w)
    requires var v := Do(w, Change(c)); w.books.epoch < v.books.epoch && Registry.Revoked(v.books, h)
    ensures var v := Do(w, Change(c)); Retired(v, v.books.epoch, v.clock, h, |v.served|)
  {
    hide Registry.Apply;
    forall id | id in w.tasks
      ensures PhaseEarly(w.tasks[id], Do(w, Change(c)).books.epoch, w.clock, h)
    {
      assert PhaseOk(w.tasks[id], w.clock, w.books.epoch, w.stamp);
    }
  }

  lemma RetiredDecide(w: World, e: nat, b: int, h: string, from: nat, id: nat, g: string, t: Taken, found: Option<Entry>)
    requires Retired(w, e, b, h, from) && PhaseEarly(Peeked(g, t, found), e, b, h)
    ensures Retired(Decide(w, id, g, t, found), e, b, h, from)
  {
  }

  lemma RetiredProceed(w: World, e: nat, b: int, h: string, from: nat, id: nat)
    requires Retired(w, e, b, h, from) && id in w.tasks
    ensures Retired(Proceed(w, id), e, b, h, from)
  {
    hide Decide;
    assert PhaseEarly(w.tasks[id], e, b, h);
    assert Answer(w, h).None?;
    match w.tasks[id]
    case Peeked(g, t, found) => RetiredDecide(w, e, b, h, from, id, g, t, found);
    case _ =>
  }

  lemma RetiredStep(w: World, e: nat, b: int, h: string, from: nat, a: Action)
    requires Retired(w, e, b, h, from)
    ensures Retired(Do(w, a), e, b, h, from)
  {
    hide Proceed, Registry.Apply;
    match a
    case Go(id) =>
      if id in w.tasks {
        RetiredProceed(w, e, b, h, from, id);
      }
    case Change(c) => Registry.StepKeepsRevocation(w.books, w.clock / SECOND, c, h);
    case _ =>
  }

  lemma {:induction false} RetiredRun(w: World, e: nat, b: int, h: string, from: nat, acts: seq<Action>)
    requires Retired(w, e, b, h, from)
    ensures Retired(Run(w, acts), e, b, h, from)
  {
    if acts != [] {
      RetiredRun(w, e, b, h, from, acts[..|acts| - 1]);
      RetiredStep(Run(w, acts[..|acts| - 1]), e, b, h, from, acts[|acts| - 1]);
    }
  }

  /**
   A change that raises the epoch and leaves `h` revoked takes effect: a request
   that still gets the old acceptance from the cache resolved it before that
   moment, so it is served no later than 60 s after it, and, if its epoch read
   succeeded, it checked its epoch less than 5 s after it, in every interleaving;
   both bounds move out only by the pauses the run itself made between resolving
   and stamping that entry and between reading and stamping that epoch.
   */
  lemma RevocationTakesEffect(w: World, before: seq<Action>, c: Registry.Action, after: seq<Action>, h: string, i: nat)
    requires Start(w)
    requires var v := Run(w, before); v.books.epoch < Do(v, Change(c)).books.epoch && Registry.Revoked(Do(v, Change(c)).books, h)
    requires var v := Do(Run(w, before), Change(c)); |v.served| <= i < |Run(v, after).served|
    requires var s := Run(Do(Run(w, before), Change(c)), after).served[i]; s.hash == h && s.entry.key.Some?
    ensures var v := Do(Run(w, before), Change(c));
      var s := Run(v, after).served[i];
      && s.entry.resolvedAt <= v.clock
      && s.at <= v.clock + 60 * SECOND + (s.entry.stampedAt - s.entry.resolvedAt)
      && (s.took.ok ==>
        && s.took.stamp.Stamp?
        && s.took.checked < v.clock + 5 * SECOND + (s.took.stamp.stampAt - s.took.stamp.readAt))
  {
    var u := Run(w, before);
    var v := Do(u, Change(c));
    var z := Run(v, after);
    AlwaysGood(w, before);
    RetiredStart(u, c, h);
    RetiredRun(v, v.books.epoch, v.clock, h, |v.served|, after);
    GoodStep(u, Change(c));
    AlwaysGood(v, after);
    assert ServeOk(z.served[i], z.clock, z.books.epoch);
    assert Old(z.served[i].entry, v.books.epoch, v.clock) && ServeEarly(z.served[i], v.books.epoch, v.clock);
  }

  /** Where a sync and a lookup take no time, no request is served 5 s or more after the revocation. */
  lemma PromptRequestsSeeRevocation(w: World, before: seq<Action>, c: Registry.Action, after: seq<Action>, h: string, i: nat)
    requires Start(w)
    requires var v := Run(w, before); v.books.epoch < Do(v, Change(c)).books.epoch && Registry.Revoked(Do(v, Change(c)).books, h)
    requires var v := Do(Run(w, before), Change(c)); |v.served| <= i < |Run(v, after).served|
    requires var s := Run(Do(Run(w, before), Change(c)), after).served[i];
      s.took.ok && s.took.checked == s.at && s.took.stamp.Stamp? && s.took.stamp.stampAt == s.took.stamp.readAt
    requires var v := Do(Run(w, before), Change(c)); Run(v, after).served[i].at >= v.clock + 5 * SECOND
    ensures var s := Run(Do(Run(w, before), Change(c)), after).served[i]; s.hash == h ==> s.entry.key.None?
  {
    var s := Run(Do(Run(w, before), Change(c)), after).served[i];
    if s.hash == h && s.entry.key.Some? {
      RevocationTakesEffect(w, before, c, after, h, i);
      assert false;
    }
  }
}
