/**
 How long a cached acceptance can outlive its resolution or a revocation: the
 bounds of AuthCache are attained, for every length of the pauses they depend on.
 */
module AuthLimits {
  import opened Common
  import opened AuthCache
  import Registry

  // ---- Runs in pieces ------------------------------------------------------

  lemma RunNone(w: World)
    ensures Run(w, []) == w
  {
  }

  lemma RunOne(w: World, a: Action)
    ensures Run(w, [a]) == Do(w, a)
  {
    assert [a][..0] == [];
    RunNone(w);
  }

  lemma {:induction false} RunConcat(w: World, xs: seq<Action>, ys: seq<Action>)
    ensures Run(w, xs + ys) == Run(Run(w, xs), ys)
  {
    if ys == [] {
      assert xs + ys == xs;
    } else {
      var init := ys[..|ys| - 1];
      RunConcat(w, xs, init);
      assert (xs + ys)[..|xs + ys| - 1] == xs + init;
    }
  }

  /** The run `acts` goes on with `more`. */
  lemma Then(w: World, acts: seq<Action>, more: seq<Action>) returns (all: seq<Action>)
    ensures Run(w, all) == Run(Run(w, acts), more)
  {
    all := acts + more;
    RunConcat(w, acts, more);
  }

  lemma RunTwo(w: World, a: Action, b: Action)
    ensures Run(w, [a, b]) == Do(Do(w, a), b)
  {
    RunOne(w, a);
    RunOne(Do(w, a), b);
    RunConcat(w, [a], [b]);
    assert [a] + [b] == [a, b];
  }

  // ---- The pieces ----------------------------------------------------------

  const READER := Registry.Key("t", "c", "read", "read", "", 0, 0, 0, "", "", 1, 0, 0)

  /** A replica just started, over a registry that knows one key. */
  const FRESH := World(Registry.Books(map["k" := READER], map[], 0), SECOND, map[], Never, map[], [])

  function EpochAt(t: int): Stamp { Stamp(0, t, t) }

  /** The acceptance resolved at `a` and stamped at `p`. */
  function Accepted(a: int, p: int): Entry { Entry(Some(READER), p + TTL, 0, a, p) }

  /** The phases of task 0 from a forced sync to the registry's answer, at one moment. */
  function Path(t: int): seq<Phase> {
    var taken := Taken(EpochAt(t), t, true);
    [Syncing("k", t), Reading("k", t, 0, t), Synced("k", t, t), Took("k", taken), Peeked("k", taken, None),
     Missed("k", taken), Resolved("k", taken, Some(READER), t)]
  }

  /** Task 0 looks "k" up and has it resolved. */
  lemma Resolving(w: World) returns (acts: seq<Action>)
    requires w.books == FRESH.books && w.cache == map[] && 0 !in w.tasks
    ensures Run(w, acts) == w.(stamp := EpochAt(w.clock), tasks := w.tasks[0 := Path(w.clock)[6]])
  {
    hide Run;
    var t := w.clock;
    acts := [Force(0, "k")];
    RunOne(w, Force(0, "k"));
    for i := 0 to 6
      invariant Run(w, acts) == w.(stamp := if i >= 2 then EpochAt(t) else w.stamp, tasks := w.tasks[0 := Path(t)[i]])
    {
      RunConcat(w, acts, [Go(0)]);
      RunOne(Run(w, acts), Go(0));
      acts := acts + [Go(0)];
    }
  }

  /** Task 0 stamps its answer and stores it. */
  lemma Storing(w: World, tasks: map<nat, Phase>, a: int)
    requires 0 !in tasks && w.tasks == tasks[0 := Path(a)[6]] && w.cache == map[]
    ensures Run(w, [Go(0), Go(0)]) == w.(cache := map["k" := Accepted(a, w.clock)], tasks := tasks)
  {
    hide Run;
    RunTwo(w, Go(0), Go(0));
    var done := Stamped("k", Taken(EpochAt(a), a, true), Accepted(a, w.clock));
    assert Do(w, Go(0)) == w.(tasks := tasks[0 := done]) by { hide Put; }
    assert Put(map[], "k", done.entry) == map["k" := done.entry] by { hide Do; }
    assert tasks[0 := done] - {0} == tasks;
    hide Put;
  }

  lemma Caching(w: World) returns (acts: seq<Action>)
    requires w.books == FRESH.books && w.cache == map[] && 0 !in w.tasks
    ensures Run(w, acts) == w.(cache := map["k" := Accepted(w.clock, w.clock)], stamp := EpochAt(w.clock))
  {
    hide Run, Do;
    acts := Resolving(w);
    Storing(Run(w, acts), w.tasks, w.clock);
    acts := Then(w, acts, [Go(0), Go(0)]);
  }

  lemma Waiting(w: World, ns: nat)
    ensures Run(w, [Tick(ns)]) == w.(clock := w.clock + ns)
  {
    RunOne(w, Tick(ns));
  }

  /** Task 1 reads the epoch. */
  lemma Sampling(w: World)
    requires w.books.epoch == 0 && 1 !in w.tasks
    ensures Run(w, [Force(1, "k"), Go(1)]) == w.(tasks := w.tasks[1 := Reading("k", w.clock, 0, w.clock)])
  {
    hide Run;
    RunTwo(w, Force(1, "k"), Go(1));
  }

  /** Task 1 stamps the epoch it read at `r`. */
  lemma Stamping(w: World, r: int)
    requires 1 in w.tasks && w.tasks[1] == Reading("k", r, 0, r)
    ensures Run(w, [Go(1)]) == w.(stamp := Stamp(0, r, w.clock), tasks := w.tasks[1 := Synced("k", r, w.clock)])
  {
    RunOne(w, Go(1));
  }

  /** Task 2 takes the replica's epoch, which is fresh enough. */
  lemma Taking(w: World)
    requires 2 !in w.tasks && !Stale(w.stamp, w.clock)
    ensures Run(w, [Look(2, "k"), Go(2)]) == w.(tasks := w.tasks[2 := Took("k", Taken(w.stamp, w.clock, true))])
  {
    hide Run;
    RunTwo(w, Look(2, "k"), Go(2));
  }

  /** Task 2 finds the cached acceptance and is served. */
  lemma Serving(w: World, e: Entry, t: Taken)
    requires w.cache == map["k" := e] && e.key == Some(READER) && w.clock <= e.expires && Value(t.stamp) <= e.epoch
    requires 2 in w.tasks && w.tasks[2] == Took("k", t)
    ensures Run(w, [Go(2), Go(2)]).served == w.served + [Serve("k", w.clock, e, t)]
  {
    hide Run;
    RunTwo(w, Go(2), Go(2));
    assert Do(w, Go(2)).tasks[2] == Peeked("k", t, Some(e));
  }

  // ---- Age of an acceptance ------------------------------------------------

  /** A run serves an acceptance `d` after it was resolved, stamped `z` after it. */
  ghost predicate ServedAged(w: World, acts: seq<Action>, i: nat, d: nat, z: nat) {
    && Start(w) && i < |Run(w, acts).served|
    && var s := Run(w, acts).served[i];
       s.entry.key.Some? && s.at - s.entry.resolvedAt == d && s.entry.stampedAt - s.entry.resolvedAt == z
  }

  lemma Aging(d: nat, z: nat) returns (acts: seq<Action>)
    requires z <= d <= TTL + z
    ensures ServedAged(FRESH, acts, 0, d, z)
  {
    hide Run, Do, Stale;
    acts := Resolving(FRESH);
    Waiting(Run(FRESH, acts), z);
    acts := Then(FRESH, acts, [Tick(z)]);
    Storing(Run(FRESH, acts), map[], SECOND);
    acts := Then(FRESH, acts, [Go(0), Go(0)]);
    Waiting(Run(FRESH, acts), d - z);
    acts := Then(FRESH, acts, [Tick(d - z)]);
    Sampling(Run(FRESH, acts));
    acts := Then(FRESH, acts, [Force(1, "k"), Go(1)]);
    Stamping(Run(FRESH, acts), SECOND + d);
    acts := Then(FRESH, acts, [Go(1)]);
    var stamp := EpochAt(SECOND + d);
    NotStale(stamp, SECOND + d);
    Taking(Run(FRESH, acts));
    acts := Then(FRESH, acts, [Look(2, "k"), Go(2)]);
    Serving(Run(FRESH, acts), Accepted(SECOND, SECOND + z), Taken(stamp, SECOND + d, true));
    acts := Then(FRESH, acts, [Go(2), Go(2)]);
  }

  lemma NotStale(s: Stamp, now: int)
    requires s.Stamp? && now - s.stampAt < INTERVAL
    ensures !Stale(s, now)
  {
  }

  /**
   An acceptance can be served `d` after it was resolved, with a pause of `z`
   before it was stamped, exactly if z <= d <= 60 s + z. So it is served within
   60 s of its resolution whenever resolving and stamping take no time, and for
   every longer pause there is a run in which it is not.
   */
  lemma ExactAge(d: nat, z: nat)
    ensures (exists w, acts, i :: ServedAged(w, acts, i, d, z)) <==> z <= d <= 60 * SECOND + z
  {
    if w, acts, i :| ServedAged(w, acts, i, d, z) {
      CachedAnswerBounded(w, acts, i);
    }
    if z <= d <= TTL + z {
      var acts := Aging(d, z);
    }
  }

  // ---- Delay of a revocation -----------------------------------------------

  /**
   A change raises the epoch with `h` revoked, and a request whose epoch read
   succeeded is served the old acceptance `d` later. It paused `x` between
   checking its epoch and its lookup, the epoch was stamped `y` after it was read
   and the acceptance `z` after it was resolved.
   */
  ghost predicate ServedLate(
    w: World, before: seq<Action>, c: Registry.Action, after: seq<Action>, h: string, i: nat, d: nat, x: nat, y: nat, z: nat)
  {
    var u := Run(w, before);
    var v := Do(u, Change(c));
    && Start(w) && u.books.epoch < v.books.epoch && Registry.Revoked(v.books, h)
    && |v.served| <= i < |Run(v, after).served|
    && var s := Run(v, after).served[i];
       && s.hash == h && s.entry.key.Some? && s.took.ok && s.took.stamp.Stamp?
       && s.at - v.clock == d && s.at - s.took.checked == x
       && s.took.stamp.stampAt - s.took.stamp.readAt == y && s.entry.stampedAt - s.entry.resolvedAt == z
  }

  function Gone(now: int): Registry.Books { Registry.Books(map["k" := READER.(revokedAt := now)], map[], 0) }

  const REVOKE := Change(Registry.RevokeRows(Registry.ByHash("k")))

  lemma Revoking(w: World)
    requires w.books == FRESH.books && w.clock >= SECOND
    ensures Run(w, [REVOKE]) == w.(books := Gone(w.clock / SECOND))
    ensures w.clock / SECOND > 0
  {
    RunOne(w, REVOKE);
    assert Registry.Revoke(FRESH.books.keys, Registry.ByHash("k"), w.clock / SECOND) == Gone(w.clock / SECOND).keys;
  }

  lemma Bumping(w: World, now: int)
    requires w.books == Gone(now) && now > 0
    ensures var v := Do(w, Change(Registry.Bump)); v == w.(books := Gone(now).(epoch := 1)) && w.books.epoch < v.books.epoch && Registry.Revoked(v.books, "k")
  {
  }

  /** The request checks its epoch after the bump: `u` of the sync's pause lies before it and `v` after it. */
  lemma CheckedAfter(u: nat, v: nat, g: nat, x: nat) returns (before: seq<Action>, after: seq<Action>)
    requires v + g + x <= TTL && g < INTERVAL
    ensures ServedLate(FRESH, before, Registry.Bump, after, "k", 0, v + g + x, x, u + v, 0)
  {
    hide Run, Do, Stale, Registry.Apply, Gone, Registry.Revoked;
    var b := SECOND + u;
    Sampling(FRESH);
    before := [Force(1, "k"), Go(1)];
    Waiting(Run(FRESH, before), u);
    before := Then(FRESH, before, [Tick(u)]);
    var cached := Caching(Run(FRESH, before));
    before := Then(FRESH, before, cached);
    Revoking(Run(FRESH, before));
    before := Then(FRESH, before, [REVOKE]);
    Bumping(Run(FRESH, before), b / SECOND);
    var w := Do(Run(FRESH, before), Change(Registry.Bump));
    Waiting(w, v);
    after := [Tick(v)];
    Stamping(Run(w, after), SECOND);
    after := Then(w, after, [Go(1)]);
    Waiting(Run(w, after), g);
    after := Then(w, after, [Tick(g)]);
    var stamp := Stamp(0, SECOND, b + v);
    NotStale(stamp, b + v + g);
    Taking(Run(w, after));
    after := Then(w, after, [Look(2, "k"), Go(2)]);
    Waiting(Run(w, after), x);
    after := Then(w, after, [Tick(x)]);
    Serving(Run(w, after), Accepted(b, b), Taken(stamp, b + v + g, true));
    after := Then(w, after, [Go(2), Go(2)]);
  }

  /** The request checks its epoch `e` before the bump. */
  lemma CheckedBefore(d: nat, e: nat, y: nat) returns (before: seq<Action>, after: seq<Action>)
    requires d <= TTL
    ensures ServedLate(FRESH, before, Registry.Bump, after, "k", 0, d, e + d, y, 0)
  {
    hide Run, Do, Stale, Registry.Apply, Gone, Registry.Revoked;
    var b := SECOND + y + e;
    Sampling(FRESH);
    before := [Force(1, "k"), Go(1)];
    Waiting(Run(FRESH, before), y);
    before := Then(FRESH, before, [Tick(y)]);
    Stamping(Run(FRESH, before), SECOND);
    before := Then(FRESH, before, [Go(1)]);
    var stamp := Stamp(0, SECOND, SECOND + y);
    NotStale(stamp, SECOND + y);
    Taking(Run(FRESH, before));
    before := Then(FRESH, before, [Look(2, "k"), Go(2)]);
    Waiting(Run(FRESH, before), e);
    before := Then(FRESH, before, [Tick(e)]);
    var cached := Caching(Run(FRESH, before));
    before := Then(FRESH, before, cached);
    Revoking(Run(FRESH, before));
    before := Then(FRESH, before, [REVOKE]);
    Bumping(Run(FRESH, before), b / SECOND);
    var w := Do(Run(FRESH, before), Change(Registry.Bump));
    Waiting(w, d);
    after := [Tick(d)];
    Serving(Run(w, after), Accepted(b, b), Taken(stamp, SECOND + y, true));
    after := Then(w, after, [Go(2), Go(2)]);
  }

  /**
   A request that pauses between taking its epoch and looking in the cache is
   served up to 60 s after the bump, although every sync is instantaneous.
   */
  lemma PausedRequest(d: nat)
    requires d <= TTL
    ensures exists before, after :: ServedLate(FRESH, before, Registry.Bump, after, "k", 0, d, d, 0, 0)
  {
    hide ServedLate;
    var before, after := CheckedBefore(d, 0, 0);
  }

  /**
   So is a request that does not pause at all, if another task read the epoch
   before the bump and stamps it only afterwards.
   */
  lemma PausedSync(d: nat)
    requires d <= TTL
    ensures exists before, after :: ServedLate(FRESH, before, Registry.Bump, after, "k", 0, d, 0, d, 0)
  {
    hide ServedLate;
    var before, after := CheckedAfter(0, d, 0, 0);
  }

  /**
   Where the acceptance is stamped at once, it can be served `d` after the
   revocation, with the pauses `x` and `y`, exactly if d <= 60 s and d < 5 s + x + y.
   */
  lemma ExactDelay(d: nat, x: nat, y: nat)
    ensures (exists w, before, c, after, h, i :: ServedLate(w, before, c, after, h, i, d, x, y, 0)) <==>
      d <= 60 * SECOND && d < 5 * SECOND + x + y
  {
    if w, before, c, after, h, i :| ServedLate(w, before, c, after, h, i, d, x, y, 0) {
      RevocationTakesEffect(w, before, c, after, h, i);
    }
    if d <= TTL && d < INTERVAL + x + y {
      hide Run, Do;
      if d < x {
        var before, after := CheckedBefore(d, x - d, y);
      } else if d - x < y {
        var before, after := CheckedAfter(y - (d - x), d - x, 0, x);
      } else {
        var before, after := CheckedAfter(0, y, d - x - y, x);
      }
    }
  }

  /**
   So the promise of 5 s holds exactly where neither the request nor the sync
   pauses: the shortest pause of either lets a request be served at 5 s or later.
   */
  lemma PromptExactly(x: nat, y: nat)
    ensures (exists w, before, c, after, h, i, d: nat :: 5 * SECOND <= d && ServedLate(w, before, c, after, h, i, d, x, y, 0)) <==> x + y > 0
  {
    if w, before, c, after, h, i, d: nat :| 5 * SECOND <= d && ServedLate(w, before, c, after, h, i, d, x, y, 0) {
      ExactDelay(d, x, y);
    }
    if x + y > 0 {
      ExactDelay(INTERVAL, x, y);
    }
  }

  /** The acceptance is resolved `e` before the bump, and stamped and stored `m` after it. */
  lemma StoredAfter(d: nat, e: nat, m: nat) returns (before: seq<Action>, after: seq<Action>)
    requires m <= d <= TTL + m
    ensures ServedLate(FRESH, before, Registry.Bump, after, "k", 0, d, e + d, 0, e + m)
  {
    hide Run, Do, Stale, Registry.Apply, Gone, Registry.Revoked;
    Sampling(FRESH);
    before := [Force(1, "k"), Go(1)];
    Stamping(Run(FRESH, before), SECOND);
    before := Then(FRESH, before, [Go(1)]);
    NotStale(EpochAt(SECOND), SECOND);
    Taking(Run(FRESH, before));
    before := Then(FRESH, before, [Look(2, "k"), Go(2)]);
    var tasks := Run(FRESH, before).tasks;
    var resolved := Resolving(Run(FRESH, before));
    before := Then(FRESH, before, resolved);
    Waiting(Run(FRESH, before), e);
    before := Then(FRESH, before, [Tick(e)]);
    Revoking(Run(FRESH, before));
    before := Then(FRESH, before, [REVOKE]);
    Bumping(Run(FRESH, before), (SECOND + e) / SECOND);
    var w := Do(Run(FRESH, before), Change(Registry.Bump));
    Waiting(w, m);
    after := [Tick(m)];
    Storing(Run(w, after), tasks, SECOND);
    after := Then(w, after, [Go(0), Go(0)]);
    Waiting(Run(w, after), d - m);
    after := Then(w, after, [Tick(d - m)]);
    Serving(Run(w, after), Accepted(SECOND, SECOND + e + m), Taken(EpochAt(SECOND), SECOND, true));
    after := Then(w, after, [Go(2), Go(2)]);
  }

  /** Whatever the other pauses, it can be served `d` after the revocation exactly if d <= 60 s + z. */
  lemma ExactLimit(d: nat, z: nat)
    ensures (exists w, before, c, after, h, i, x, y :: ServedLate(w, before, c, after, h, i, d, x, y, z)) <==> d <= 60 * SECOND + z
  {
    if w, before, c, after, h, i, x, y :| ServedLate(w, before, c, after, h, i, d, x, y, z) {
      RevocationTakesEffect(w, before, c, after, h, i);
    }
    if d <= TTL + z {
      hide Run, Do;
      if z <= d {
        var before, after := StoredAfter(d, 0, z);
      } else {
        var before, after := StoredAfter(d, z - d, d);
      }
    }
  }
}
