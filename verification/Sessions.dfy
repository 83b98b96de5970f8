/** The browser session store (server/session.go). */
module Sessions {
  import opened Common

  const MAX_SESSIONS := 4096
  const MAX_PER_CREDENTIAL := 5

  datatype Session = Session(cred: string, principal: string, client: string, expires: int)

  predicate Live(s: Session, now: int) { now < s.expires }

  /** What is left when expired sessions are reclaimed. */
  function Unexpired(m: map<string, Session>, now: int): map<string, Session> {
    map k | k in m && Live(m[k], now) :: m[k]
  }

  /** The sessions of one credential. */
  function OfCredential(m: map<string, Session>, cred: string): set<string> {
    set k | k in m && m[k].cred == cred
  }

  ghost predicate Bounded(m: map<string, Session>) {
    && |m| <= MAX_SESSIONS && "" !in m
    && forall c :: |OfCredential(m, c)| <= MAX_PER_CREDENTIAL
  }

  /** No session of the credential ends earlier. */
  ghost predicate Soonest(m: map<string, Session>, k: string, cred: string) {
    k in OfCredential(m, cred) && forall j :: j in OfCredential(m, cred) ==> m[k].expires <= m[j].expires
  }

  /** What an insertion may leave: expired sessions go, and a full credential's soonest one makes room. */
  ghost predicate Inserted(m: map<string, Session>, m': map<string, Session>, id: string, ent: Session, now: int, ok: bool) {
    var live := Unexpired(m, now);
    if |OfCredential(live, ent.cred)| >= MAX_PER_CREDENTIAL then
      exists k :: Soonest(live, k, ent.cred) && Settled(live - {k}, m', id, ent, ok)
    else Settled(live, m', id, ent, ok)
  }

  ghost predicate Settled(rest: map<string, Session>, m': map<string, Session>, id: string, ent: Session, ok: bool) {
    ok == (|rest| < MAX_SESSIONS) && m' == if ok then rest[id := ent] else rest
  }

  lemma Fewer(m: map<string, Session>, m': map<string, Session>, c: string)
    requires forall k :: k in m' ==> k in m && m'[k] == m[k]
    ensures |m'| <= |m| && |OfCredential(m', c)| <= |OfCredential(m, c)|
  {
    assert m'.Keys <= m.Keys && OfCredential(m', c) <= OfCredential(m, c);
    Subset(m'.Keys, m.Keys);
    Subset(OfCredential(m', c), OfCredential(m, c));
  }

  lemma {:induction false} Subset<T>(a: set<T>, b: set<T>)
    requires a <= b
    ensures |a| <= |b|
  {
    if a != {} {
      var x :| x in a;
      Subset(a - {x}, b - {x});
    }
  }

  lemma RemoveOne(m: map<string, Session>, k: string, cred: string)
    requires k in m && m[k].cred == cred
    ensures |m - {k}| == |m| - 1 && |OfCredential(m - {k}, cred)| == |OfCredential(m, cred)| - 1
  {
    assert (m - {k}).Keys == m.Keys - {k};
    assert OfCredential(m - {k}, cred) == OfCredential(m, cred) - {k};
  }

  lemma AddOne(m: map<string, Session>, id: string, ent: Session, c: string)
    ensures |m[id := ent]| <= |m| + 1
    ensures |OfCredential(m[id := ent], c)| <= |OfCredential(m, c)| + (if c == ent.cred then 1 else 0)
  {
    assert m[id := ent].Keys == m.Keys + {id};
    assert OfCredential(m[id := ent], c) <= OfCredential(m, c) + (if c == ent.cred then {id} else {});
    Subset(OfCredential(m[id := ent], c), OfCredential(m, c) + (if c == ent.cred then {id} else {}));
  }

  /** Room left for the credential once an insertion has cleared its way. */
  lemma Cleared(m: map<string, Session>, id: string, ent: Session, now: int, rest: map<string, Session>, k: string)
    requires Bounded(m)
    requires var live := Unexpired(m, now);
      if |OfCredential(live, ent.cred)| >= MAX_PER_CREDENTIAL then Soonest(live, k, ent.cred) && rest == live - {k} else rest == live
    ensures Bounded(rest) && |OfCredential(rest, ent.cred)| < MAX_PER_CREDENTIAL
    ensures rest != Unexpired(m, now) ==> |rest| < MAX_SESSIONS
  {
    var live := Unexpired(m, now);
    Fewer(m, live, ent.cred);
    if |OfCredential(live, ent.cred)| >= MAX_PER_CREDENTIAL {
      RemoveOne(live, k, ent.cred);
    }
    forall c ensures |OfCredential(rest, c)| <= MAX_PER_CREDENTIAL {
      Fewer(m, rest, c);
      assert |OfCredential(m, c)| <= MAX_PER_CREDENTIAL;
    }
  }

  /** The room an insertion makes, once expired sessions are gone: nothing, or the soonest of a full credential. */
  ghost predicate MakesRoom(live: map<string, Session>, rest: map<string, Session>, gone: set<string>, cred: string) {
    && rest == live - gone
    && (gone == {} || exists k :: gone == {k} && Soonest(live, k, cred))
  }

  lemma InsertionSteps(m: map<string, Session>, m': map<string, Session>, id: string, ent: Session, now: int, ok: bool)
    returns (rest: map<string, Session>, gone: set<string>)
    requires Bounded(m) && Inserted(m, m', id, ent, now, ok)
    ensures MakesRoom(Unexpired(m, now), rest, gone, ent.cred) && Settled(rest, m', id, ent, ok)
    ensures Bounded(rest) && |OfCredential(rest, ent.cred)| < MAX_PER_CREDENTIAL
    ensures gone != {} ==> |rest| < MAX_SESSIONS
  {
    var live := Unexpired(m, now);
    if |OfCredential(live, ent.cred)| >= MAX_PER_CREDENTIAL {
      var k :| Soonest(live, k, ent.cred) && Settled(live - {k}, m', id, ent, ok);
      rest, gone := live - {k}, {k};
      Cleared(m, id, ent, now, rest, k);
    } else {
      rest, gone := live, {};
      assert live - {} == live;
      Cleared(m, id, ent, now, rest, "");
    }
  }

  /**
   An insertion keeps the bounds; under a fresh id it removes no unexpired session
   of another credential, and of its own none as long as they are fewer than five,
   and otherwise one, the one ending soonest. It is refused exactly if the store is
   full and the credential has no session to give up; a refused insertion removes
   only expired sessions.
   */
  lemma InsertionProtects(m: map<string, Session>, m': map<string, Session>, id: string, ent: Session, now: int, ok: bool)
    requires Bounded(m) && Inserted(m, m', id, ent, now, ok) && id != ""
    ensures Bounded(m')
    ensures id !in m ==> forall k :: k in m && Live(m[k], now) && m[k].cred != ent.cred ==> k in m' && m'[k] == m[k]
    ensures forall k, j :: k in m && j in m && Live(m[k], now) && Live(m[j], now) && k !in m' && j !in m' ==> k == j
    ensures forall k :: k in m && Live(m[k], now) && k !in m' ==> Soonest(Unexpired(m, now), k, ent.cred)
    ensures !ok ==> m' == Unexpired(m, now) && |m'| == MAX_SESSIONS
    ensures ok ==> id in m' && m'[id] == ent && forall k :: k in m' && k != id ==> k in m && m'[k] == m[k] && Live(m[k], now)
    ensures var mine := set k | k in m && m[k].cred == ent.cred && now < m[k].expires;
      && (|mine| < 5 && id !in m ==> forall k :: k in m && now < m[k].expires ==> k in m' && m'[k] == m[k])
      && (|mine| >= 5 && id !in m ==> exists k :: k in mine && k !in m' && forall j :: j in mine ==> m[k].expires <= m[j].expires)
      && (!ok <==> |mine| < 5 && |set k | k in m && now < m[k].expires| >= 4096)
  {
    InsertionCounts(m, m', id, ent, now, ok);
    var rest, gone := InsertionSteps(m, m', id, ent, now, ok);
    SettledBounded(rest, m', id, ent, ok);
    assert !ok ==> |rest| == MAX_SESSIONS;
    assert forall k :: k in gone ==> Soonest(Unexpired(m, now), k, ent.cred) && k in m && m[k].cred == ent.cred;
    assert forall k, j :: k in gone && j in gone ==> k == j;
    hide Bounded, Inserted, Soonest, OfCredential, MakesRoom;
    SettledProtects(m, now, rest, gone, m', id, ent, ok);
  }

  /** What an insertion does by the number of live sessions, the credential's and all. */
  lemma InsertionCounts(m: map<string, Session>, m': map<string, Session>, id: string, ent: Session, now: int, ok: bool)
    requires Bounded(m) && Inserted(m, m', id, ent, now, ok)
    ensures var mine := set k | k in m && m[k].cred == ent.cred && now < m[k].expires;
      && (|mine| < 5 && id !in m ==> forall k :: k in m && now < m[k].expires ==> k in m' && m'[k] == m[k])
      && (|mine| >= 5 && id !in m ==> exists k :: k in mine && k !in m' && forall j :: j in mine ==> m[k].expires <= m[j].expires)
      && (!ok <==> |mine| < 5 && |set k | k in m && now < m[k].expires| >= 4096)
  {
    var live := Unexpired(m, now);
    var mine := set k | k in m && m[k].cred == ent.cred && now < m[k].expires;
    assert mine == OfCredential(live, ent.cred);
    assert live.Keys == set k | k in m && now < m[k].expires;
    if |mine| >= 5 {
      var k :| Soonest(live, k, ent.cred) && Settled(live - {k}, m', id, ent, ok);
      assert k in mine && forall j :: j in mine ==> m[k].expires <= m[j].expires;
      RemoveOne(live, k, ent.cred);
      Fewer(m, live, ent.cred);
      hide Unexpired, OfCredential, Soonest, Bounded;
      assert ok && m' == (live - {k})[id := ent];
    } else {
      hide OfCredential, Bounded;
      assert Settled(live, m', id, ent, ok);
    }
  }

  lemma SettledProtects(
    m: map<string, Session>, now: int, rest: map<string, Session>, gone: set<string>, m': map<string, Session>,
    id: string, ent: Session, ok: bool)
    requires rest == Unexpired(m, now) - gone && Settled(rest, m', id, ent, ok) && (gone != {} ==> ok)
    requires forall k :: k in gone ==> k in m && m[k].cred == ent.cred
    ensures forall k :: k in m && Live(m[k], now) && k !in m' ==> k in gone
    ensures id !in m ==> forall k :: k in m && Live(m[k], now) && m[k].cred != ent.cred ==> k in m' && m'[k] == m[k]
    ensures !ok ==> m' == Unexpired(m, now)
    ensures ok ==> id in m' && m'[id] == ent && forall k :: k in m' && k != id ==> k in m && m'[k] == m[k] && Live(m[k], now)
  {
    assert forall k :: k in rest <==> k in m && Live(m[k], now) && k !in gone;
    assert forall k :: k in rest ==> rest[k] == m[k];
    if ok {
      hide Unexpired, Live;
      assert m' == rest[id := ent];
    } else {
      assert gone == {} && rest == Unexpired(m, now);
      hide Unexpired, Live;
      assert m' == rest;
    }
  }

  lemma SettledBounded(rest: map<string, Session>, m': map<string, Session>, id: string, ent: Session, ok: bool)
    requires Bounded(rest) && |OfCredential(rest, ent.cred)| < MAX_PER_CREDENTIAL && id != "" && Settled(rest, m', id, ent, ok)
    ensures Bounded(m')
  {
    hide OfCredential;
    if ok {
      forall c ensures |OfCredential(m', c)| <= MAX_PER_CREDENTIAL {
        AddOne(rest, id, ent, c);
        assert |OfCredential(rest, c)| <= MAX_PER_CREDENTIAL;
      }
      AddOne(rest, id, ent, ent.cred);
    }
  }

  /** Part of the scan: `rest` is still to come, `mine` are the credential's live sessions met. */
  ghost predicate Scanned(was: map<string, Session>, m: map<string, Session>, rest: set<string>, mine: set<string>, cred: string, now: int) {
    && rest <= m.Keys
    && (forall k :: k in m ==> k in was && m[k] == was[k])
    && (forall k :: k in was && k !in rest ==> (k in m <==> Live(was[k], now)))
    && (forall k :: k in mine <==> k in m && k !in rest && m[k].cred == cred)
  }

  ghost predicate Best(m: map<string, Session>, mine: set<string>, oldest: string, expiry: int) {
    && mine <= m.Keys && (oldest == "" <==> mine == {})
    && (oldest != "" ==> oldest in mine && expiry == m[oldest].expires && forall j :: j in mine ==> expiry <= m[j].expires)
  }

  lemma ScanStep(was: map<string, Session>, m: map<string, Session>, rest: set<string>, mine: set<string>, cred: string, now: int, key: string)
    requires Scanned(was, m, rest, mine, cred, now) && key in rest
    ensures key !in mine
    ensures !Live(m[key], now) ==> Scanned(was, m - {key}, rest - {key}, mine, cred, now)
    ensures Live(m[key], now) && m[key].cred == cred ==> Scanned(was, m, rest - {key}, mine + {key}, cred, now)
    ensures Live(m[key], now) && m[key].cred != cred ==> Scanned(was, m, rest - {key}, mine, cred, now)
  {
  }

  lemma ScanEnd(was: map<string, Session>, m: map<string, Session>, mine: set<string>, cred: string, now: int)
    requires Scanned(was, m, {}, mine, cred, now)
    ensures m == Unexpired(was, now) && mine == OfCredential(m, cred)
  {
  }

  class SessionStore {
    var m: map<string, Session>

    ghost predicate Valid()
      reads this
    {
      Bounded(m)
    }

    constructor ()
      ensures Valid() && m == map[]
    {
      m := map[];
    }

    /** The scan of an insertion: reclaim, count, and find the session ending soonest. */
    method Scan(cred: string, now: int) returns (count: nat, oldest: string)
      requires Valid()
      modifies this
      ensures m == Unexpired(old(m), now) && count == |OfCredential(m, cred)|
      ensures count > 0 ==> Soonest(m, oldest, cred)
    {
      assert "" !in m;
      hide Bounded;
      count, oldest := 0, "";
      var oldestExpiry := 0;
      var rest := m.Keys;
      ghost var mine: set<string> := {};
      while rest != {}
        invariant Scanned(old(m), m, rest, mine, cred, now) && "" !in m && count == |mine|
        invariant Best(m, mine, oldest, oldestExpiry)
        decreases |rest|
      {
        ghost var x := Member(rest);
        var key :| key in rest;
        assert key in m;
        var value := m[key];
        hide Scanned;
        ScanStep(old(m), m, rest, mine, cred, now, key);
        rest := rest - {key};
        if !(now < value.expires) {
          m := m - {key};
        } else if value.cred == cred {
          count := count + 1;
          if oldest == "" || value.expires < oldestExpiry {
            oldest, oldestExpiry := key, value.expires;
          }
          mine := mine + {key};
        }
      }
      ScanEnd(old(m), m, mine, cred, now);
    }

    /** put. */
    method Put(id: string, ent: Session, now: int) returns (ok: bool)
      requires Valid() && id != ""
      modifies this
      ensures Valid() && Inserted(old(m), m, id, ent, now, ok)
    {
      var count, oldest := Scan(ent.cred, now);
      ghost var live := m;
      if count >= MAX_PER_CREDENTIAL {
        m := m - {oldest};
      }
      ghost var rest := m;
      if |m| >= MAX_SESSIONS {
        ok := false;
      } else {
        m := m[id := ent];
        ok := true;
      }
      assert Settled(rest, m, id, ent, ok);
      assert Inserted(old(m), m, id, ent, now, ok);
      InsertionProtects(old(m), m, id, ent, now, ok);
    }

    /** get: an expired session is not returned, and is dropped. */
    method Get(id: string, now: int) returns (r: Option<Session>)
      requires Valid()
      modifies this
      ensures Valid()
      ensures r == if id in old(m) && Live(old(m)[id], now) then Some(old(m)[id]) else None
      ensures m == if r.Some? then old(m) else old(m) - {id}
    {
      if id !in m || !(now < m[id].expires) {
        Delete(id);
        return None;
      }
      r := Some(m[id]);
    }

    method Delete(id: string)
      requires Valid()
      modifies this
      ensures Valid() && m == old(m) - {id}
    {
      forall c ensures |OfCredential(m - {id}, c)| <= MAX_PER_CREDENTIAL {
        Fewer(m, m - {id}, c);
        assert |OfCredential(m, c)| <= MAX_PER_CREDENTIAL;
      }
      Fewer(m, m - {id}, "");
      m := m - {id};
    }
  }
}
