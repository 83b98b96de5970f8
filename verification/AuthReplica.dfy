/** The replica's cache and its copy of the epoch as objects (server/auth.go). */
module AuthReplica {
  import opened Common
  import AuthCache

  class Replica {
    var entries: map<string, AuthCache.Entry>
    var authEpoch: nat
    var refreshed: Option<int>

    /** The cache never holds more than one entry over its cap. */
    ghost predicate Valid()
      reads this
    {
      |entries| <= AuthCache.CAP + 1
    }

    constructor ()
      ensures Valid() && entries == map[] && authEpoch == 0 && refreshed == None
    {
      entries, authEpoch, refreshed := map[], 0, None;
    }

    method Invalidate(h: string)
      requires Valid()
      modifies this`entries
      ensures Valid() && entries == old(entries) - {h}
    {
      Smaller(entries, h);
      entries := entries - {h};
    }

    /** An entry is returned exactly if it is within its deadline, its epoch and its credential's life. */
    method Get(h: string, epoch: nat, now: int) returns (found: Option<AuthCache.Entry>)
      requires Valid()
      modifies this`entries
      ensures Valid()
      ensures found.Some? <==> AuthCache.Judge(AuthCache.Find(old(entries), h), epoch, now) == AuthCache.Hit
      ensures found.Some? <==>
        && h in old(entries) && now <= old(entries)[h].expires && epoch <= old(entries)[h].epoch
        && (old(entries)[h].key.Some? && old(entries)[h].key.value.expiresAt > 0 ==>
          now < old(entries)[h].key.value.expiresAt * AuthCache.SECOND)
      ensures found.Some? ==> found.value == old(entries)[h]
      ensures entries ==
        if AuthCache.Judge(AuthCache.Find(old(entries), h), epoch, now) == AuthCache.Evict then old(entries) - {h} else old(entries)
      ensures found.None? && h in entries ==> now > entries[h].expires
    {
      if h !in entries || now > entries[h].expires {
        return None;
      }
      var entry := entries[h];
      if entry.epoch < epoch {
        Invalidate(h);
        return None;
      }
      if entry.key.Some? && entry.key.value.expiresAt > 0 && now >= entry.key.value.expiresAt * AuthCache.SECOND {
        Invalidate(h);
        return None;
      }
      found := Some(entry);
    }

    method Put(h: string, entry: AuthCache.Entry)
      requires Valid()
      modifies this`entries
      ensures Valid() && entries == AuthCache.Put(old(entries), h, entry) && h in entries && entries[h] == entry
      ensures |old(entries)| > AuthCache.CAP ==> entries == map[h := entry]
      ensures |old(entries)| <= AuthCache.CAP ==> forall k :: k in old(entries) && k != h ==> k in entries && entries[k] == old(entries)[k]
    {
      Larger(entries, h, entry);
      if |entries| > AuthCache.CAP {
        entries := map[];
      }
      entries := entries[h := entry];
    }

    /** `read` is what the registry answers, None on an error. */
    method SyncAuthEpoch(read: Option<nat>, now: int)
      modifies this`authEpoch, this`refreshed
      ensures read.None? ==> authEpoch == old(authEpoch) && refreshed == old(refreshed)
      ensures read.Some? ==> authEpoch == read.value && refreshed == Some(now)
    {
      if read.None? {
        return;
      }
      authEpoch, refreshed := read.value, Some(now);
    }

    /** Run alone: the epoch returned was stamped less than five seconds before `now`, unless the read failed. */
    method CurrentAuthEpoch(read: Option<nat>, now: int, stampedAt: int) returns (epoch: nat)
      requires now <= stampedAt
      modifies this`authEpoch, this`refreshed
      ensures epoch == authEpoch
      ensures old(refreshed).Some? && now - old(refreshed).value < AuthCache.INTERVAL ==>
        authEpoch == old(authEpoch) && refreshed == old(refreshed)
      ensures read.Some? ==> refreshed.Some? && now - refreshed.value < AuthCache.INTERVAL
      ensures refreshed != old(refreshed) || authEpoch != old(authEpoch) ==> read == Some(authEpoch) && refreshed == Some(stampedAt)
    {
      if refreshed.None? || now - refreshed.value >= AuthCache.INTERVAL {
        SyncAuthEpoch(read, stampedAt);
      }
      epoch := authEpoch;
    }
  }

  lemma Smaller<V>(m: map<string, V>, h: string)
    ensures |m - {h}| <= |m|
  {
    assert (m - {h}).Keys == m.Keys - {h};
  }

  lemma Larger<V>(m: map<string, V>, h: string, v: V)
    ensures |m[h := v]| <= |m| + 1
  {
    assert m[h := v].Keys == m.Keys + {h};
  }
}
