/** src/hls.c: the cache of decryption keys, four slots filled in turn. */
module HlsKeys {
  import opened Prelude

  const KEY_BYTES := 16
  const KEY_CACHE_SLOTS := 4

  datatype Entry = Entry(uri: string, key: Bytes)

  // The index of one of the last four entries.
  predicate Recent(puts: seq<Entry>, j: int) {
    0 <= j < |puts| && j >= |puts| - KEY_CACHE_SLOTS
  }

  // The key cached for a URI.
  ghost predicate Cached(puts: seq<Entry>, uri: string, key: Bytes) {
    exists j :: Recent(puts, j) && puts[j] == Entry(uri, key)
  }

  // No URI is cached twice.
  ghost predicate Distinct(puts: seq<Entry>) {
    forall i, j :: Recent(puts, i) && Recent(puts, j) && puts[i].uri == puts[j].uri ==> i == j
  }

  // The last of n entries that went into slot i.
  function InSlot(n: nat, i: nat): int {
    n - 1 - (n - 1 - i) % KEY_CACHE_SLOTS
  }

  lemma InSlotIs(n: nat, i: nat)
    requires i < KEY_CACHE_SLOTS && i < n
    ensures 0 <= InSlot(n, i) < n && n - KEY_CACHE_SLOTS <= InSlot(n, i) && InSlot(n, i) % KEY_CACHE_SLOTS == i
  {}

  // Three entries in a row leave the slot of the next one alone.
  lemma OtherSlot(n: nat, j: nat)
    requires n - KEY_CACHE_SLOTS < j < n
    ensures j % KEY_CACHE_SLOTS != n % KEY_CACHE_SLOTS
  {}

  lemma NextSlot(n: nat)
    ensures (n % KEY_CACHE_SLOTS + 1) % KEY_CACHE_SLOTS == (n + 1) % KEY_CACHE_SLOTS
    ensures n < KEY_CACHE_SLOTS ==> n % KEY_CACHE_SLOTS == n
  {}

  class KeyCache {
    const uris: array<Option<string>>
    const keys: array<Bytes>
    var next: nat

    // Every key ever cached, in order.
    ghost var puts: seq<Entry>

    ghost predicate Valid()
      reads this, uris, keys
    {
      && uris.Length == KEY_CACHE_SLOTS && keys.Length == KEY_CACHE_SLOTS
      && next == |puts| % KEY_CACHE_SLOTS
      && (forall j :: Recent(puts, j) ==>
            uris[j % KEY_CACHE_SLOTS] == Some(puts[j].uri) && keys[j % KEY_CACHE_SLOTS] == puts[j].key)
      && (forall i | |puts| <= i < KEY_CACHE_SLOTS :: uris[i] == None)
    }

    constructor ()
      ensures Valid() && puts == [] && fresh(uris) && fresh(keys)
    {
      uris := new Option<string>[KEY_CACHE_SLOTS](i => None);
      keys := new Bytes[KEY_CACHE_SLOTS](i => []);
      next, puts := 0, [];
    }

    /** key_cache_find: the key among the last four, if the URI is there. */
    method Find(uri: string) returns (hit: Option<Bytes>)
      requires Valid()
      ensures hit.Some? ==> Cached(puts, uri, hit.value)
      ensures hit.None? ==> forall key :: !Cached(puts, uri, key)
    {
      hide InSlot;
      hit := None;
      for i := 0 to KEY_CACHE_SLOTS
        invariant forall k | 0 <= k < i :: uris[k] != Some(uri)
      {
        if uris[i] == Some(uri) {
          assert i < |puts|;
          InSlotIs(|puts|, i);
          assert Recent(puts, InSlot(|puts|, i));
          return Some(keys[i]);
        }
      }
    }

    /** key_cache_put: the new key takes the place of the oldest. */
    method Put(uri: string, key: Bytes)
      requires Valid()
      modifies this, uris, keys
      ensures Valid() && puts == old(puts) + [Entry(uri, key)]
    {
      hide Cached;
      ghost var n := |puts|;
      NextSlot(n);
      forall j: nat | n - KEY_CACHE_SLOTS < j < n ensures j % KEY_CACHE_SLOTS != next { OtherSlot(n, j); }
      uris[next] := Some(uri);
      keys[next] := key;
      next := (next + 1) % KEY_CACHE_SLOTS;
      puts := puts + [Entry(uri, key)];
      assert forall j :: Recent(puts, j) && j < n ==> Recent(old(puts), j);
    }

    /** segment_key: a key is fetched only when it is not cached, and one of the wrong size is refused. No URI
        comes to be cached twice. */
    method SegmentKey(uri: string, fetched: Option<Bytes>) returns (key: Option<Bytes>)
      requires Valid()
      modifies this, uris, keys
      ensures Valid() && (puts == old(puts) || puts == old(puts) + [Entry(uri, if fetched.Some? then fetched.value else [])])
      ensures key.Some? ==> Cached(puts, uri, key.value)
      ensures key.None? ==> puts == old(puts) && (fetched.None? || |fetched.value| != 16)
      ensures puts != old(puts) ==> key.Some? && key == fetched && |key.value| == 16
      ensures (exists k :: Cached(old(puts), uri, k)) ==> key.Some? && puts == old(puts)
      ensures Distinct(old(puts)) ==> Distinct(puts)
    {
      key := Find(uri);
      if key.Some? { return; }
      if fetched.None? || |fetched.value| != KEY_BYTES { return None; }
      if Distinct(puts) { StaysDistinct(puts, Entry(uri, fetched.value)); }
      Put(uri, fetched.value);
      assert puts[|puts| - 1] == Entry(uri, fetched.value) && Recent(puts, |puts| - 1);
      key := fetched;
    }
  }

  lemma StaysDistinct(puts: seq<Entry>, e: Entry)
    requires Distinct(puts) && forall k :: !Cached(puts, e.uri, k)
    ensures Distinct(puts + [e])
  {
    forall j | Recent(puts, j)
      ensures puts[j].uri != e.uri
    {
      assert !Cached(puts, e.uri, puts[j].key);
    }
    assert forall j :: Recent(puts + [e], j) && j < |puts| ==> Recent(puts, j);
  }

  /** A key stays cached while fewer than four others are put, and is gone with the fourth. */
  lemma EvictedByFourth(puts: seq<Entry>, e: Entry, more: seq<Entry>)
    ensures |more| < 4 ==> Cached(puts + [e] + more, e.uri, e.key)
    ensures |more| >= 4 && (forall m | m in more :: m.uri != e.uri) ==>
      forall key :: !Cached(puts + [e] + more, e.uri, key)
  {
    var all := puts + [e] + more;
    assert all[|puts|] == e == Entry(e.uri, e.key);
    if |more| < KEY_CACHE_SLOTS {
      assert Recent(all, |puts|);
      assert Cached(all, e.uri, e.key);
    } else if forall m | m in more :: m.uri != e.uri {
      forall j | Recent(all, j)
        ensures all[j] in more
      {
        assert all[j] == more[j - |puts| - 1];
      }
    }
  }
}
