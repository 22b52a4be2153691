/**
 * The media collection of a master playlist: an ordered sequence of
 * renditions that never holds two with the same identity key
 * (type, group-id, name).
 */
module MediaList {
  import opened Wrappers
  import opened Media
  import opened Sequences

  /** The collection invariant: no two entries share a key. */
  predicate UniqueKeys(ms: seq<Media>)
  {
    forall i, j :: 0 <= i < j < |ms| ==> Key(ms[i]) != Key(ms[j])
  }

  /** The entry stored under key `k`, if any. */
  function Lookup(ms: seq<Media>, k: MediaKey): (r: Option<Media>)
    ensures r.None? <==> forall i :: 0 <= i < |ms| ==> Key(ms[i]) != k
    ensures r.Some? ==> Key(r.value) == k && r.value in ms
  {
    if |ms| == 0 then None
    else if Key(ms[0]) == k then Some(ms[0])
    else Lookup(ms[1..], k)
  }

  /** The entries, in order, except those with key `k`. */
  function RemoveKey(ms: seq<Media>, k: MediaKey): (r: seq<Media>)
    ensures forall x :: x in r <==> x in ms && Key(x) != k
    ensures |r| <= |ms|
  {
    if |ms| == 0 then []
    else if Key(ms[0]) == k then RemoveKey(ms[1..], k)
    else [ms[0]] + RemoveKey(ms[1..], k)
  }

  /**
   * `add(m, replace)`: a new key is appended; on a key already present the
   * stored entry stays, unless `replace` asks for the stored one to be taken
   * out and `m` appended instead.
   */
  function Add(ms: seq<Media>, m: Media, replace: bool): (r: seq<Media>)
    ensures Lookup(r, Key(m)).Some?
    ensures forall x :: x in r ==> x in ms || x == m
    ensures forall x :: x in ms && Key(x) != Key(m) ==> x in r
    ensures replace || Lookup(ms, Key(m)).None? ==> m in r
  {
    if Lookup(ms, Key(m)).None? then
      assert (ms + [m])[|ms|] == m;
      ms + [m]
    else if replace then
      var kept := RemoveKey(ms, Key(m));
      assert (kept + [m])[|kept|] == m;
      kept + [m]
    else ms
  }

  /** `remove(m)`: takes out the entry with `m`'s key; a no-op when there is none. */
  function Remove(ms: seq<Media>, m: Media): (r: seq<Media>)
    ensures Lookup(r, Key(m)).None?
    ensures forall x :: x in r <==> x in ms && Key(x) != Key(m)
  {
    RemoveKey(ms, Key(m))
  }

  lemma {:induction false} RemoveKeyUnique(ms: seq<Media>, k: MediaKey)
    requires UniqueKeys(ms)
    ensures UniqueKeys(RemoveKey(ms, k))
  {
    if |ms| > 0 {
      UniqueTail(ms);
      RemoveKeyUnique(ms[1..], k);
      var r := RemoveKey(ms[1..], k);
      forall x | x in r ensures Key(x) != Key(ms[0]) {
        var j :| 0 <= j < |ms[1..]| && ms[1..][j] == x;
        assert ms[j + 1] == x;
      }
    }
  }

  lemma {:induction false} RemoveKeyAbsent(ms: seq<Media>, k: MediaKey)
    requires Lookup(ms, k).None?
    ensures RemoveKey(ms, k) == ms
  {
    if |ms| > 0 {
      RemoveKeyAbsent(ms[1..], k);
    }
  }

  /** With unique keys, removing the first entry's key drops just that entry. */
  lemma RemoveKeyHead(ms: seq<Media>, k: MediaKey)
    requires UniqueKeys(ms) && |ms| > 0 && Key(ms[0]) == k
    ensures RemoveKey(ms, k) == ms[1..]
  {
    var tail := ms[1..];
    forall j | 0 <= j < |tail| ensures Key(tail[j]) != k {
      assert tail[j] == ms[j + 1];
    }
    RemoveKeyAbsent(tail, k);
  }

  /** With unique keys, removing a present key drops exactly its one entry, wherever it stands. */
  lemma {:induction false} RemoveKeyAt(ms: seq<Media>, k: MediaKey, i: nat)
    requires UniqueKeys(ms) && i < |ms| && Key(ms[i]) == k
    ensures RemoveKey(ms, k) == ms[..i] + ms[i + 1..]
  {
    if i == 0 {
      RemoveKeyHead(ms, k);
    } else {
      UniqueTail(ms);
      RemoveKeyAt(ms[1..], k, i - 1);
      assert Key(ms[0]) != Key(ms[i]);
      Splice(ms, i);
    }
  }

  lemma UniqueTail(ms: seq<Media>)
    requires UniqueKeys(ms) && |ms| > 0
    ensures UniqueKeys(ms[1..])
  {
    var tail := ms[1..];
    forall i, j | 0 <= i < j < |tail| ensures Key(tail[i]) != Key(tail[j]) {
      assert tail[i] == ms[i + 1] && tail[j] == ms[j + 1];
    }
  }

  /** Adding keeps the keys unique. */
  lemma AddUnique(ms: seq<Media>, m: Media, replace: bool)
    requires UniqueKeys(ms)
    ensures UniqueKeys(Add(ms, m, replace))
  {
    if Lookup(ms, Key(m)).None? {
      assert forall i :: 0 <= i < |ms| ==> (ms + [m])[i] == ms[i];
    } else if replace {
      RemoveKeyUnique(ms, Key(m));
      var r := RemoveKey(ms, Key(m));
      forall i | 0 <= i < |r| ensures Key(r[i]) != Key(m) {
        assert r[i] in r;
      }
      assert forall i :: 0 <= i < |r| ==> (r + [m])[i] == r[i];
    }
  }

  /**
   * After `Add(ms, m, replace)` the key of `m` holds `m` when it was new or
   * `replace` is set, and the first-stored entry otherwise; every other key
   * holds what it held before.
   */
  lemma AddLookup(ms: seq<Media>, m: Media, replace: bool, k: MediaKey)
    requires UniqueKeys(ms)
    ensures Lookup(Add(ms, m, replace), k) ==
              if k != Key(m) then Lookup(ms, k)
              else if replace || Lookup(ms, k).None? then Some(m)
              else Lookup(ms, k)
  {
    AddUnique(ms, m, replace);
    var r := Add(ms, m, replace);
    var found := Lookup(r, k);
    if k != Key(m) {
      LookupSameMembers(ms, r, k);
    } else if replace || Lookup(ms, k).None? {
      assert r[|r| - 1] == m;
      LookupUnique(r, k, m);
    }
  }

  /** With unique keys, the entry looked up is the one member carrying the key. */
  lemma LookupUnique(ms: seq<Media>, k: MediaKey, x: Media)
    requires UniqueKeys(ms) && x in ms && Key(x) == k
    ensures Lookup(ms, k) == Some(x)
  {
    var y := Lookup(ms, k).value;
    var i :| 0 <= i < |ms| && ms[i] == x;
    var j :| 0 <= j < |ms| && ms[j] == y;
    assert i == j;
  }

  /** Two collections with unique keys that agree on the members with key `k` agree on `k`. */
  lemma LookupSameMembers(a: seq<Media>, b: seq<Media>, k: MediaKey)
    requires UniqueKeys(a) && UniqueKeys(b)
    requires forall x :: Key(x) == k ==> (x in a <==> x in b)
    ensures Lookup(a, k) == Lookup(b, k)
  {
    if Lookup(a, k).Some? {
      LookupUnique(b, k, Lookup(a, k).value);
    } else if Lookup(b, k).Some? {
      LookupUnique(a, k, Lookup(b, k).value);
    }
  }

  /** Without `replace` a present key leaves the collection as it was; otherwise one entry is added. */
  lemma AddLength(ms: seq<Media>, m: Media, replace: bool)
    requires UniqueKeys(ms)
    ensures |Add(ms, m, replace)| == if Lookup(ms, Key(m)).Some? then |ms| else |ms| + 1
  {
    var found := Lookup(ms, Key(m));
    if found.Some? && replace {
      var i :| 0 <= i < |ms| && ms[i] == found.value;
      RemoveKeyAt(ms, Key(m), i);
    }
  }

  /** After removal the key is absent, every other key is untouched, and the length drops by one exactly when the key was present. */
  lemma RemoveLookup(ms: seq<Media>, m: Media, k: MediaKey)
    requires UniqueKeys(ms)
    ensures UniqueKeys(Remove(ms, m))
    ensures Lookup(Remove(ms, m), k) == if k == Key(m) then None else Lookup(ms, k)
    ensures |Remove(ms, m)| == if Lookup(ms, Key(m)).Some? then |ms| - 1 else |ms|
  {
    RemoveKeyUnique(ms, Key(m));
    var r := Remove(ms, m);
    if k != Key(m) {
      LookupSameMembers(ms, r, k);
    }
    var found := Lookup(ms, Key(m));
    if found.Some? {
      var i :| 0 <= i < |ms| && ms[i] == found.value;
      RemoveKeyAt(ms, Key(m), i);
    } else {
      RemoveKeyAbsent(ms, Key(m));
    }
  }

  /** Removing what was just added under a new key restores the collection. */
  lemma RemoveAfterAdd(ms: seq<Media>, m: Media, same: Media, replace: bool)
    requires UniqueKeys(ms) && Lookup(ms, Key(m)).None? && Key(same) == Key(m)
    ensures Remove(Add(ms, m, replace), same) == ms
  {
    var r := ms + [m];
    assert UniqueKeys(r) by { AddUnique(ms, m, replace); }
    RemoveKeyAt(r, Key(m), |ms|);
    assert r[..|ms|] == ms;
  }

  /** The index of the entry with key `k`, or `|ms|` when there is none: the scan `add` and `remove` do. */
  method IndexOfKey(ms: seq<Media>, k: MediaKey) returns (i: nat)
    ensures i <= |ms|
    ensures i == |ms| <==> Lookup(ms, k).None?
    ensures i < |ms| ==> Lookup(ms, k) == Some(ms[i])
  {
    i := 0;
    while i < |ms| && Key(ms[i]) != k
      invariant i <= |ms|
      invariant forall j :: 0 <= j < i ==> Key(ms[j]) != k
      invariant Lookup(ms, k) == Lookup(ms[i..], k)
    {
      assert ms[i..][1..] == ms[i + 1..];
      i := i + 1;
    }
  }
}
