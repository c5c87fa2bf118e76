/** A Python dict as an association list: keys in insertion order, the
    first entry for a key is the one that counts. `setdefault` and item
    assignment are the two operations the config rewrite uses. */
module OrderedDict {
  import opened Wrappers

  type Entries<K, V> = seq<(K, V)>

  predicate HasKey<K(==), V>(e: Entries<K, V>, k: K) {
    exists i :: 0 <= i < |e| && e[i].0 == k
  }

  /** Every key occurs once, as in a real dict. */
  predicate UniqueKeys<K(==), V>(e: Entries<K, V>) {
    forall i, j :: 0 <= i < j < |e| ==> e[i].0 != e[j].0
  }

  /** The position of key k. */
  function IndexOf<K(==), V>(e: Entries<K, V>, k: K): (i: nat)
    requires HasKey(e, k)
    ensures i < |e| && e[i].0 == k
    ensures forall j :: 0 <= j < i ==> e[j].0 != k
    decreases |e|
  {
    if e[0].0 == k then 0
    else
      assert HasKey(e[1..], k) by {
        var i :| 0 <= i < |e| && e[i].0 == k;
        assert e[1..][i - 1].0 == k;
      }
      1 + IndexOf(e[1..], k)
  }

  /** d.get(k): the value stored under k, if any. */
  function Get<K(==), V>(e: Entries<K, V>, k: K): Option<V> {
    if HasKey(e, k) then Some(e[IndexOf(e, k)].1) else None
  }

  /** after is before with only the value under k changed, or with k
      appended at the end when before lacks it: every other key keeps its
      value and its position. */
  ghost predicate ChangedOnlyAt<K, V>(before: Entries<K, V>, after: Entries<K, V>, k: K) {
    && |after| == (if HasKey(before, k) then |before| else |before| + 1)
    && (forall i :: 0 <= i < |before| ==> after[i].0 == before[i].0)
    && (forall i :: 0 <= i < |before| && before[i].0 != k ==> after[i].1 == before[i].1)
    && (!HasKey(before, k) ==> after[|before|].0 == k)
  }

  /** d[k] = v: overwrites the value in place, or appends a new entry. */
  function SetItem<K(==), V>(e: Entries<K, V>, k: K, v: V): (r: Entries<K, V>)
    ensures ChangedOnlyAt(e, r, k)
    ensures Get(r, k) == Some(v)
  {
    if HasKey(e, k) then
      var i := IndexOf(e, k);
      var r := e[i := (k, v)];
      assert HasKey(r, k) by { assert r[i].0 == k; }
      IndexOfFirst(r, k, i);
      r
    else
      var r := e + [(k, v)];
      assert HasKey(r, k) by { assert r[|e|].0 == k; }
      assert forall j :: 0 <= j < |e| ==> r[j].0 != k by {
        forall j | 0 <= j < |e| ensures r[j].0 != k {
          assert r[j] == e[j];
        }
      }
      IndexOfFirst(r, k, |e|);
      r
  }

  /** d.setdefault(k, d0): leaves d alone when it has k, otherwise appends
      (k, d0); returns the dict and the value now stored under k. */
  function SetDefault<K(==), V>(e: Entries<K, V>, k: K, default: V): (r: (Entries<K, V>, V))
    ensures Get(r.0, k) == Some(r.1)
    ensures HasKey(e, k) ==> r.0 == e
    ensures !HasKey(e, k) ==> r.0 == e + [(k, default)] && r.1 == default
  {
    if HasKey(e, k) then (e, e[IndexOf(e, k)].1)
    else
      var r := e + [(k, default)];
      assert HasKey(r, k) by { assert r[|e|].0 == k; }
      assert forall j :: 0 <= j < |e| ==> r[j].0 != k by {
        forall j | 0 <= j < |e| ensures r[j].0 != k {
          assert r[j] == e[j];
        }
      }
      IndexOfFirst(r, k, |e|);
      (r, default)
  }

  /** IndexOf finds the first position holding k. */
  lemma IndexOfFirst<K, V>(e: Entries<K, V>, k: K, i: nat)
    requires i < |e| && e[i].0 == k
    requires forall j :: 0 <= j < i ==> e[j].0 != k
    ensures HasKey(e, k) && IndexOf(e, k) == i
  {
  }

  /** Assigning a key twice keeps only the second value. */
  lemma SetItemTwice<K, V>(e: Entries<K, V>, k: K, v1: V, v2: V)
    ensures SetItem(SetItem(e, k, v1), k, v2) == SetItem(e, k, v2)
  {
    var once := SetItem(e, k, v1);
    assert HasKey(once, k);
    if HasKey(e, k) {
      assert IndexOf(once, k) == IndexOf(e, k);
    } else {
      assert IndexOf(once, k) == |e|;
    }
  }

  /** Assigning a key leaves every other key's lookup unchanged. */
  lemma GetAfterSetItem<K, V>(e: Entries<K, V>, k: K, v: V, other: K)
    requires other != k
    ensures Get(SetItem(e, k, v), other) == Get(e, other)
  {
  }

  /** Assignment keeps a dict's keys unique. */
  lemma SetItemUniqueKeys<K, V>(e: Entries<K, V>, k: K, v: V)
    requires UniqueKeys(e)
    ensures UniqueKeys(SetItem(e, k, v))
  {
  }

  /** setdefault keeps a dict's keys unique. */
  lemma SetDefaultUniqueKeys<K, V>(e: Entries<K, V>, k: K, default: V)
    requires UniqueKeys(e)
    ensures UniqueKeys(SetDefault(e, k, default).0)
  {
  }

  /** Assigning the only key of a one-entry mapping replaces its value. */
  lemma SetItemOnSingle<K, V>(k: K, v0: V, v: V)
    ensures SetItem([(k, v0)], k, v) == [(k, v)]
  {
  }

  /** setdefault followed by an assignment to the same key changes only that key. */
  lemma SetDefaultThenSetItem<K, V>(e: Entries<K, V>, k: K, default: V, v: V)
    ensures ChangedOnlyAt(e, SetItem(SetDefault(e, k, default).0, k, v), k)
  {
  }
}
