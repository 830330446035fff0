/**
 * A JavaScript object used as a dictionary (`Record<string, V>`): entries in
 * insertion order, where assigning to a present key overwrites its value in
 * place and assigning to a new key appends it.
 */
module Dict {
  import opened Wrappers

  type Entries<V> = seq<(string, V)>

  predicate HasKey<V>(d: Entries<V>, k: string)
  {
    exists i :: 0 <= i < |d| && d[i].0 == k
  }

  /** Every key occurs once, as in an object. */
  predicate UniqueKeys<V>(d: Entries<V>)
  {
    forall i, j :: 0 <= i < j < |d| ==> d[i].0 != d[j].0
  }

  /** The position of key `k`, if present (the first one, if several). */
  function FindKey<V>(d: Entries<V>, k: string): (r: Option<nat>)
    ensures r.Some? ==> r.value < |d| && d[r.value].0 == k
    ensures r.Some? ==> forall j :: 0 <= j < r.value ==> d[j].0 != k
    ensures r.None? <==> !HasKey(d, k)
  {
    if |d| == 0 then None
    else if d[0].0 == k then Some(0)
    else match FindKey(d[1..], k)
      case Some(i) => Some(i + 1)
      case None => None
  }

  /** `d[k]`; None stands for `undefined`. */
  function Lookup<V>(d: Entries<V>, k: string): (r: Option<V>)
    ensures r.Some? <==> HasKey(d, k)
  {
    match FindKey(d, k)
    case Some(i) => Some(d[i].1)
    case None => None
  }

  /** `d[k] = v`. */
  function Put<V>(d: Entries<V>, k: string, v: V): (r: Entries<V>)
    ensures HasKey(r, k)
  {
    match FindKey(d, k)
    case Some(i) =>
      var r := d[i := (k, v)];
      assert r[i].0 == k;
      r
    case None =>
      var r := d + [(k, v)];
      assert r[|d|].0 == k;
      r
  }

  /** Every entry after `d[k] = v` is `(k, v)` or the entry of `d` in the same place. */
  lemma PutAt<V>(d: Entries<V>, k: string, v: V, i: nat)
    requires i < |Put(d, k, v)|
    ensures Put(d, k, v)[i] == (k, v) || (i < |d| && Put(d, k, v)[i] == d[i])
  {
  }

  /** Two entry lists with the same keys in the same places find keys alike. */
  lemma {:induction false} FindKeySameKeys<V>(d: Entries<V>, r: Entries<V>, k: string)
    requires |d| == |r|
    requires forall i :: 0 <= i < |d| ==> d[i].0 == r[i].0
    ensures FindKey(d, k) == FindKey(r, k)
  {
    if |d| > 0 && d[0].0 != k {
      FindKeySameKeys(d[1..], r[1..], k);
    }
  }

  /** Looking up in `d + [e]`: entries of `d` come first. */
  lemma LookupAppend<V>(d: Entries<V>, e: (string, V), k: string)
    ensures Lookup(d + [e], k) ==
      if HasKey(d, k) then Lookup(d, k) else if e.0 == k then Some(e.1) else None
  {
    var r := d + [e];
    assert forall t :: 0 <= t < |d| ==> r[t] == d[t];
    if HasKey(d, k) {
      var j := FindKey(d, k).value;
      assert r[j].0 == k;
    } else if e.0 == k {
      assert r[|d|].0 == k;
    }
  }

  /** After `d[k] = v`, `k` reads `v` and every other key reads as before. */
  lemma LookupPut<V>(d: Entries<V>, k: string, v: V, k': string)
    ensures Lookup(Put(d, k, v), k') == if k' == k then Some(v) else Lookup(d, k')
  {
    var r := Put(d, k, v);
    match FindKey(d, k)
    case Some(i) =>
      FindKeySameKeys(d, r, k');
    case None =>
      LookupAppend(d, (k, v), k');
  }

  /** Assigning to a key that is absent appends one entry at the end. */
  lemma PutAbsent<V>(d: Entries<V>, k: string, v: V)
    requires !HasKey(d, k)
    ensures Put(d, k, v) == d + [(k, v)]
  {
  }

  lemma HasKeyAppend<V>(d: Entries<V>, e: (string, V), k: string)
    ensures HasKey(d + [e], k) <==> HasKey(d, k) || e.0 == k
  {
    var r := d + [e];
    if HasKey(d, k) {
      var j :| 0 <= j < |d| && d[j].0 == k;
      assert r[j].0 == k;
    }
    if e.0 == k {
      assert r[|d|].0 == k;
    }
  }

  /** Assignment keeps keys unique, and a key is present afterwards iff it was or is `k`. */
  lemma PutKeys<V>(d: Entries<V>, k: string, v: V)
    requires UniqueKeys(d)
    ensures UniqueKeys(Put(d, k, v))
    ensures forall k' :: HasKey(Put(d, k, v), k') <==> HasKey(d, k') || k' == k
  {
    var r := Put(d, k, v);
    forall k' ensures HasKey(r, k') <==> HasKey(d, k') || k' == k {
      if HasKey(d, k') {
        var j :| 0 <= j < |d| && d[j].0 == k';
        assert r[j].0 == k';
      }
    }
  }

  /** Assigning the entries `es` in order: `d[k1] = v1; d[k2] = v2; ...`. */
  function PutAll<V>(d: Entries<V>, es: Entries<V>): Entries<V>
    decreases |es|
  {
    if |es| == 0 then d
    else Put(PutAll(d, es[..|es| - 1]), es[|es| - 1].0, es[|es| - 1].1)
  }

  /** One more assignment after a run of assignments. */
  lemma PutAllSnoc<V>(d: Entries<V>, es: Entries<V>, e: (string, V))
    ensures PutAll(d, es + [e]) == Put(PutAll(d, es), e.0, e.1)
  {
    assert (es + [e])[..|es|] == es;
  }

  /** A list with unique keys stays unique without its last entry, whose key it then lacks. */
  lemma UniqueInit<V>(d: Entries<V>, e: (string, V))
    requires UniqueKeys(d + [e])
    ensures UniqueKeys(d) && !HasKey(d, e.0)
  {
    var r := d + [e];
    assert forall i :: 0 <= i < |d| ==> r[i] == d[i];
    assert r[|d|] == e;
  }

  /** Two unique lists with no key in common concatenate to a unique list. */
  lemma UniqueConcat<V>(a: Entries<V>, b: Entries<V>)
    requires UniqueKeys(a) && UniqueKeys(b)
    requires forall i, j :: 0 <= i < |a| && 0 <= j < |b| ==> a[i].0 != b[j].0
    ensures UniqueKeys(a + b)
  {
    var r := a + b;
    forall i, j | 0 <= i < j < |r| ensures r[i].0 != r[j].0 {
      if j < |a| {
        assert r[i] == a[i] && r[j] == a[j];
      } else if i < |a| {
        assert r[i] == a[i] && r[j] == b[j - |a|];
      } else {
        assert r[i] == b[i - |a|] && r[j] == b[j - |a|];
      }
    }
  }

  /** Assigning keys that are all new, each once, appends them in order. */
  lemma {:induction false} PutAllFresh<V>(d: Entries<V>, es: Entries<V>)
    requires UniqueKeys(d + es)
    ensures PutAll(d, es) == d + es
    decreases |es|
  {
    if |es| > 0 {
      var init, e := es[..|es| - 1], es[|es| - 1];
      assert d + es == (d + init) + [e];
      UniqueInit(d + init, e);
      assert UniqueKeys(d + init);
      PutAllFresh(d, init);
      PutAbsent(d + init, e.0, e.1);
    }
  }

  /** The entries for which `f` holds, in their order (`Object.entries(d).filter(...)`). */
  function Keep<V>(d: Entries<V>, f: (string, V) -> bool): Entries<V>
  {
    if |d| == 0 then []
    else
      var init := Keep(d[..|d| - 1], f);
      if f(d[|d| - 1].0, d[|d| - 1].1) then init + [d[|d| - 1]] else init
  }

  /** An entry survives Keep exactly when it was there and `f` holds of it. */
  lemma {:induction false} KeepMembers<V>(d: Entries<V>, f: (string, V) -> bool)
    ensures forall e :: e in Keep(d, f) <==> e in d && f(e.0, e.1)
  {
    if |d| > 0 {
      KeepMembers(d[..|d| - 1], f);
      assert d == d[..|d| - 1] + [d[|d| - 1]];
    }
  }

  lemma KeepHasKey<V>(d: Entries<V>, f: (string, V) -> bool, k: string)
    ensures HasKey(Keep(d, f), k) ==> HasKey(d, k)
  {
    KeepMembers(d, f);
    if HasKey(Keep(d, f), k) {
      var r := Keep(d, f);
      var i :| 0 <= i < |r| && r[i].0 == k;
      assert r[i] in d;
    }
  }

  /** Keep preserves uniqueness of keys. */
  lemma {:induction false} KeepUnique<V>(d: Entries<V>, f: (string, V) -> bool)
    requires UniqueKeys(d)
    ensures UniqueKeys(Keep(d, f))
  {
    if |d| > 0 {
      var init := d[..|d| - 1];
      KeepUnique(init, f);
      var last := d[|d| - 1];
      KeepHasKey(init, f, last.0);
    }
  }

  /** Looking a key up after Keep: the old value if `f` holds of it, else nothing. */
  lemma {:induction false} KeepLookup<V>(d: Entries<V>, f: (string, V) -> bool, k: string)
    requires UniqueKeys(d)
    ensures Lookup(Keep(d, f), k) ==
      match Lookup(d, k)
      case Some(v) => if f(k, v) then Some(v) else None
      case None => None
  {
    if |d| > 0 {
      var init := d[..|d| - 1];
      var last := d[|d| - 1];
      assert d == init + [last];
      KeepLookup(init, f, k);
      KeepHasKey(init, f, k);
      LookupAppend(init, last, k);
      LookupAppend(Keep(init, f), last, k);
    }
  }

  /** Keep distributes over concatenation. */
  lemma {:induction false} KeepConcat<V>(a: Entries<V>, b: Entries<V>, f: (string, V) -> bool)
    ensures Keep(a + b, f) == Keep(a, f) + Keep(b, f)
    decreases |b|
  {
    if |b| > 0 {
      var ab := a + b;
      assert ab[..|ab| - 1] == a + b[..|b| - 1];
      assert ab[|ab| - 1] == b[|b| - 1];
      KeepConcat(a, b[..|b| - 1], f);
    } else {
      assert a + b == a;
    }
  }

  /** Keep changes nothing when `f` holds of every entry. */
  lemma {:induction false} KeepAll<V>(d: Entries<V>, f: (string, V) -> bool)
    requires forall i :: 0 <= i < |d| ==> f(d[i].0, d[i].1)
    ensures Keep(d, f) == d
  {
    if |d| > 0 {
      KeepAll(d[..|d| - 1], f);
    }
  }

  /** Keep drops everything when `f` holds of no entry. */
  lemma {:induction false} KeepNone<V>(d: Entries<V>, f: (string, V) -> bool)
    requires forall i :: 0 <= i < |d| ==> !f(d[i].0, d[i].1)
    ensures Keep(d, f) == []
  {
    if |d| > 0 {
      KeepNone(d[..|d| - 1], f);
    }
  }
}
