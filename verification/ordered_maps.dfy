/**
 * Python's insertion-ordered dictionary (`OrderedDict`, and plain `dict`
 * iteration order) as a sequence of entries. Assigning to a key that is
 * already present replaces its value in place; a new key goes to the end.
 */
module OrderedMaps {
  import opened Results

  /** Dictionary keys are skill keys, i.e. strings. */
  type Key = string

  datatype Entry<V> = Entry(key: Key, value: V)

  /** The keys in iteration order. */
  function Keys<V>(m: seq<Entry<V>>): (ks: seq<Key>)
    ensures |ks| == |m|
    ensures forall i :: 0 <= i < |m| ==> ks[i] == m[i].key
  {
    seq(|m|, i requires 0 <= i < |m| => m[i].key)
  }

  /** The values in iteration order. */
  function Values<V>(m: seq<Entry<V>>): (vs: seq<V>)
    ensures |vs| == |m|
    ensures forall i :: 0 <= i < |m| ==> vs[i] == m[i].value
  {
    seq(|m|, i requires 0 <= i < |m| => m[i].value)
  }

  ghost predicate Distinct<T>(s: seq<T>) {
    forall i, j :: 0 <= i < j < |s| ==> s[i] != s[j]
  }

  /** Every key occurs once, as in a real dictionary. */
  ghost predicate WellFormed<V>(m: seq<Entry<V>>) {
    Distinct(Keys(m))
  }

  /** Position of `k`, if present. */
  function IndexOf<V>(m: seq<Entry<V>>, k: Key): (r: Option<nat>)
    ensures r.Some? ==> r.value < |m| && m[r.value].key == k
    ensures r.Some? ==> forall j :: 0 <= j < r.value ==> m[j].key != k
    ensures r.None? <==> k !in Keys(m)
  {
    if |m| == 0 then None
    else if m[0].key == k then Some(0)
    else
      match IndexOf(m[1..], k)
      case None => None
      case Some(j) => Some(j + 1)
  }

  /** `d.get(k)`. */
  function Get<V>(m: seq<Entry<V>>, k: Key): (r: Option<V>)
    ensures r.Some? <==> k in Keys(m)
    ensures r.Some? ==> exists i :: 0 <= i < |m| && m[i] == Entry(k, r.value)
    ensures WellFormed(m) ==> forall i :: 0 <= i < |m| && m[i].key == k ==> r == Some(m[i].value)
  {
    match IndexOf(m, k)
    case None => None
    case Some(i) =>
      assert forall j :: i < j < |m| ==> Keys(m)[j] == m[j].key && Keys(m)[i] == k;
      Some(m[i].value)
  }

  /** `d[k] = v`. */
  function Put<V>(m: seq<Entry<V>>, k: Key, v: V): (r: seq<Entry<V>>)
    ensures k in Keys(m) ==> |r| == |m| && Keys(r) == Keys(m)
    ensures k !in Keys(m) ==> r == m + [Entry(k, v)]
    ensures forall i :: 0 <= i < |m| && m[i].key != k ==> r[i] == m[i]
    ensures WellFormed(m) ==> WellFormed(r)
  {
    match IndexOf(m, k)
    case None =>
      var r := m + [Entry(k, v)];
      assert Keys(r) == Keys(m) + [k];
      r
    case Some(i) =>
      var r := m[i := Entry(k, v)];
      assert Keys(r) == Keys(m);
      r
  }

  /** The dictionary without `k` (what `d.pop(k)` leaves behind). */
  function Remove<V>(m: seq<Entry<V>>, k: Key): (r: seq<Entry<V>>)
    ensures forall k' :: k' in Keys(r) <==> k' in Keys(m) && k' != k
    ensures WellFormed(m) ==> WellFormed(r)
  {
    if |m| == 0 then []
    else if m[0].key == k then Remove(m[1..], k)
    else
      var rest := Remove(m[1..], k);
      assert Keys(m) == [m[0].key] + Keys(m[1..]);
      assert WellFormed(m) ==> m[0].key !in Keys(m[1..]) && WellFormed(m[1..]);
      assert Keys([m[0]] + rest) == [m[0].key] + Keys(rest);
      [m[0]] + rest
  }

  /** After `d[k] = v`, looking `k` up yields `v`. */
  lemma PutGet<V>(m: seq<Entry<V>>, k: Key, v: V)
    requires WellFormed(m)
    ensures Get(Put(m, k, v), k) == Some(v)
  {
    var r := Put(m, k, v);
    var i :| 0 <= i < |r| && r[i].key == k && r[i].value == v;
  }

  /** A lookup finds the first entry carrying the key. */
  lemma GetFirst<V>(m: seq<Entry<V>>, k: Key, i: nat)
    requires i < |m| && m[i].key == k
    requires forall j :: 0 <= j < i ==> m[j].key != k
    ensures Get(m, k) == Some(m[i].value)
  {
    var r := IndexOf(m, k);
    assert r.Some? by { assert Keys(m)[i] == k; }
  }

  /** `d[k] = v` leaves every other key's lookup unchanged. */
  lemma PutGetOther<V>(m: seq<Entry<V>>, k: Key, v: V, k': Key)
    requires k' != k
    ensures Get(Put(m, k, v), k') == Get(m, k')
  {
    var r := Put(m, k, v);
    match IndexOf(m, k')
    case None =>
      assert k' !in Keys(r) by {
        if k in Keys(m) {
          assert Keys(r) == Keys(m);
        } else {
          assert Keys(r) == Keys(m) + [k];
        }
      }
    case Some(i) =>
      forall j | 0 <= j < i
        ensures r[j].key != k'
      {
        if m[j].key != k {
          assert r[j] == m[j];
        } else if k in Keys(m) {
          assert Keys(r)[j] == Keys(m)[j];
        }
      }
      assert r[i] == m[i];
      GetFirst(r, k', i);
      GetFirst(m, k', i);
  }

  /** Removing `k` leaves every other key's lookup unchanged. */
  lemma {:induction false} RemoveGetOther<V>(m: seq<Entry<V>>, k: Key, k': Key)
    requires k' != k
    ensures Get(Remove(m, k), k') == Get(m, k')
    decreases |m|
  {
    if |m| > 0 {
      RemoveGetOther(m[1..], k, k');
      if m[0].key == k {
        GetTail(m, k');
      } else {
        var r := Remove(m, k);
        assert r == [m[0]] + Remove(m[1..], k);
        assert r[0] == m[0] && r[1..] == Remove(m[1..], k);
        if m[0].key == k' {
          GetFirst(r, k', 0);
          GetFirst(m, k', 0);
        } else {
          GetTail(r, k');
          GetTail(m, k');
        }
      }
    }
  }

  /** A lookup skips a first entry carrying another key. */
  lemma GetTail<V>(m: seq<Entry<V>>, k: Key)
    requires |m| > 0 && m[0].key != k
    ensures Get(m, k) == Get(m[1..], k)
  {
    match IndexOf(m[1..], k)
    case None =>
      assert IndexOf(m, k) == None;
    case Some(j) =>
      assert IndexOf(m, k) == Some(j + 1);
      assert m[1..][j] == m[j + 1];
  }
}
