/**
 * The ordered map from display labels to values that a page's extra properties are
 * gathered into (Rust's `BTreeMap<String, String>`). It is modelled by its list of
 * entries, kept in strictly ascending key order, which is also the order in which
 * the map hands its entries out. Keys compare as Rust's `String` does: character
 * by character, a proper prefix first.
 */
module SortedMap {

  /** Strict lexicographic order on strings. */
  predicate Less(a: string, b: string)
    decreases |a|
  {
    if |a| == 0 then |b| > 0
    else if |b| == 0 then false
    else if a[0] != b[0] then a[0] < b[0]
    else Less(a[1..], b[1..])
  }

  lemma {:induction false} LessIrreflexive(a: string)
    ensures !Less(a, a)
    decreases |a|
  {
    if |a| > 0 {
      LessIrreflexive(a[1..]);
    }
  }

  lemma {:induction false} LessTransitive(a: string, b: string, c: string)
    requires Less(a, b) && Less(b, c)
    ensures Less(a, c)
    decreases |a|
  {
    if |a| > 0 && a[0] == b[0] && b[0] == c[0] {
      LessTransitive(a[1..], b[1..], c[1..]);
    }
  }

  lemma {:induction false} LessTotal(a: string, b: string)
    requires a != b
    ensures Less(a, b) || Less(b, a)
    decreases |a|
  {
    if |a| > 0 && |b| > 0 && a[0] == b[0] {
      assert a == [a[0]] + a[1..] && b == [b[0]] + b[1..];
      LessTotal(a[1..], b[1..]);
    }
  }

  lemma LessAsymmetric(a: string, b: string)
    requires Less(a, b)
    ensures !Less(b, a)
  {
    if Less(b, a) {
      LessTransitive(a, b, a);
      LessIrreflexive(a);
    }
  }

  type Entries = seq<(string, string)>

  /** The entries are in strictly ascending key order (so no key occurs twice). */
  predicate Sorted(e: Entries) {
    forall i, j :: 0 <= i < j < |e| ==> Less(e[i].0, e[j].0)
  }

  /** The map the entries stand for. */
  function ToMap(e: Entries): map<string, string> {
    if |e| == 0 then map[] else ToMap(e[1..])[e[0].0 := e[0].1]
  }

  /** A key is in the map exactly when some entry carries it. */
  lemma {:induction false} ToMapKeys(e: Entries, k: string)
    ensures k in ToMap(e) <==> exists i :: 0 <= i < |e| && e[i].0 == k
  {
    if |e| > 0 {
      ToMapKeys(e[1..], k);
      if k in ToMap(e[1..]) {
        var i :| 0 <= i < |e| - 1 && e[1..][i].0 == k;
        assert e[i + 1].0 == k;
      }
      if exists i :: 0 <= i < |e| && e[i].0 == k {
        var i :| 0 <= i < |e| && e[i].0 == k;
        if i > 0 {
          assert e[1..][i - 1].0 == k;
        }
      }
    }
  }

  /** In sorted entries, each entry's value is what the map holds for its key. */
  lemma {:induction false} ToMapValues(e: Entries, i: nat)
    requires Sorted(e) && i < |e|
    ensures e[i].0 in ToMap(e) && ToMap(e)[e[i].0] == e[i].1
  {
    if i > 0 {
      ToMapValues(e[1..], i - 1);
      assert Less(e[0].0, e[i].0);
      LessIrreflexive(e[0].0);
    }
  }

  /**
   * Rust's `BTreeMap::insert`: adds the entry in its place in key order, or replaces
   * the value of an existing key.
   */
  function Insert(e: Entries, k: string, v: string): (r: Entries)
    requires Sorted(e)
    ensures Sorted(r)
    ensures ToMap(r) == ToMap(e)[k := v]
    ensures forall i :: 0 <= i < |r| ==> r[i].0 == k || exists j :: 0 <= j < |e| && e[j].0 == r[i].0
    decreases |e|
  {
    if |e| == 0 then
      [(k, v)]
    else if e[0].0 == k then
      [(k, v)] + e[1..]
    else if Less(k, e[0].0) then
      forall j | 0 < j < |e| ensures Less(k, e[j].0) {
        LessTransitive(k, e[0].0, e[j].0);
      }
      [(k, v)] + e
    else
      LessTotal(k, e[0].0);
      var rest := Insert(e[1..], k, v);
      forall i | 0 <= i < |rest| ensures Less(e[0].0, rest[i].0) {
      }
      [e[0]] + rest
  }

  /** The map determines its entry list: two sorted lists with the same map are equal. */
  lemma {:induction false} SortedUnique(a: Entries, b: Entries)
    requires Sorted(a) && Sorted(b) && ToMap(a) == ToMap(b)
    ensures a == b
    decreases |a|
  {
    if |a| > 0 && |b| > 0 {
      ToMapValues(a, 0);
      ToMapValues(b, 0);
      ToMapKeys(a, b[0].0);
      ToMapKeys(b, a[0].0);
      var i :| 0 <= i < |a| && a[i].0 == b[0].0;
      var j :| 0 <= j < |b| && b[j].0 == a[0].0;
      if a[0].0 != b[0].0 {
        assert i > 0 && j > 0;
        LessAsymmetric(a[0].0, a[i].0);
      }
      assert a[0] == b[0];
      TailMap(a);
      TailMap(b);
      SortedUnique(a[1..], b[1..]);
    } else if |a| > 0 {
      ToMapValues(a, 0);
    } else if |b| > 0 {
      ToMapValues(b, 0);
    }
  }

  /** Dropping the least entry of a sorted list removes exactly its key from the map. */
  lemma TailMap(e: Entries)
    requires Sorted(e) && |e| > 0
    ensures ToMap(e[1..]) == ToMap(e) - {e[0].0}
  {
    var t := ToMap(e[1..]);
    ToMapKeys(e[1..], e[0].0);
    if e[0].0 in t {
      var i :| 0 <= i < |e| - 1 && e[1..][i].0 == e[0].0;
      assert Less(e[0].0, e[i + 1].0);
      LessIrreflexive(e[0].0);
    }
    assert t[e[0].0 := e[0].1] - {e[0].0} == t;
  }
}
