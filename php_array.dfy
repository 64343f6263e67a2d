/**
 * PHP's ordered array with string keys, as the configuration factory uses
 * it: a sequence of key/value pairs in insertion order.
 */
module PhpArrays {
  import opened Wrappers

  /** The configuration values the factory handles. */
  datatype Value = Null | Bool(b: bool) | Int(i: int) | Str(s: string)

  type PhpArray = seq<(string, Value)>

  /** No key occurs twice, as in every PHP array. */
  predicate UniqueKeys(a: PhpArray) {
    forall i, j :: 0 <= i < j < |a| ==> a[i].0 != a[j].0
  }

  predicate HasKey(a: PhpArray, k: string) {
    exists i :: 0 <= i < |a| && a[i].0 == k
  }

  /** The position of `k` in `a`, or -1 when `k` is not a key of `a`. */
  function IndexOf(a: PhpArray, k: string): (i: int)
    ensures -1 <= i < |a|
    ensures i >= 0 ==> a[i].0 == k && forall j :: 0 <= j < i ==> a[j].0 != k
    ensures i < 0 <==> !HasKey(a, k)
  {
    if a == [] then -1
    else if a[0].0 == k then 0
    else
      var j := IndexOf(a[1..], k);
      assert forall m :: 0 < m < |a| ==> a[m] == a[1..][m - 1];
      if j < 0 then -1 else j + 1
  }

  /** `$a[$k] ?? null` without the null: the value stored under `k`. */
  function Get(a: PhpArray, k: string): (r: Option<Value>)
    ensures r.Some? <==> HasKey(a, k)
    ensures UniqueKeys(a) ==> forall i :: 0 <= i < |a| && a[i].0 == k ==> r == Some(a[i].1)
  {
    var i := IndexOf(a, k);
    if i >= 0 then Some(a[i].1) else None
  }

  /** `$a[$k] = $v`: overwrites in place when `k` is present, appends otherwise. */
  function Put(a: PhpArray, k: string, v: Value): (r: PhpArray)
    ensures HasKey(a, k) ==> |r| == |a|
    ensures !HasKey(a, k) ==> r == a + [(k, v)]
    ensures forall i :: 0 <= i < |a| ==> r[i].0 == a[i].0
    ensures forall i :: 0 <= i < |a| && a[i].0 != k ==> r[i] == a[i]
    ensures UniqueKeys(a) ==> UniqueKeys(r) && Get(r, k) == Some(v)
  {
    var i := IndexOf(a, k);
    if i >= 0 then a[i := (k, v)]
    else
      assert (a + [(k, v)])[|a|].0 == k;
      a + [(k, v)]
  }

  /** `unset($a[$k])`: drops the pair stored under `k`, keeping the order. */
  function Unset(a: PhpArray, k: string): (r: PhpArray)
    ensures !HasKey(r, k)
    ensures forall p :: p in r <==> p in a && p.0 != k
    ensures UniqueKeys(a) ==> UniqueKeys(r)
    ensures UniqueKeys(a) ==> forall i, j :: 0 <= i < j < |r| ==> IndexOf(a, r[i].0) < IndexOf(a, r[j].0)
  {
    if a == [] then []
    else if a[0].0 == k then Unset(a[1..], k)
    else [a[0]] + Unset(a[1..], k)
  }

  /** Writing one key leaves the value read under any other key as it was. */
  lemma GetPutOther(a: PhpArray, k: string, v: Value, other: string)
    requires UniqueKeys(a) && other != k
    ensures Get(Put(a, k, v), other) == Get(a, other)
  {
    var r := Put(a, k, v);
    if HasKey(r, other) {
      var i :| 0 <= i < |r| && r[i].0 == other;
      assert i < |a|;
    }
  }

  /** `array_combine(array_map($f, array_keys($a)), array_values($a))`: every
      key replaced by `f` of it, each value kept; when two keys map to the
      same name, the later value overwrites the earlier one at the earlier
      one's position. */
  function MapKeys(a: PhpArray, f: string -> string): (r: PhpArray)
    ensures UniqueKeys(r)
    decreases |a|
  {
    if a == [] then []
    else
      var last := a[|a| - 1];
      Put(MapKeys(a[..|a| - 1], f), f(last.0), last.1)
  }

  /** The result has unique keys, exactly the images of the input keys. */
  lemma {:induction false} MapKeysKeys(a: PhpArray, f: string -> string)
    ensures UniqueKeys(MapKeys(a, f))
    ensures forall i :: 0 <= i < |MapKeys(a, f)| ==> exists j :: 0 <= j < |a| && f(a[j].0) == MapKeys(a, f)[i].0
    ensures forall j :: 0 <= j < |a| ==> HasKey(MapKeys(a, f), f(a[j].0))
    decreases |a|
  {
    if a != [] {
      var n := |a|;
      var prefix := a[..n - 1];
      var b := MapKeys(prefix, f);
      var k, v := f(a[n - 1].0), a[n - 1].1;
      var r := MapKeys(a, f);
      assert r == Put(b, k, v);
      MapKeysKeys(prefix, f);
      forall i | 0 <= i < |r| ensures exists j :: 0 <= j < n && f(a[j].0) == r[i].0 {
        if i < |b| {
          var j :| 0 <= j < |prefix| && f(prefix[j].0) == b[i].0;
          assert prefix[j] == a[j] && r[i].0 == b[i].0;
        } else {
          assert r[i].0 == k by { assert r == b + [(k, v)]; }
        }
      }
      forall j | 0 <= j < n ensures HasKey(r, f(a[j].0)) {
        if j < n - 1 {
          assert prefix[j] == a[j];
          var m :| 0 <= m < |b| && b[m].0 == f(prefix[j].0);
          assert r[m].0 == b[m].0;
        } else {
          assert Get(r, k).Some?;
        }
      }
    }
  }

  /** A name no key maps to is absent from the result. */
  lemma MapKeysAbsent(a: PhpArray, f: string -> string, k: string)
    requires forall m :: 0 <= m < |a| ==> f(a[m].0) != k
    ensures Get(MapKeys(a, f), k) == None
  {
    MapKeysKeys(a, f);
  }

  /** The value kept under a name is that of the last key mapped to it. */
  lemma {:induction false} MapKeysLaterWins(a: PhpArray, f: string -> string, j: int)
    requires 0 <= j < |a|
    requires forall m :: j < m < |a| ==> f(a[m].0) != f(a[j].0)
    ensures Get(MapKeys(a, f), f(a[j].0)) == Some(a[j].1)
    decreases |a|
  {
    var n := |a|;
    var prefix := a[..n - 1];
    MapKeysKeys(prefix, f);
    if j < n - 1 {
      assert prefix[j] == a[j];
      MapKeysLaterWins(prefix, f, j);
      GetPutOther(MapKeys(prefix, f), f(a[n - 1].0), a[n - 1].1, f(a[j].0));
    }
  }

  /** `f` gives distinct names to the keys of `a`. */
  predicate InjectiveOnKeys(a: PhpArray, f: string -> string) {
    forall i, j :: 0 <= i < j < |a| ==> f(a[i].0) != f(a[j].0)
  }

  /** Without collisions, every pair keeps its position and value. */
  lemma {:induction false} MapKeysKeepsOrder(a: PhpArray, f: string -> string)
    requires InjectiveOnKeys(a, f)
    ensures |MapKeys(a, f)| == |a|
    ensures forall i :: 0 <= i < |a| ==> MapKeys(a, f)[i] == (f(a[i].0), a[i].1)
    decreases |a|
  {
    if a != [] {
      var n := |a|;
      var prefix := a[..n - 1];
      InjectiveOnPrefix(a, f);
      MapKeysKeepsOrder(prefix, f);
      var b, k := MapKeys(prefix, f), f(a[n - 1].0);
      assert !HasKey(b, k) by {
        forall i | 0 <= i < |b| ensures b[i].0 != k {
          assert prefix[i] == a[i];
        }
      }
      MapKeysAppend(a, f);
      forall i | 0 <= i < n ensures MapKeys(a, f)[i] == (f(a[i].0), a[i].1) {
        if i < n - 1 {
          assert prefix[i] == a[i];
        }
      }
    }
  }

  /** Injectivity on `a` holds on its prefix, and the last key's name is
      not the name of any earlier key. */
  lemma InjectiveOnPrefix(a: PhpArray, f: string -> string)
    requires a != [] && InjectiveOnKeys(a, f)
    ensures InjectiveOnKeys(a[..|a| - 1], f)
    ensures forall i :: 0 <= i < |a| - 1 ==> f(a[i].0) != f(a[|a| - 1].0)
  {
    var prefix := a[..|a| - 1];
    forall i, j | 0 <= i < j < |prefix| ensures f(prefix[i].0) != f(prefix[j].0) {
      assert prefix[i] == a[i] && prefix[j] == a[j];
    }
  }

  /** A last key whose name is new is appended. */
  lemma MapKeysAppend(a: PhpArray, f: string -> string)
    requires a != [] && !HasKey(MapKeys(a[..|a| - 1], f), f(a[|a| - 1].0))
    ensures MapKeys(a, f) == MapKeys(a[..|a| - 1], f) + [(f(a[|a| - 1].0), a[|a| - 1].1)]
  {
  }

  /** Mapping the keys again with a function that fixes its own images
      changes nothing. */
  lemma MapKeysIdempotent(a: PhpArray, f: string -> string)
    requires forall k :: f(f(k)) == f(k)
    ensures MapKeys(MapKeys(a, f), f) == MapKeys(a, f)
  {
    var b := MapKeys(a, f);
    MapKeysKeys(a, f);
    forall i | 0 <= i < |b| ensures f(b[i].0) == b[i].0 {
      var j :| 0 <= j < |a| && f(a[j].0) == b[i].0;
      assert f(f(a[j].0)) == f(a[j].0);
    }
    MapKeysKeepsOrder(b, f);
    assert MapKeys(b, f) == b;
  }

  /** The keys of `Put(a, k, v)` are those of `a` and `k`. */
  lemma PutHasKey(a: PhpArray, k: string, v: Value, other: string)
    ensures HasKey(Put(a, k, v), other) <==> HasKey(a, other) || other == k
  {
    var r := Put(a, k, v);
    if HasKey(r, other) && other != k {
      var i :| 0 <= i < |r| && r[i].0 == other;
      assert i < |a| && a[i].0 == other;
    }
    if HasKey(a, other) {
      var i :| 0 <= i < |a| && a[i].0 == other;
      assert r[i].0 == other;
    }
    if other == k && !HasKey(a, other) {
      assert r[|a|].0 == k;
    }
  }

  /** A name is a key of `MapKeys(a, f)` exactly when it is `f` of a key of `a`. */
  lemma MapKeysHasKey(a: PhpArray, f: string -> string, k: string)
    ensures HasKey(MapKeys(a, f), k) <==> exists p :: p in a && f(p.0) == k
  {
    MapKeysKeys(a, f);
    var r := MapKeys(a, f);
    if HasKey(r, k) {
      var i :| 0 <= i < |r| && r[i].0 == k;
      var j :| 0 <= j < |a| && f(a[j].0) == r[i].0;
      assert a[j] in a;
    }
    if exists p :: p in a && f(p.0) == k {
      var p :| p in a && f(p.0) == k;
      var j :| 0 <= j < |a| && a[j] == p;
      assert HasKey(r, f(a[j].0));
    }
  }
}
