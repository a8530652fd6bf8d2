/**
 * The array operations the profile handlers use to remove an entry:
 * `Array.prototype.map`, which lists the entry ids; `Array.prototype.indexOf`,
 * which answers -1 for a missing element; and `Array.prototype.splice(start, 1)`,
 * which reads a negative start as an offset from the end. `RemoveFirst` is a
 * reference definition of "remove the first entry with this key", and the
 * lemmas below compare `splice` and `indexOf` against it.
 */
module JsArray {

  /** `xs.map(f)`: `f` applied to each element, position by position. */
  function Map<T, K>(xs: seq<T>, f: T -> K): (ys: seq<K>)
    ensures |ys| == |xs| && forall k | 0 <= k < |xs| :: ys[k] == f(xs[k])
  {
    seq(|xs|, k requires 0 <= k < |xs| => f(xs[k]))
  }

  /** `xs.indexOf(x)`: the first index holding `x`, or -1 when there is none. */
  function IndexOf<T(==)>(xs: seq<T>, x: T): (i: int)
    ensures -1 <= i < |xs|
    ensures i == -1 <==> x !in xs
    ensures 0 <= i ==> xs[i] == x && x !in xs[..i]
  {
    if xs == [] then -1
    else if xs[0] == x then 0
    else
      var j := IndexOf(xs[1..], x);
      assert j >= 0 ==> xs[..j + 1] == [xs[0]] + xs[1..][..j];
      if j == -1 then -1 else j + 1
  }

  /** Any index that holds the first occurrence of `x` is the one `indexOf` reports. */
  lemma IndexOfIsFirst<T>(xs: seq<T>, x: T, i: int)
    requires 0 <= i < |xs| && xs[i] == x && x !in xs[..i]
    ensures IndexOf(xs, x) == i
  {
  }

  /** The index `splice(start, …)` starts at, on an array of length `len`. */
  function SpliceStart(start: int, len: nat): (k: nat)
    ensures k <= len
    ensures 0 <= start <= len ==> k == start
    ensures start < 0 && 0 <= len + start ==> k == len + start
    ensures start == -1 && len > 0 ==> k == len - 1
  {
    if start < 0 then (if len + start < 0 then 0 else len + start)
    else if start > len then len
    else start
  }

  /** The array `xs` becomes after `xs.splice(start, 1)`. */
  function SpliceOne<T>(xs: seq<T>, start: int): (r: seq<T>)
    ensures |r| == if SpliceStart(start, |xs|) < |xs| then |xs| - 1 else |xs|
    ensures forall j | 0 <= j < |r| :: r[j] == if j < SpliceStart(start, |xs|) then xs[j] else xs[j + 1]
  {
    var k := SpliceStart(start, |xs|);
    if k < |xs| then xs[..k] + xs[k + 1..] else xs
  }

  /**
   * A reference definition of "remove the first entry whose key is `key`",
   * walking `xs` and its parallel list of keys together.
   */
  function RemoveFirst<T, K(==)>(xs: seq<T>, keys: seq<K>, key: K): seq<T>
    requires |keys| == |xs|
  {
    if xs == [] then []
    else if keys[0] == key then xs[1..]
    else [xs[0]] + RemoveFirst(xs[1..], keys[1..], key)
  }

  /**
   * `xs.splice(keys.indexOf(key), 1)` when some entry has the key: exactly
   * the first such entry goes, the others stay in their order.
   */
  lemma {:induction false} RemoveByIndexOfFound<T, K>(xs: seq<T>, keys: seq<K>, key: K)
    requires |keys| == |xs| && key in keys
    ensures SpliceOne(xs, IndexOf(keys, key)) == RemoveFirst(xs, keys, key)
    decreases |xs|
  {
    if keys[0] == key {
      assert xs[..0] + xs[1..] == xs[1..];
    } else {
      assert key in keys[1..] by {
        assert keys == [keys[0]] + keys[1..];
      }
      var j := IndexOf(keys[1..], key);
      assert IndexOf(keys, key) == j + 1;
      assert RemoveFirst(xs, keys, key) == [xs[0]] + RemoveFirst(xs[1..], keys[1..], key);
      RemoveByIndexOfFound(xs[1..], keys[1..], key);
      SpliceOneAfterHead(xs, j);
    }
  }

  /** Removing at position `k + 1` keeps the head and removes at `k` in the tail. */
  lemma SpliceOneAfterHead<T>(xs: seq<T>, k: int)
    requires 0 <= k < |xs| - 1
    ensures SpliceOne(xs, k + 1) == [xs[0]] + SpliceOne(xs[1..], k)
  {
    var tail := xs[1..];
    assert SpliceOne(xs, k + 1) == xs[..k + 1] + xs[k + 2..];
    assert SpliceOne(tail, k) == tail[..k] + tail[k + 1..];
    assert xs[..k + 1] == [xs[0]] + tail[..k];
    assert xs[k + 2..] == tail[k + 1..];
  }

  /**
   * `xs.splice(keys.indexOf(key), 1)` when no entry has the key: `indexOf`
   * answers -1, and `splice(-1, 1)` removes the last entry of a non-empty
   * list and leaves an empty one as it is.
   */
  lemma RemoveByIndexOfMissing<T, K>(xs: seq<T>, keys: seq<K>, key: K)
    requires |keys| == |xs| && key !in keys
    ensures xs != [] ==> SpliceOne(xs, IndexOf(keys, key)) == xs[..|xs| - 1]
    ensures xs == [] ==> SpliceOne(xs, IndexOf(keys, key)) == []
  {
    if xs != [] {
      assert xs[|xs|..] == [];
      assert xs[..|xs| - 1] + [] == xs[..|xs| - 1];
    }
  }
}
