/**
 * `Array.prototype.splice` with one inserted or one deleted element, the two
 * shapes the layer tree and the stop-row editors use.
 */
module JsArray {

  /**
   * The position `splice(start, ...)` acts on in an array of length `len`:
   * a negative start counts from the end, and both ends are clamped.
   */
  function SpliceStart(len: nat, start: int): (k: nat)
    ensures k <= len
  {
    if start < 0 then (if len + start < 0 then 0 else len + start)
    else if start > len then len
    else start
  }

  /** `s.splice(start, 0, x)` on a copy of `s`. */
  function Insert<T>(s: seq<T>, start: int, x: T): (r: seq<T>)
    ensures |r| == |s| + 1
    ensures var k := SpliceStart(|s|, start);
      r[k] == x && r[..k] == s[..k] && r[k + 1..] == s[k..]
  {
    var k := SpliceStart(|s|, start);
    s[..k] + [x] + s[k..]
  }

  /** `s.splice(start, 1)` on a copy of `s`. */
  function Delete<T>(s: seq<T>, start: int): (r: seq<T>)
    ensures var k := SpliceStart(|s|, start);
      if k < |s| then |r| == |s| - 1 && r[..k] == s[..k] && r[k..] == s[k + 1..]
      else r == s
  {
    var k := SpliceStart(|s|, start);
    if k < |s| then s[..k] + s[k + 1..] else s
  }

  /** Deleting what was just inserted at an in-range position gives the array back. */
  lemma DeleteInserted<T>(s: seq<T>, k: int, x: T)
    requires 0 <= k <= |s|
    ensures Delete(Insert(s, k, x), k) == s
  {
    var r := Insert(s, k, x);
    assert SpliceStart(|s|, k) == k == SpliceStart(|r|, k);
    assert Delete(r, k) == r[..k] + r[k + 1..];
    assert r[..k] == s[..k] && r[k + 1..] == s[k..];
    assert s[..k] + s[k..] == s;
  }
}
