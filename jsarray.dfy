/** The part of JavaScript's Array.prototype.splice that the editor relies on
    (ECMA-262, 2023 edition, section 23.1.3.31): where the splice starts, how many
    elements it removes, and the array that results. */
module JsArray {

  /** The actual start of a splice on an array of length `len`: a negative `start`
      counts back from the end, and the result is clamped into [0, len]. */
  function ActualStart(start: int, len: nat): (k: nat)
    ensures k <= len
    ensures 0 <= start <= len ==> k == start
    ensures start > len ==> k == len
    ensures start < 0 && len + start >= 0 ==> k == len + start
    ensures len + start < 0 ==> k == 0
  {
    if start < 0 then (if len + start < 0 then 0 else len + start)
    else if start < len then start
    else len
  }

  /** The number of elements a splice removes: `deleteCount` clamped into
      [0, len - k], where k is the actual start. */
  function ActualDeleteCount(deleteCount: int, len: nat, k: nat): (d: nat)
    requires k <= len
    ensures k + d <= len
    ensures 0 <= deleteCount <= len - k ==> d == deleteCount
    ensures deleteCount < 0 ==> d == 0
    ensures deleteCount > len - k ==> d == len - k
  {
    if deleteCount < 0 then 0
    else if deleteCount > len - k then len - k
    else deleteCount
  }

  /** The array `s` becomes after `s.splice(start, deleteCount, ...items)`. */
  function Splice<T>(s: seq<T>, start: int, deleteCount: int, items: seq<T>): (r: seq<T>)
    ensures |r| == |s| - ActualDeleteCount(deleteCount, |s|, ActualStart(start, |s|)) + |items|
  {
    var k := ActualStart(start, |s|);
    var d := ActualDeleteCount(deleteCount, |s|, k);
    s[..k] + items + s[k + d..]
  }

  /** Inserting one element (`splice(start, 0, x)`): the array grows by one, `x`
      lands at the clamped start, and every old element keeps its order, those
      at or after the insertion point moving up by one. */
  lemma SpliceInsert<T>(s: seq<T>, start: int, x: T)
    ensures var r := Splice(s, start, 0, [x]);
            var k := ActualStart(start, |s|);
            && |r| == |s| + 1
            && r[k] == x
            && r[..k] == s[..k]
            && r[k + 1..] == s[k..]
  {
    var r := Splice(s, start, 0, [x]);
    var k := ActualStart(start, |s|);
    assert r == s[..k] + [x] + s[k..];
    assert r[..k] == s[..k];
    assert r[k + 1..] == s[k..];
  }

  /** Removing one element (`splice(start, 1)`): with the actual start inside the
      array, exactly the element there is removed; at the end nothing is. */
  lemma SpliceRemove<T>(s: seq<T>, start: int)
    ensures var r := Splice(s, start, 1, []);
            var k := ActualStart(start, |s|);
            && (k < |s| ==> r == s[..k] + s[k + 1..] && |r| == |s| - 1)
            && (k == |s| ==> r == s)
  {
    var r := Splice(s, start, 1, []);
    var k := ActualStart(start, |s|);
    if k < |s| {
      assert ActualDeleteCount(1, |s|, k) == 1;
      assert r == s[..k] + s[k + 1..];
    } else {
      assert ActualDeleteCount(1, |s|, k) == 0;
      assert r == s[..k] + s[k..];
      assert s[..k] + s[k..] == s;
    }
  }
}
