/// `Array.prototype.splice(index, 1)` on a list: the element at `index` is
/// taken out and everything after it moves down one place. Both the noise
/// table's shuffle and the observer's callback removal use it.
module Splicing {

  /// The list without its element at `index`.
  function Splice<T>(s: seq<T>, index: nat): (r: seq<T>)
    requires index < |s|
    ensures |r| == |s| - 1
    ensures forall j :: 0 <= j < index ==> r[j] == s[j]
    ensures forall j :: index <= j < |r| ==> r[j] == s[j + 1]
    ensures multiset(r) + multiset{s[index]} == multiset(s)
  {
    assert s == s[..index] + [s[index]] + s[index + 1..];
    s[..index] + s[index + 1..]
  }
}
