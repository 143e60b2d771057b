/// The observer pattern: a list of callbacks that can be added, removed and
/// called in order. Callbacks are compared by identity, as `indexOf` does;
/// here that is equality on the type parameter.
module Observers {
  import opened Splicing

  /// `indexOf`: the position of the first occurrence of c in s, or -1 when
  /// c does not occur.
  function IndexOf<T(==)>(s: seq<T>, c: T): (r: int)
    ensures r == -1 <==> c !in s
    ensures 0 <= r ==> r < |s| && s[r] == c
    ensures 0 <= r ==> forall j :: 0 <= j < r ==> s[j] != c
    ensures -1 <= r
  {
    if |s| == 0 then -1
    else if s[0] == c then 0
    else
      var rest := IndexOf(s[1..], c);
      assert c in s ==> c == s[0] || c in s[1..];
      if rest == -1 then -1 else rest + 1
  }

  /// The list after `removeCallback(c)`: the first occurrence of c spliced
  /// out, or the list unchanged when c is not in it. The elements before
  /// that occurrence stay in place and the ones after it move down by one.
  function Removed<T(==)>(s: seq<T>, c: T): (r: seq<T>)
    ensures c !in s ==> r == s
    ensures c in s ==> |r| == |s| - 1 && multiset(r) + multiset{c} == multiset(s)
    ensures c in s ==> var i := IndexOf(s, c);
      && (forall j :: 0 <= j < i ==> r[j] == s[j])
      && (forall j :: i <= j < |r| ==> r[j] == s[j + 1])
  {
    var index := IndexOf(s, c);
    if index >= 0 then Splice(s, index)
    else s
  }

  /// Adding a callback that was not registered and removing it again gives
  /// back the original list.
  lemma {:induction false} AddThenRemove<T>(s: seq<T>, c: T)
    requires c !in s
    ensures Removed(s + [c], c) == s
  {
    var t := s + [c];
    IndexOfAppended(s, c);
    assert t[..|s|] == s;
  }

  /// The first occurrence of c in s + [c], when s does not hold c, is the
  /// appended one.
  lemma {:induction false} IndexOfAppended<T>(s: seq<T>, c: T)
    requires c !in s
    ensures IndexOf(s + [c], c) == |s|
  {
    var t := s + [c];
    assert t[|s|] == c;
    assert forall j :: 0 <= j < |s| ==> t[j] == s[j];
  }

  /// One call made by `notify`: the callback and the arguments it got.
  datatype Call<T, A> = Call(callback: T, args: A)

  class Observer<T(==)> {
    var callbacks: seq<T>

    constructor ()
      ensures callbacks == []
    {
      callbacks := [];
    }

    /// `callbacks.push(callback)`.
    method AddCallback(callback: T)
      modifies this
      ensures callbacks == old(callbacks) + [callback]
    {
      callbacks := callbacks + [callback];
    }

    /// `callbacks.splice(callbacks.indexOf(callback), 1)` when the callback
    /// is registered; nothing otherwise.
    method RemoveCallback(callback: T)
      modifies this
      ensures callbacks == Removed(old(callbacks), callback)
    {
      var index := IndexOf(callbacks, callback);
      if index >= 0 {
        callbacks := Splice(callbacks, index);
      }
    }

    /// `callbacks.length = 0`.
    method RemoveAllCallbacks()
      modifies this
      ensures callbacks == []
    {
      callbacks := [];
    }

    /// `callbacks.forEach(cb => cb(...args))`: calls every registered
    /// callback once, in list order, with the same arguments. What the
    /// callbacks do is outside the model; the result is the sequence of
    /// calls made. The list is only read.
    method Notify<A>(args: A) returns (calls: seq<Call<T, A>>)
      ensures |calls| == |callbacks|
      ensures forall i :: 0 <= i < |calls| ==> calls[i] == Call(callbacks[i], args)
    {
      calls := [];
      var i := 0;
      while i < |callbacks|
        invariant 0 <= i <= |callbacks|
        invariant |calls| == i
        invariant forall j :: 0 <= j < i ==> calls[j] == Call(callbacks[j], args)
      {
        calls := calls + [Call(callbacks[i], args)];
        i := i + 1;
      }
    }
  }
}
