// The array polyfills `forEach` and `findFirst`. An array is a sequence of
// slots, None being a hole (an index that is not `in` the array); a callback
// that may not be a function is an Option, None being a non-function.
module JsAddOns {
  import opened Js

  /** The present indices of arr below n, in increasing order. */
  function PresentBelow<T>(arr: seq<Option<T>>, n: nat): (r: seq<nat>)
    requires n <= |arr|
    ensures forall k :: 0 <= k < |r| ==> r[k] < n && arr[r[k]].Some?
    ensures forall j, k :: 0 <= j < k < |r| ==> r[j] < r[k]
  {
    if n == 0 then []
    else if arr[n - 1].Some? then PresentBelow(arr, n - 1) + [n - 1]
    else PresentBelow(arr, n - 1)
  }

  /** Every present index below n is listed. */
  lemma {:induction false} PresentBelowComplete<T>(arr: seq<Option<T>>, n: nat, i: nat)
    requires n <= |arr| && i < n && arr[i].Some?
    ensures i in PresentBelow(arr, n)
  {
    if i < n - 1 { PresentBelowComplete(arr, n - 1, i); }
  }

  /** The calls `forEach` makes: (element, index) for every present index, in order. */
  function Visits<T>(arr: seq<Option<T>>, n: nat): (r: seq<(T, nat)>)
    requires n <= |arr|
    ensures |r| == |PresentBelow(arr, n)|
    ensures forall k :: 0 <= k < |r| ==> r[k].1 == PresentBelow(arr, n)[k] && arr[r[k].1] == Some(r[k].0)
  {
    if n == 0 then []
    else if arr[n - 1].Some? then Visits(arr, n - 1) + [(arr[n - 1].value, n - 1)]
    else Visits(arr, n - 1)
  }

  /** `forEach` visits exactly the present elements, each once, in increasing index order. */
  lemma VisitsExactlyPresent<T>(arr: seq<Option<T>>, x: T, i: nat)
    ensures (x, i) in Visits(arr, |arr|) <==> i < |arr| && arr[i] == Some(x)
  {
    if i < |arr| && arr[i] == Some(x) {
      PresentBelowComplete(arr, |arr|, i);
      var k :| 0 <= k < |PresentBelow(arr, |arr|)| && PresentBelow(arr, |arr|)[k] == i;
      assert Visits(arr, |arr|)[k] == (x, i);
    }
  }

  /**
   * The `forEach` polyfill: a TypeError for a non-function, otherwise the
   * sequence of calls made, the length being read once at the start. What
   * the callback does is not modelled.
   */
  method ForEach<T>(arr: seq<Option<T>>, isFunction: bool) returns (r: Outcome<seq<(T, nat)>>)
    ensures !isFunction ==> r == Throws(TypeError)
    ensures isFunction ==> r == Returns(Visits(arr, |arr|))
  {
    var len := |arr|;
    if !isFunction {
      return Throws(TypeError);
    }
    var calls: seq<(T, nat)> := [];
    var i := 0;
    while i < len
      invariant 0 <= i <= len
      invariant calls == Visits(arr, i)
    {
      if arr[i].Some? {
        calls := calls + [(arr[i].value, i)];
      }
      i := i + 1;
    }
    return Returns(calls);
  }

  /** `i in arr && pred(arr[i])`. */
  predicate Matches<T>(arr: seq<Option<T>>, pred: T -> bool, i: int)
    requires 0 <= i < |arr|
  {
    arr[i].Some? && pred(arr[i].value)
  }

  /** The index of the first present element from i on that satisfies pred, if any. */
  function FirstMatch<T>(arr: seq<Option<T>>, pred: T -> bool, i: nat): (r: Option<nat>)
    requires i <= |arr|
    ensures r.Some? ==> i <= r.value < |arr| && Matches(arr, pred, r.value)
    ensures r.Some? ==> forall j :: i <= j < r.value ==> !Matches(arr, pred, j)
    ensures r.None? ==> forall j :: i <= j < |arr| ==> !Matches(arr, pred, j)
    decreases |arr| - i
  {
    if i == |arr| then None
    else if Matches(arr, pred, i) then Some(i)
    else FirstMatch(arr, pred, i + 1)
  }

  /** What `findFirst` returns: undefined for a non-function, else the first matching element or undefined. */
  function FindFirstSpec<T>(arr: seq<Option<T>>, pred: Option<T -> bool>): Option<T> {
    if pred.None? then None
    else
      var m := FirstMatch(arr, pred.value, 0);
      if m.None? then None else arr[m.value]
  }

  /**
   * The `findFirst` polyfill. The ghost `calls` records the indices the
   * predicate was applied to: the present indices up to the match, and no
   * later one.
   */
  method FindFirst<T>(arr: seq<Option<T>>, pred: Option<T -> bool>) returns (r: Option<T>, ghost calls: seq<nat>)
    ensures r == FindFirstSpec(arr, pred)
    ensures pred.None? ==> calls == []
    ensures pred.Some? ==>
      var m := FirstMatch(arr, pred.value, 0);
      calls == PresentBelow(arr, if m.Some? then m.value + 1 else |arr|)
  {
    calls := [];
    if pred.None? {
      return None, calls;
    }
    var p := pred.value;
    var i := 0;
    while i < |arr|
      invariant 0 <= i <= |arr|
      invariant FirstMatch(arr, p, 0) == FirstMatch(arr, p, i)
      invariant calls == PresentBelow(arr, i)
    {
      if arr[i].Some? {
        calls := calls + [i];
        if p(arr[i].value) {
          return arr[i], calls;
        }
      }
      i := i + 1;
    }
    return None, calls;
  }

  /** The element `findFirst` hands back satisfies the predicate, and no earlier present element does. */
  lemma FindFirstIsFirst<T>(arr: seq<Option<T>>, pred: T -> bool)
    ensures var r := FindFirstSpec(arr, Some(pred));
      && (r.Some? ==> pred(r.value) && exists i :: 0 <= i < |arr| && arr[i] == r && forall j :: 0 <= j < i ==> !Matches(arr, pred, j))
      && (r.None? ==> forall j :: 0 <= j < |arr| ==> !Matches(arr, pred, j))
  {
    var m := FirstMatch(arr, pred, 0);
    if m.Some? {
      assert arr[m.value] == FindFirstSpec(arr, Some(pred));
    }
  }
}
