/** Optional values, results with an error, and `Array.prototype.find`. */
module Common {

  /** A value that may be absent: TypeScript's `T | null | undefined`. */
  datatype Option<+T> = None | Some(value: T) {
    function GetOr(default: T): T {
      match this
      case Some(v) => v
      case None => default
    }
  }

  /** `value || fallback` on an optional string: absent or "" (both falsy) gives the fallback. */
  function OrDefault(value: Option<string>, fallback: string): (r: string)
    ensures value.Some? && value.value != "" ==> r == value.value
    ensures value.None? || value.value == "" ==> r == fallback
  {
    if value.Some? && value.value != "" then value.value else fallback
  }

  /** The outcome of an operation that resolves with a value or rejects with an error. */
  datatype Result<+T, +E> = Ok(value: T) | Err(error: E)

  /** The index of the first element of `s` that satisfies `pred`, as `findIndex` returns it
      (`None` standing for -1). */
  function FindIndex<T>(s: seq<T>, pred: T -> bool): (r: Option<nat>)
    ensures r.Some? ==> r.value < |s|
  {
    if s == [] then None
    else if pred(s[0]) then Some(0)
    else match FindIndex(s[1..], pred)
      case None => None
      case Some(k) => Some(k + 1)
  }

  /** The index found satisfies `pred` and no earlier element does; none is found exactly when no
      element satisfies `pred`. */
  lemma {:induction false} FindIndexSpec<T>(s: seq<T>, pred: T -> bool)
    ensures var r := FindIndex(s, pred);
      (r.Some? ==> pred(s[r.value]) && forall j :: 0 <= j < r.value ==> !pred(s[j]))
      && (r.None? <==> forall i :: 0 <= i < |s| ==> !pred(s[i]))
    decreases |s|
  {
    if s != [] && !pred(s[0]) {
      FindIndexSpec(s[1..], pred);
      assert forall j :: 0 < j < |s| ==> s[j] == s[1..][j - 1];
    }
  }

  /** The first element of `s` that satisfies `pred`, as `find` returns it. */
  function Find<T>(s: seq<T>, pred: T -> bool): Option<T> {
    match FindIndex(s, pred)
    case None => None
    case Some(i) => Some(s[i])
  }

  /** An element found is in `s` and satisfies `pred`; none is found exactly when no element
      satisfies `pred`. */
  lemma FindSpec<T>(s: seq<T>, pred: T -> bool)
    ensures Find(s, pred).Some? ==> Find(s, pred).value in s && pred(Find(s, pred).value)
    ensures Find(s, pred).None? <==> forall i :: 0 <= i < |s| ==> !pred(s[i])
  {
    FindIndexSpec(s, pred);
  }

  /** `Find` returns the first element of `s` that satisfies `pred`. */
  lemma FindFirst<T>(s: seq<T>, pred: T -> bool, i: nat)
    requires i < |s| && pred(s[i])
    requires forall j :: 0 <= j < i ==> !pred(s[j])
    ensures Find(s, pred) == Some(s[i])
  {
    FindIndexSpec(s, pred);
  }
}
