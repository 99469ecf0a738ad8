/** The values the fetcher works on: JSON documents as the Jira client library
    returns them, and the outcome of a Python call that may raise. The helper
    functions give the semantics of the few Python operations the fetcher
    applies to those documents (`dict.get`, truthiness, a `for` loop). */
module Values {

  datatype Option<+T> = None | Some(value: T)

  /** A decoded JSON document. Numbers are kept as integers: no operation of
      the fetcher looks inside a number. */
  datatype Json =
    | Null
    | Bool(b: bool)
    | Num(n: int)
    | Str(s: string)
    | Arr(items: seq<Json>)
    | Obj(members: map<string, Json>)

  /** The exceptions the fetcher's code can raise and then catches. */
  datatype Fault =
    | ClientError     // the client library raised (network, HTTP status, authentication)
    | AttributeError  // `.get` or `.replace` on a value that has no such method
    | TypeError       // a loop over a value that is not iterable, or a regex applied to a non-string
    | ValueError      // a date string that `datetime.fromisoformat` refuses

  /** The outcome of a Python expression: a value, or the exception it raised.
      Usable with `:-`, so that a raise propagates as in Python. */
  datatype Call<+T> = Returned(value: T) | Raised(fault: Fault) {
    predicate IsFailure() { Raised? }

    function PropagateFailure<U>(): Call<U>
      requires Raised?
    {
      Raised(fault)
    }

    function Extract(): T
      requires Returned?
    {
      value
    }
  }

  /** Python truthiness of a JSON value (`if not x`). */
  predicate Truthy(v: Json)
    ensures !Truthy(v) <==> v in {Null, Bool(false), Num(0), Str(""), Arr([]), EmptyObj}
  {
    match v
    case Null => false
    case Bool(b) => b
    case Num(n) => n != 0
    case Str(s) => s != ""
    case Arr(xs) => xs != []
    case Obj(m) => m != map[]
  }

  const EmptyObj: Json := Obj(map[])

  /** `d.get(k, fallback)` on a dict `d`: a key that is present gives its value,
      even when that value is null. */
  function Lookup(m: map<string, Json>, k: string, fallback: Json): (r: Json)
    ensures k in m ==> r == m[k]
    ensures k !in m ==> r == fallback
  {
    if k in m then m[k] else fallback
  }

  /** `v.get(k, fallback)` on an arbitrary value: only a dict has `.get`. */
  function GetMember(v: Json, k: string, fallback: Json): (r: Call<Json>)
    ensures r.Raised? <==> !v.Obj?
    ensures r.Raised? ==> r.fault == AttributeError
    ensures v.Obj? && k !in v.members ==> r == Returned(fallback)
    ensures v.Obj? && k in v.members ==> r == Returned(v.members[k])
  {
    if v.Obj? then Returned(Lookup(v.members, k, fallback)) else Raised(AttributeError)
  }

  /** The items a `for` loop over `v` visits when the loop body calls `.get`
      on each item. A list yields its elements. Iterating a str or a dict
      yields strings, which have no `.get`: an empty one yields nothing, a
      non-empty one raises AttributeError at its first item. Any other value
      is not iterable. */
  function Items(v: Json): (r: Call<seq<Json>>)
    ensures v.Arr? ==> r == Returned(v.items)
    ensures r.Returned? && !v.Arr? ==> r.value == []
    ensures (v.Null? || v.Bool? || v.Num?) ==> r == Raised(TypeError)
    ensures v == Str("") || v == EmptyObj ==> r == Returned([])
    ensures (v.Str? && v.s != "") || (v.Obj? && v.members != map[]) ==> r == Raised(AttributeError)
  {
    match v
    case Arr(xs) => Returned(xs)
    case Str(s) => if s == "" then Returned([]) else Raised(AttributeError)
    case Obj(m) => if m == map[] then Returned([]) else Raised(AttributeError)
    case _ => Raised(TypeError)
  }

  /** A `for` loop over `items` whose body, `step`, may raise and whose
      results are appended to a list: the list of one result per item, in
      order, or the exception of the first item whose step raises. */
  function MapCalls<T>(items: seq<Json>, step: Json -> Call<T>): (r: Call<seq<T>>)
    ensures r.Returned? ==> |r.value| == |items|
    ensures r.Returned? ==> forall k :: 0 <= k < |items| ==> step(items[k]) == Returned(r.value[k])
    ensures r.Raised? ==> exists k :: 0 <= k < |items| && step(items[k]) == Raised(r.fault)
                                      && forall j :: 0 <= j < k ==> step(items[j]).Returned?
    ensures (forall k :: 0 <= k < |items| ==> step(items[k]).Returned?) ==> r.Returned?
    decreases |items|
  {
    if items == [] then Returned([])
    else
      var init := items[..|items| - 1];
      match MapCalls(init, step)
      case Raised(f) => Raised(f)
      case Returned(earlier) =>
        match step(items[|items| - 1])
        case Raised(f) =>
          assert forall k :: 0 <= k < |init| ==> init[k] == items[k];
          Raised(f)
        case Returned(last) =>
          assert forall k :: 0 <= k < |init| ==> init[k] == items[k];
          Returned(earlier + [last])
  }

  /** Once the loop has raised on a prefix of the items, the whole loop raises
      the same exception: the items after it are never visited. */
  lemma {:induction false} RaisedPrefix<T>(items: seq<Json>, i: nat, step: Json -> Call<T>)
    requires i <= |items|
    requires MapCalls(items[..i], step).Raised?
    ensures MapCalls(items, step) == MapCalls(items[..i], step)
    decreases |items|
  {
    if i < |items| {
      var init := items[..|items| - 1];
      assert init[..i] == items[..i];
      RaisedPrefix(init, i, step);
    } else {
      assert items[..i] == items;
    }
  }

  /** Every item is a dict, so `.get` on it does not raise. */
  predicate AllDicts(xs: seq<Json>) {
    forall k :: 0 <= k < |xs| ==> xs[k].Obj?
  }
}
