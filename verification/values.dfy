/**
 Loosely typed record values, as the pipeline receives them from spreadsheets and
 nested API payloads, together with the three different "is there a value" tests
 the Python code mixes:

 - `IsSet`: not None and not the empty string (the candidate-key resolver);
 - `Truthy`: Python truthiness (`if x`, `x or y`);
 - key presence (`k in d`), which accepts any value, None included.
 */
module Values {
  import opened Wrappers

  /** A JSON-like value. `Obj` is a Python dict, `List` a Python list. */
  datatype Value =
    | Null
    | Bool(b: bool)
    | Int(i: int)
    | Str(s: string)
    | List(items: seq<Value>)
    | Obj(fields: map<string, Value>)

  type Record = map<string, Value>

  /** Python truthiness: None, False, 0, "", [] and {} are false. */
  predicate Truthy(v: Value) {
    match v
    case Null => false
    case Bool(b) => b
    case Int(i) => i != 0
    case Str(s) => s != ""
    case List(xs) => |xs| > 0
    case Obj(m) => |m| > 0
  }

  /** `v is not None and v != ""` */
  predicate IsSet(v: Value) {
    v != Null && v != Str("")
  }

  /** `d.get(k)`: the value under `k`, None when the key is absent. */
  function Get(m: Record, k: string): (r: Value)
    ensures k !in m ==> r == Null
    ensures k in m ==> r == m[k]
  {
    if k in m then m[k] else Null
  }

  /** The chain `a or b or c`: the first truthy operand, else the last operand. */
  function FirstTruthy(vs: seq<Value>): (r: Value)
    requires |vs| > 0
    ensures r in vs
    ensures Truthy(r) <==> exists i :: 0 <= i < |vs| && Truthy(vs[i])
    ensures !Truthy(r) ==> r == vs[|vs| - 1]
    ensures Truthy(r) ==> exists i :: 0 <= i < |vs| && vs[i] == r && forall j :: 0 <= j < i ==> !Truthy(vs[j])
  {
    if |vs| == 1 || Truthy(vs[0]) then vs[0] else FirstTruthy(vs[1..])
  }

  /** `d.get(k1) or d.get(k2) or ...` */
  function GetFirstTruthy(m: Record, keys: seq<string>): (r: Value)
    requires |keys| > 0
  {
    FirstTruthy(seq(|keys|, i requires 0 <= i < |keys| => Get(m, keys[i])))
  }

  /**
   The loop `for f in fields: if f in d: v = d[f]; break`: the value under the first
   field, in list order, that is a key of `m` (whatever that value is).
   */
  function FirstPresent(m: Record, fields: seq<string>): (r: Option<Value>)
    ensures r.None? <==> forall i :: 0 <= i < |fields| ==> fields[i] !in m
    ensures r.Some? ==> exists i :: 0 <= i < |fields| && fields[i] in m && m[fields[i]] == r.value
                                     && forall j :: 0 <= j < i ==> fields[j] !in m
  {
    if |fields| == 0 then None
    else if fields[0] in m then Some(m[fields[0]])
    else FirstPresent(m, fields[1..])
  }

  /** `isinstance(v, (int, str))` (a bool is an int in Python). */
  predicate IsIntOrStr(v: Value) {
    v.Int? || v.Bool? || v.Str?
  }
}
