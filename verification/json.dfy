/** A parsed JSON document as Python sees it after `json.loads`, and the
    Python operations the channel parsers apply to it: subscripting with a
    key or an index, `.get`, `in`, truthiness and `for` iteration. Python's
    `None` is `Null`, whether it came from a JSON `null` or from `.get` on a
    missing key: the code cannot tell the two apart either. */
module Json {
  import opened Wrappers
  import opened Strings

  datatype Json =
    | Null
    | Bool(b: bool)
    | Int(i: int)
    | Float(x: real)
    | Str(s: string)
    | Arr(items: seq<Json>)
    | Obj(fields: map<string, Json>)

  /** The Python exceptions that subscripting and calling methods on a JSON
      value can raise. */
  datatype PyError = KeyError | IndexError | TypeError | AttributeError | ValueError

  /** Python truthiness: None, False, zero, and empty strings, lists and
      dicts are false. */
  predicate Truthy(v: Json) {
    match v
    case Null => false
    case Bool(b) => b
    case Int(i) => i != 0
    case Float(x) => x != 0.0
    case Str(s) => s != []
    case Arr(a) => a != []
    case Obj(m) => m != map[]
  }

  /** `v[key]` with a string key. */
  function Item(v: Json, key: string): (r: Result<Json, PyError>)
    ensures r.Success? <==> v.Obj? && key in v.fields
    ensures r.Success? ==> r.value == v.fields[key]
    ensures v.Obj? && key !in v.fields ==> r == Failure(KeyError)
    ensures !v.Obj? ==> r == Failure(TypeError)
  {
    match v
    case Obj(m) => if key in m then Success(m[key]) else Failure(KeyError)
    case _ => Failure(TypeError)
  }

  /** `v[i]` with an integer index; negative indices count from the end.
      Indexing a string gives a one-character string; a dict's keys are all
      strings, so an integer key is never found. */
  function At(v: Json, i: int): (r: Result<Json, PyError>)
    ensures v.Arr? && 0 <= i < |v.items| ==> r == Success(v.items[i])
    ensures v.Arr? && -|v.items| <= i < 0 ==> r == Success(v.items[|v.items| + i])
    ensures v.Arr? && !(-|v.items| <= i < |v.items|) ==> r == Failure(IndexError)
    ensures v.Obj? ==> r == Failure(KeyError)
  {
    match v
    case Arr(a) =>
      if 0 <= i < |a| then Success(a[i])
      else if -|a| <= i < 0 then Success(a[|a| + i])
      else Failure(IndexError)
    case Str(s) =>
      if 0 <= i < |s| then Success(Str([s[i]]))
      else if -|s| <= i < 0 then Success(Str([s[|s| + i]]))
      else Failure(IndexError)
    case Obj(_) => Failure(KeyError)
    case _ => Failure(TypeError)
  }

  /** `v.get(key, default)`; only a dict has `.get`. */
  function GetOr(v: Json, key: string, default: Json): (r: Result<Json, PyError>)
    ensures r.Success? <==> v.Obj?
    ensures v.Obj? ==> r.value == if key in v.fields then v.fields[key] else default
  {
    match v
    case Obj(m) => Success(if key in m then m[key] else default)
    case _ => Failure(AttributeError)
  }

  /** `v.get(key)`. */
  function Get(v: Json, key: string): Result<Json, PyError> {
    GetOr(v, key, Null)
  }

  /** One subscript of a chain like `v["a"][0]["b"]`. */
  datatype Selector = Key(key: string) | Index(index: int)

  /** A chain of subscripts, applied left to right; the first one that
      raises decides the exception. */
  function Path(v: Json, path: seq<Selector>): Result<Json, PyError>
    decreases |path|
  {
    if path == [] then Success(v)
    else
      var next :- match path[0]
        case Key(k) => Item(v, k)
        case Index(i) => At(v, i);
      Path(next, path[1..])
  }

  /** Following `p + q` is following `p`, then `q`. */
  lemma {:induction false} PathAppend(v: Json, p: seq<Selector>, q: seq<Selector>)
    ensures Path(v, p + q) == (if Path(v, p).Success? then Path(Path(v, p).value, q) else Path(v, p))
    decreases |p|
  {
    if p == [] {
      assert p + q == q;
    } else {
      assert (p + q)[0] == p[0];
      assert (p + q)[1..] == p[1..] + q;
      match p[0]
      case Key(k) =>
        if Item(v, k).Success? { PathAppend(Item(v, k).value, p[1..], q); }
      case Index(i) =>
        if At(v, i).Success? { PathAppend(At(v, i).value, p[1..], q); }
    }
  }

  /** Python's `key in v`: a key of a dict, an element of a list, a substring
      of a string; anything else raises TypeError. */
  function Contains(v: Json, key: string): (r: Result<bool, PyError>)
    ensures v.Obj? ==> r == Success(key in v.fields)
    ensures v.Arr? ==> r == Success(Str(key) in v.items)
  {
    match v
    case Obj(m) => Success(key in m)
    case Arr(a) => Success(Str(key) in a)
    case Str(s) => Success(IsSubstring(key, s))
    case _ => Failure(TypeError)
  }

  /** The one-character strings that `for c in s` visits. */
  function Chars(s: string): (r: seq<Json>)
    ensures |r| == |s| && forall i :: 0 <= i < |s| ==> r[i] == Str([s[i]])
  {
    if s == [] then [] else [Str([s[0]])] + Chars(s[1..])
  }

  /** The values `for x in v` visits, for a loop whose body raises
      `onKey` when handed a string where it expects a dict. A list gives its
      elements and a string its characters; numbers, booleans and None are
      not iterable. A dict gives its keys in insertion order, which a map
      does not keep; but every key is a string, so such a loop raises
      `onKey` on the first key whatever it is. A non-empty dict is therefore
      reported as that exception and an empty one as no elements. */
  function Iterate(v: Json, onKey: PyError): (r: Result<seq<Json>, PyError>)
    ensures v.Arr? ==> r == Success(v.items)
    ensures v.Obj? ==> r == if v.fields == map[] then Success([]) else Failure(onKey)
  {
    match v
    case Arr(a) => Success(a)
    case Str(s) => Success(Chars(s))
    case Obj(m) => if m == map[] then Success([]) else Failure(onKey)
    case _ => Failure(TypeError)
  }
}
