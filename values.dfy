/** Template and cache documents as loaded from YAML or JSON, and the
    error outcomes of the Python operations on them. */
module Values {

  /** The Python exceptions the reconciler can raise. It has no handler for
      any of them, so each one ends the run. */
  datatype Error =
    | KeyError(key: string)      // missing dictionary key or template section
    | TypeError                  // an operation applied to a value of the wrong type
    | ValueError                 // a failed unpacking, e.g. `x, y = x.split('}', 1)`
    | EncodeError                // `str.encode('ascii')` of a non-ASCII string
    | IndexError                 // `xs[0]` or `xs[-1]` of an empty list
    | FileNotFound(path: string) // reading a cache file that does not exist
    | CallFailed(stderr: string) // a backend command that exited with an error

  datatype Result<T> = Ok(value: T) | Err(error: Error) {
    predicate IsFailure() { Err? }
    function PropagateFailure<U>(): Result<U> requires Err? { Err(error) }
    function Extract(): T requires Ok? { value }
  }

  datatype Option<T> = None | Some(value: T)

  /** A YAML/JSON value. Dictionaries keep their insertion order, as Python's do. */
  datatype Value =
    | Null
    | Bool(b: bool)
    | Num(n: int)
    | Str(s: string)
    | List(items: seq<Value>)
    | Dict(fields: seq<Field>)

  datatype Field = Field(key: string, val: Value)

  function KeysOf(fs: seq<Field>): (ks: seq<string>)
    ensures |ks| == |fs| && forall i :: 0 <= i < |fs| ==> ks[i] == fs[i].key
  {
    if fs == [] then [] else [fs[0].key] + KeysOf(fs[1..])
  }

  function KeySet(fs: seq<Field>): set<string> {
    set i | 0 <= i < |fs| :: fs[i].key
  }

  lemma KeySetCons(fs: seq<Field>)
    requires fs != []
    ensures KeySet(fs) == {fs[0].key} + KeySet(fs[1..])
  {
    forall k | k in KeySet(fs) ensures k in {fs[0].key} + KeySet(fs[1..]) {
      var i :| 0 <= i < |fs| && fs[i].key == k;
      if i > 0 { assert fs[1..][i - 1].key == k; }
    }
    forall k | k in KeySet(fs[1..]) ensures k in KeySet(fs) {
      var i :| 0 <= i < |fs[1..]| && fs[1..][i].key == k;
      assert fs[i + 1].key == k;
    }
  }

  /** A dictionary in which no key occurs twice; every document loaded from
      YAML has this shape at every level. */
  predicate UniqueKeys(fs: seq<Field>) {
    forall i, j :: 0 <= i < j < |fs| ==> fs[i].key != fs[j].key
  }

  /** `d.get(k)` on a dictionary given by its fields. */
  function Lookup(fs: seq<Field>, k: string): (r: Option<Value>)
    ensures r.Some? <==> k in KeySet(fs)
    ensures r.Some? ==> Field(k, r.value) in fs
  {
    if fs == [] then None
    else
      if fs[0].key == k then Some(fs[0].val) else Lookup(fs[1..], k)
  }

  /** `d.get(k, default)` */
  function GetOr(fs: seq<Field>, k: string, default: Value): (r: Value)
    ensures k !in KeySet(fs) ==> r == default
    ensures Lookup(fs, k).Some? ==> r == Lookup(fs, k).value
  {
    match Lookup(fs, k)
    case Some(v) => v
    case None => default
  }

  /** `d[k] = v`: an existing key keeps its position, a new key goes last. */
  function Put(fs: seq<Field>, k: string, v: Value): (r: seq<Field>)
    ensures Lookup(r, k) == Some(v)
    ensures forall k' :: k' != k ==> Lookup(r, k') == Lookup(fs, k')
    ensures k !in KeySet(fs) ==> r == fs + [Field(k, v)]
  {
    if fs == [] then [Field(k, v)]
    else if fs[0].key == k then [Field(k, v)] + fs[1..]
    else [fs[0]] + Put(fs[1..], k, v)
  }

  lemma PutKeys(fs: seq<Field>, k: string, v: Value)
    ensures KeySet(Put(fs, k, v)) == KeySet(fs) + {k}
  {
    var r := Put(fs, k, v);
    forall x ensures x in KeySet(r) <==> x in KeySet(fs) + {k} {
      if x != k {
        assert Lookup(r, x) == Lookup(fs, x);
      } else {
        assert Lookup(r, k).Some?;
      }
    }
  }


  /** `d.pop(k, None)` as a statement: the dictionary without key `k`. */
  function Remove(fs: seq<Field>, k: string): (r: seq<Field>)
    ensures Lookup(r, k) == None
    ensures forall k' :: k' != k ==> Lookup(r, k') == Lookup(fs, k')
    ensures KeySet(r) == KeySet(fs) - {k}
  {
    if fs == [] then []
    else
      KeySetCons(fs);
      if fs[0].key == k then Remove(fs[1..], k)
      else
        var r := [fs[0]] + Remove(fs[1..], k);
        assert r[1..] == Remove(fs[1..], k);
        KeySetCons(r);
        r
  }

  /** Values that can be set elements or dictionary keys; lists and
      dictionaries cannot. */
  predicate Hashable(v: Value) {
    !v.List? && !v.Dict?
  }

  /** Python truthiness: `None`, `False`, `0`, and empty strings, lists and
      dictionaries are false. */
  predicate Truthy(v: Value) {
    match v
    case Null => false
    case Bool(b) => b
    case Num(n) => n != 0
    case Str(s) => s != ""
    case List(items) => items != []
    case Dict(fields) => fields != []
  }

  /** What `for x in v` visits: the elements of a list, the keys of a
      dictionary, the one-character strings of a string. Numbers, booleans
      and `None` are not iterable. */
  function Iterate(v: Value): (r: Result<seq<Value>>)
    ensures v.List? ==> r == Ok(v.items)
    ensures v.Dict? ==> r.Ok? && |r.value| == |v.fields|
    ensures v.Dict? ==> forall i :: 0 <= i < |v.fields| ==> r.value[i] == Str(v.fields[i].key)
    ensures (v.Null? || v.Bool? || v.Num?) <==> r.Err?
  {
    match v
    case List(items) => Ok(items)
    case Dict(fields) => Ok(seq(|fields|, i requires 0 <= i < |fields| => Str(fields[i].key)))
    case Str(s) => Ok(seq(|s|, i requires 0 <= i < |s| => Str([s[i]])))
    case _ => Err(TypeError)
  }

  /** Python's `str(n)` for an integer. */
  function IntToString(n: int): (s: string)
    ensures s != []
  {
    if n < 0 then "-" + NatToString(-n) else NatToString(n)
  }

  function NatToString(n: nat): (s: string)
    ensures s != [] && forall i :: 0 <= i < |s| ==> '0' <= s[i] <= '9'
  {
    var d := ['0' + (n % 10) as char];
    if n < 10 then d else NatToString(n / 10) + d
  }

  /** `', '.join(parts)` and friends. */
  function Join(parts: seq<string>, sep: string): string {
    if parts == [] then ""
    else if |parts| == 1 then parts[0]
    else parts[0] + sep + Join(parts[1..], sep)
  }

  /** Python's `str(v)`. Strings are quoted with `'` inside containers,
      without escaping. */
  function Show(v: Value): (r: string)
    ensures v.Str? ==> r == v.s
    ensures v.List? ==> |r| >= 2 && r[0] == '[' && r[|r| - 1] == ']'
    ensures v.Dict? ==> |r| >= 2 && r[0] == '{' && r[|r| - 1] == '}'
  {
    match v
    case Null => "None"
    case Bool(b) => if b then "True" else "False"
    case Num(n) => IntToString(n)
    case Str(s) => s
    case List(items) => "[" + Join(ShowItems(items), ", ") + "]"
    case Dict(fields) => "{" + Join(ShowFields(fields), ", ") + "}"
  }

  function ShowItems(items: seq<Value>): (r: seq<string>)
    ensures |r| == |items|
  {
    if items == [] then [] else [if items[0].Str? then "'" + items[0].s + "'" else Show(items[0])] + ShowItems(items[1..])
  }

  function ShowFields(fs: seq<Field>): (r: seq<string>)
    ensures |r| == |fs|
  {
    if fs == [] then [] else ["'" + fs[0].key + "': " + (if fs[0].val.Str? then "'" + fs[0].val.s + "'" else Show(fs[0].val))] + ShowFields(fs[1..])
  }

  /** The value of a field that must hold a string, as `conf['ID'] + '-0'`
      or a command-line argument needs it. */
  function AsString(v: Value): (r: Result<string>)
    ensures r.Ok? <==> v.Str?
    ensures r.Ok? ==> r.value == v.s
  {
    if v.Str? then Ok(v.s) else Err(TypeError)
  }

  /** Every element of a list that must hold strings, as `conf['Type']` does. */
  function AsStrings(vs: seq<Value>): (r: Result<seq<string>>)
    ensures r.Ok? <==> forall i :: 0 <= i < |vs| ==> vs[i].Str?
    ensures r.Ok? ==> |r.value| == |vs| && forall i :: 0 <= i < |vs| ==> r.value[i] == vs[i].s
  {
    if vs == [] then Ok([])
    else if !vs[0].Str? then Err(TypeError)
    else
      var rest := AsStrings(vs[1..]);
      assert rest.Ok? <==> forall i :: 1 <= i < |vs| ==> vs[i].Str? by {
        assert forall i :: 1 <= i < |vs| ==> vs[i] == vs[1..][i - 1];
      }
      if rest.Err? then rest else Ok([vs[0].s] + rest.value)
  }

  /** A dictionary section of a document: `d.get(k, {})`, or a TypeError when
      the section is present but is not a dictionary. */
  function Section(fs: seq<Field>, k: string): (r: Result<seq<Field>>)
    ensures r.Ok? <==> (Lookup(fs, k).None? || Lookup(fs, k).value.Dict?)
    ensures Lookup(fs, k).None? ==> r == Ok([])
    ensures r.Ok? && Lookup(fs, k).Some? ==> r.value == Lookup(fs, k).value.fields
  {
    match Lookup(fs, k)
    case None => Ok([])
    case Some(v) => if v.Dict? then Ok(v.fields) else Err(TypeError)
  }

  /** `d[k]`, a KeyError when the key is missing. */
  function Index(fs: seq<Field>, k: string): (r: Result<Value>)
    ensures r.Ok? <==> k in KeySet(fs)
    ensures r.Ok? ==> Lookup(fs, k) == Some(r.value)
    ensures r.Err? ==> r.error == KeyError(k)
  {
    match Lookup(fs, k)
    case None => Err(KeyError(k))
    case Some(v) => Ok(v)
  }
}
