/** Resolving a spec against the parameters: `{name}` tokens (`_sub`), the
    handler dictionaries `_sub_`, `_yml_` and `_zip_` applied bottom-up by
    `traverse`, and the dependencies `makeDepend` collects in dry mode
    (gcputil.py). */
module Materialize {
  import opened Values
  import opened Template

  /** Python's `s.split(c)`: never empty, no piece holds `c`. */
  function Split(s: string, c: char): (r: seq<string>)
    ensures |r| >= 1
    ensures forall i :: 0 <= i < |r| ==> c !in r[i]
  {
    if s == [] then [""]
    else
      var rest := Split(s[1..], c);
      if s[0] == c then [""] + rest
      else
        [[s[0]] + rest[0]] + rest[1..]
  }

  /** `sep.join(parts)` with a one-character separator. */
  function JoinWith(parts: seq<string>, c: char): string
    requires |parts| >= 1
  {
    if |parts| == 1 then parts[0] else parts[0] + [c] + JoinWith(parts[1..], c)
  }

  /** Splitting and joining again gives the string back. */
  lemma {:induction false} JoinSplit(s: string, c: char)
    ensures JoinWith(Split(s, c), c) == s
  {
    if s != [] {
      var rest := Split(s[1..], c);
      JoinSplit(s[1..], c);
      if s[0] == c {
        assert Split(s, c) == [""] + rest;
        assert ([""] + rest)[1..] == rest;
        assert s == [c] + s[1..];
      } else {
        var r := [[s[0]] + rest[0]] + rest[1..];
        assert Split(s, c) == r;
        if |rest| == 1 {
          assert s == [s[0]] + s[1..];
        } else {
          assert r[1..] == rest[1..];
          assert JoinWith(rest, c) == rest[0] + [c] + JoinWith(rest[1..], c);
          assert s == [s[0]] + s[1..];
        }
      }
    }
  }

  /** Joining pieces that hold no separator and splitting again gives the
      pieces back. */
  lemma {:induction false} SplitJoin(parts: seq<string>, c: char)
    requires |parts| >= 1 && forall i :: 0 <= i < |parts| ==> c !in parts[i]
    ensures Split(JoinWith(parts, c), c) == parts
    decreases |parts|, |parts[0]|
  {
    if |parts| == 1 {
      SplitPlain(parts[0], c);
    } else {
      assert forall i :: 0 <= i < |parts[1..]| ==> parts[1..][i] == parts[i + 1];
      SplitJoin(parts[1..], c);
      SplitGlue(parts[0], c, JoinWith(parts[1..], c));
      assert [parts[0]] + parts[1..] == parts;
    }
  }

  /** A string without the separator is one piece. */
  lemma {:induction false} SplitPlain(s: string, c: char)
    requires c !in s
    ensures Split(s, c) == [s]
  {
    if s != [] {
      assert c !in s[1..];
      SplitPlain(s[1..], c);
      assert [s[0]] + s[1..] == s;
    }
  }

  /** A piece without the separator, the separator, then the rest. */
  lemma {:induction false} SplitGlue(a: string, c: char, b: string)
    requires c !in a
    ensures Split(a + [c] + b, c) == [a] + Split(b, c)
  {
    if a == [] {
      assert a + [c] + b == [c] + b;
      assert ([c] + b)[1..] == b;
    } else {
      assert (a + [c] + b)[0] == a[0];
      assert (a + [c] + b)[1..] == a[1..] + [c] + b;
      SplitGlue(a[1..], c, b);
      assert [a[0]] + a[1..] == a;
    }
  }

  /** `x.split(c, 1)` unpacked into two parts: the text before the first `c`
      and the text after it. */
  function SplitOnce(s: string, c: char): (r: Option<(string, string)>)
    ensures r.None? <==> c !in s
    ensures r.Some? ==> c !in r.value.0 && s == r.value.0 + [c] + r.value.1
  {
    if s == [] then None
    else if s[0] == c then Some(("", s[1..]))
    else match SplitOnce(s[1..], c)
      case None => None
      case Some((x, y)) => Some(([s[0]] + x, y))
  }

  /** `x.split('.', 1)[0]`: the name a dotted reference starts with. */
  function Prefix(x: string): (r: string)
    ensures '.' !in r
    ensures '.' !in x ==> r == x
    ensures '.' in x ==> exists y :: x == r + "." + y
  {
    match SplitOnce(x, '.')
    case None => x
    case Some((a, b)) => a
  }

  /** `''.join(parts)` */
  function Concat(parts: seq<string>): string {
    if parts == [] then "" else parts[0] + Concat(parts[1..])
  }

  /** The state the handlers share: the parameters, the set of unresolved
      references (`None` when they are not collected), and the files that
      feed the fingerprint (`None` when they are not collected). The files
      are kept in insertion order, each once. */
  datatype Env = Env(params: map<string, Value>, wait: Option<set<string>>, files: Option<seq<string>>)

  /** `params.get(x)`, where a key that holds `None` counts as missing. */
  function Param(params: map<string, Value>, x: string): Value {
    if x in params then params[x] else Null
  }

  /** Every collected reference is a parameter, and so is its root name. */
  predicate Registered(e: Env) {
    e.wait.Some? ==> forall x :: x in e.wait.value ==> x in e.params && Prefix(x) in e.params
  }

  /** Every duplicate-free file list. */
  predicate Distinct(fs: seq<string>) {
    forall i, j :: 0 <= i < j < |fs| ==> fs[i] != fs[j]
  }

  /** What resolving may do to the shared state: parameters are only added
      (and only under dotted names) or filled where they held `None`;
      nothing changes when references are not collected; the wait set and
      the file list only grow; and the registration invariant and
      duplicate-freedom of the files are kept. */
  predicate Grows(e0: Env, e1: Env) {
    && e0.params.Keys <= e1.params.Keys
    && (forall k :: k in e0.params && e0.params[k] != Null ==> e1.params[k] == e0.params[k])
    && (forall k :: k in e1.params && k !in e0.params ==> '.' in k)
    && (e0.wait.None? ==> e1.wait.None? && e1.params == e0.params)
    && (e0.wait.Some? ==> e1.wait.Some? && e0.wait.value <= e1.wait.value)
    && (e0.files.None? ==> e1.files.None?)
    && (e0.files.Some? ==> e1.files.Some? && e0.files.value <= e1.files.value)
    && (Registered(e0) ==> Registered(e1))
    && (e0.files.Some? && Distinct(e0.files.value) ==> Distinct(e1.files.value))
  }

  lemma GrowsTrans(a: Env, b: Env, c: Env)
    requires Grows(a, b) && Grows(b, c)
    ensures Grows(a, c)
  {
  }

  /** One piece after a `{`: the reference up to the first `}`, replaced by
      its value when it has a non-`None` value (which must be a string);
      otherwise, in dry mode, registered with the value of its root name,
      else left as it is. */
  function SubStep(piece: string, env: Env): (r: Result<(string, Env)>)
    ensures r.Ok? ==> r.value.1.files == env.files
  {
    match SplitOnce(piece, '}')
    case None => Err(ValueError)
    case Some((x, y)) =>
      var p := Param(env.params, x);
      if !p.Null? then
        if p.Str? then Ok((p.s + y, env)) else Err(TypeError)
      else if env.wait.Some? then
        var root := Prefix(x);
        if root !in env.params then Err(KeyError(root))
        else Ok((piece, env.(params := env.params[x := env.params[root]], wait := Some(env.wait.value + {x}))))
      else Ok((piece, env))
  }

  /** The pieces after the first, left to right. */
  function SubPieces(pieces: seq<string>, env: Env): (r: Result<(seq<string>, Env)>)
    ensures r.Ok? ==> |r.value.0| == |pieces|
    ensures r.Ok? ==> r.value.1.files == env.files
  {
    if pieces == [] then Ok(([], env))
    else
      var (z, e) :- SubStep(pieces[0], env);
      var (zs, e') :- SubPieces(pieces[1..], e);
      Ok(([z] + zs, e'))
  }

  lemma SubStepGrows(piece: string, env: Env)
    requires SubStep(piece, env).Ok?
    ensures Grows(env, SubStep(piece, env).value.1)
  {
  }

  lemma {:induction false} SubPiecesGrows(pieces: seq<string>, env: Env)
    requires SubPieces(pieces, env).Ok?
    ensures Grows(env, SubPieces(pieces, env).value.1)
  {
    if pieces != [] {
      var e := SubStep(pieces[0], env).value.1;
      SubStepGrows(pieces[0], env);
      SubPiecesGrows(pieces[1..], e);
      GrowsTrans(env, e, SubPieces(pieces[1..], e).value.1);
    }
  }

  /** `_sub(s, params, wait)` */
  function SubSpec(s: string, env: Env): (r: Result<(string, Env)>)
    ensures r.Ok? ==> r.value.1.files == env.files
  {
    var xs := Split(s, '{');
    Finish(xs[0], SubPieces(xs[1..], env))
  }

  function Then(done: seq<string>, r: Result<(seq<string>, Env)>): Result<(seq<string>, Env)> {
    if r.Err? then r else Ok((done + r.value.0, r.value.1))
  }

  /** One piece of `_sub`'s loop: the text after a `{` up to its `}`
      names a parameter, which is substituted, recorded as awaited, or
      rejected. */
  method SubOne(piece: string, env: Env) returns (r: Result<(string, Env)>)
    ensures r == SubStep(piece, env)
  {
    var parts := SplitOnce(piece, '}');
    if parts.None? {
      return Err(ValueError);
    }
    var (x, y) := parts.value;
    var p := Param(env.params, x);
    if !p.Null? {
      if !p.Str? {
        return Err(TypeError);
      }
      return Ok((p.s + y, env));
    }
    if env.wait.Some? {
      var root := Prefix(x);
      if root !in env.params {
        return Err(KeyError(root));
      }
      return Ok((piece, env.(params := env.params[x := env.params[root]], wait := Some(env.wait.value + {x}))));
    }
    return Ok((piece, env));
  }

  /** `_sub` as written: the loop over the pieces, updating the piece list,
      the parameters and the wait set in place. */
  method Sub(s: string, env: Env) returns (r: Result<(string, Env)>)
    ensures r == SubSpec(s, env)
  {
    var xs := Split(s, '{');
    ghost var orig := xs;
    var e := env;
    var i := 1;
    ThenNil(SubPieces(orig[1..], env));
    assert xs[1..1] == [];
    while i < |xs|
      invariant 1 <= i <= |xs| == |orig|
      invariant xs[i..] == orig[i..] && xs[0] == orig[0]
      invariant SubPieces(orig[1..], env) == Then(xs[1..i], SubPieces(orig[i..], e))
    {
      assert orig[i..][1..] == orig[i + 1..];
      assert orig[i..][0] == xs[i];
      ghost var e0 := e;
      var step := SubOne(xs[i], e);
      if step.Err? {
        SubFails(s, env, xs[1..i], orig[i..], e, step.error);
        return Err(step.error);
      }
      xs := xs[i := step.value.0];
      e := step.value.1;
      SubPiecesStep(orig[i..], e0, xs[i], e);
      ThenThen(xs[1..i], [xs[i]], SubPieces(orig[i + 1..], e));
      SliceSnoc(xs, 1, i);
      i := i + 1;
    }
    assert orig[i..] == [];
    assert SubPieces(orig[i..], e) == Ok(([], e));
    assert xs[1..i] + [] == xs[1..];
    assert SubPieces(orig[1..], env) == Ok((xs[1..], e));
    assert xs == [xs[0]] + xs[1..];
    ConcatCons(xs[0], xs[1..]);
    return Ok((Concat(xs), e));
  }

  /** A piece whose step fails makes the whole substitution fail. */
  lemma SubFails(s: string, env: Env, done: seq<string>, rest: seq<string>, e: Env, err: Error)
    requires SubPieces(Split(s, '{')[1..], env) == Then(done, SubPieces(rest, e))
    requires rest != [] && SubStep(rest[0], e) == Err(err)
    ensures SubSpec(s, env) == Err(err)
  {
  }

  lemma SubPiecesStep(pieces: seq<string>, env: Env, z: string, e: Env)
    requires pieces != [] && SubStep(pieces[0], env) == Ok((z, e))
    ensures SubPieces(pieces, env) == Then([z], SubPieces(pieces[1..], e))
  {
  }

  lemma SliceSnoc(s: seq<string>, lo: int, hi: int)
    requires 0 <= lo <= hi < |s|
    ensures s[lo..hi + 1] == s[lo..hi] + [s[hi]]
  {
  }

  lemma ThenNil(r: Result<(seq<string>, Env)>)
    ensures Then([], r) == r
  {
    if r.Ok? { assert [] + r.value.0 == r.value.0; }
  }

  lemma ThenThen(a: seq<string>, b: seq<string>, r: Result<(seq<string>, Env)>)
    ensures Then(a, Then(b, r)) == Then(a + b, r)
  {
    if r.Ok? { assert a + (b + r.value.0) == (a + b) + r.value.0; }
  }

  /** Text without `{` is left alone. */
  lemma SubNoBraces(s: string, env: Env)
    requires '{' !in s
    ensures SubSpec(s, env) == Ok((s, env))
  {
    SplitPlain(s, '{');
    assert Split(s, '{')[1..] == [];
    assert s + Concat([]) == s;
  }

  lemma {:induction false} ConcatCons(a: string, rest: seq<string>)
    ensures Concat([a] + rest) == a + Concat(rest)
  {
    assert ([a] + rest)[1..] == rest;
  }

  /** The first reference `{x}` in `a{x}b`: a string value replaces it; a
      `None` or missing value in dry mode registers `x` in the wait set and
      as a parameter holding the value of its root name (a KeyError when the
      root is not a parameter); otherwise the text stays, without the `{`;
      the rest `b` is then resolved from the resulting state. */
  lemma SubFirstToken(a: string, x: string, b: string, env: Env)
    requires '{' !in a && '{' !in x && '}' !in x
    ensures var s := a + "{" + x + "}" + b;
      var p := Param(env.params, x);
      && (p.Str? ==> SubSpec(s, env) == Prepend(a + p.s, SubSpec(b, env)))
      && (!p.Null? && !p.Str? ==> SubSpec(s, env) == Err(TypeError))
      && (p.Null? && env.wait.None? ==> SubSpec(s, env) == Prepend(a + x + "}", SubSpec(b, env)))
      && (p.Null? && env.wait.Some? && Prefix(x) !in env.params ==> SubSpec(s, env) == Err(KeyError(Prefix(x))))
      && (p.Null? && env.wait.Some? && Prefix(x) in env.params ==>
            var env' := env.(params := env.params[x := env.params[Prefix(x)]], wait := Some(env.wait.value + {x}));
            SubSpec(s, env) == Prepend(a + x + "}", SubSpec(b, env')))
  {
    var bs := Split(b, '{');
    var piece := x + "}" + bs[0];
    SplitOnceAt(x, bs[0]);
    var p := Param(env.params, x);
    if p.Str? {
      assert SubStep(piece, env) == Ok((p.s + bs[0], env));
      SubSpecToken(a, x, b, env, p.s, env);
    } else if !p.Null? {
      SubSpecTokenErr(a, x, b, env);
    } else if env.wait.None? {
      assert SubStep(piece, env) == Ok(((x + "}") + bs[0], env));
      SubSpecToken(a, x, b, env, x + "}", env);
      assert a + (x + "}") == a + x + "}";
    } else if Prefix(x) !in env.params {
      SubSpecTokenErr(a, x, b, env);
    } else {
      var env' := env.(params := env.params[x := env.params[Prefix(x)]], wait := Some(env.wait.value + {x}));
      assert SubStep(piece, env) == Ok(((x + "}") + bs[0], env'));
      SubSpecToken(a, x, b, env, x + "}", env');
      assert a + (x + "}") == a + x + "}";
    }
  }

  /** The resolved text is the first piece, what the reference became, and
      the rest resolved from the state after it. */
  lemma SubSpecToken(a: string, x: string, b: string, env: Env, w: string, e: Env)
    requires '{' !in a && '{' !in x && '}' !in x
    requires SubStep(x + "}" + Split(b, '{')[0], env) == Ok((w + Split(b, '{')[0], e))
    ensures SubSpec(a + "{" + x + "}" + b, env) == Prepend(a + w, SubSpec(b, e))
  {
    var bs := Split(b, '{');
    var piece := x + "}" + bs[0];
    var rest := SubPieces(bs[1..], e);
    assert SubSpec(a + "{" + x + "}" + b, env) == Finish(a, SubPieces([piece] + bs[1..], env)) by {
      SplitToken(a, x, b);
    }
    assert SubPieces([piece] + bs[1..], env) == Then([w + bs[0]], rest) by {
      assert ([piece] + bs[1..])[1..] == bs[1..];
    }
    assert SubSpec(b, e) == Finish(bs[0], rest);
    FinishThen(a, w, bs[0], rest);
  }

  /** Joining a head, one resolved piece and the rest is prepending the
      head and the piece's substitution to the join of the rest. */
  lemma FinishThen(a: string, w: string, b0: string, rest: Result<(seq<string>, Env)>)
    ensures Finish(a, Then([w + b0], rest)) == Prepend(a + w, Finish(b0, rest))
  {
    if rest.Ok? {
      FinishCons(a, w + b0, rest.value.0, rest.value.1);
      assert a + (w + b0) + Concat(rest.value.0) == (a + w) + (b0 + Concat(rest.value.0));
    }
  }

  lemma SubSpecTokenErr(a: string, x: string, b: string, env: Env)
    requires '{' !in a && '{' !in x && '}' !in x
    requires SubStep(x + "}" + Split(b, '{')[0], env).Err?
    ensures SubSpec(a + "{" + x + "}" + b, env) == Err(SubStep(x + "}" + Split(b, '{')[0], env).error)
  {
    var bs := Split(b, '{');
    SplitToken(a, x, b);
    assert ([x + "}" + bs[0]] + bs[1..])[1..] == bs[1..];
  }

  /** `''.join` of the first piece and the resolved rest. */
  function Finish(head: string, r: Result<(seq<string>, Env)>): Result<(string, Env)> {
    if r.Err? then Err(r.error) else Ok((head + Concat(r.value.0), r.value.1))
  }

  lemma FinishCons(a: string, z: string, zs: seq<string>, e: Env)
    ensures Finish(a, Ok(([z] + zs, e))) == Ok((a + z + Concat(zs), e))
  {
    ConcatCons(z, zs);
    assert a + (z + Concat(zs)) == a + z + Concat(zs);
  }

  lemma SplitToken(a: string, x: string, b: string)
    requires '{' !in a && '{' !in x && '}' !in x
    ensures var bs := Split(b, '{'); Split(a + "{" + x + "}" + b, '{') == [a, x + "}" + bs[0]] + bs[1..]
  {
    var t := x + "}" + b;
    var bs := Split(b, '{');
    assert Split(a + "{" + x + "}" + b, '{') == [a] + Split(t, '{') by {
      assert a + "{" + x + "}" + b == a + ['{'] + t;
      SplitGlue(a, '{', t);
    }
    assert Split(t, '{') == [x + "}" + bs[0]] + bs[1..] by {
      assert '{' !in x + "}";
      assert t == (x + "}") + b;
      SplitGlue2(x + "}", b);
    }
    ConsTwo(a, x + "}" + bs[0], bs[1..]);
  }

  lemma ConsTwo<T>(x: T, y: T, s: seq<T>)
    ensures [x] + ([y] + s) == [x, y] + s
  {
  }

  /** Concatenating a piece without `{` onto the front of a string glues it
      to the first piece. */
  lemma {:induction false} SplitGlue2(a: string, b: string)
    requires '{' !in a
    ensures var bs := Split(b, '{'); Split(a + b, '{') == [a + bs[0]] + bs[1..]
  {
    if a != [] {
      assert (a + b)[0] == a[0] && (a + b)[1..] == a[1..] + b;
      SplitGlue2(a[1..], b);
      assert [a[0]] + (a[1..] + Split(b, '{')[0]) == a + Split(b, '{')[0];
    } else {
      assert a + b == b;
      assert a + Split(b, '{')[0] == Split(b, '{')[0];
      assert [Split(b, '{')[0]] + Split(b, '{')[1..] == Split(b, '{');
    }
  }

  lemma {:induction false} SplitOnceAt(x: string, y: string)
    requires '}' !in x
    ensures SplitOnce(x + "}" + y, '}') == Some((x, y))
  {
    if x == [] {
      assert x + "}" + y == "}" + y;
      assert ("}" + y)[1..] == y;
    } else {
      assert (x + "}" + y)[0] == x[0];
      assert (x + "}" + y)[1..] == x[1..] + "}" + y;
      SplitOnceAt(x[1..], y);
      assert [x[0]] + x[1..] == x;
    }
  }

  function Prepend(a: string, r: Result<(string, Env)>): Result<(string, Env)> {
    if r.Err? then r else Ok((a + r.value.0, r.value.1))
  }

  /** Adding to a Python set of paths, modelled as a list in first-insertion
      order: a path already there is not added again. */
  function AddFile(files: seq<string>, path: string): (r: seq<string>)
    ensures files <= r && path in r
    ensures forall q :: q in r <==> q in files || q == path
    ensures Distinct(files) ==> Distinct(r)
  {
    if path in files then files else files + [path]
  }

  predicate StartsWith(s: string, p: string) {
    |p| <= |s| && s[..|p|] == p
  }

  /** `src, dst = srcdst`: the value must iterate to exactly two items. */
  function Pair2(v: Value): (r: Result<(Value, Value)>)
    ensures r.Ok? <==> Iterate(v).Ok? && |Iterate(v).value| == 2
    ensures r.Ok? ==> Iterate(v).value == [r.value.0, r.value.1]
  {
    var xs :- Iterate(v);
    if |xs| != 2 then Err(ValueError) else Ok((xs[0], xs[1]))
  }

  /** `params['$data'][src]`: the document a `_yml_` handler renders. */
  function TemplateDoc(params: map<string, Value>, src: Value): (r: Result<Value>)
    ensures r.Ok? ==> "$data" in params && params["$data"].Dict? && src.Str?
    ensures r.Ok? ==> Lookup(params["$data"].fields, src.s) == Some(r.value)
    ensures "$data" !in params ==> r == Err(KeyError("$data"))
  {
    if "$data" !in params then Err(KeyError("$data"))
    else
      var data := params["$data"];
      if !data.Dict? || !Hashable(src) then Err(TypeError)
      else if !src.Str? then Err(KeyError(Show(src)))
      else Index(data.fields, src.s)
  }

  const SubKey := "_sub_"
  const YmlKey := "_yml_"
  const ZipKey := "_zip_"

  /** `_sub_`: the value must be a string, which is resolved. */
  function SubHandler(v: Value, env: Env): (r: Result<(Value, Env)>)
    ensures r.Ok? ==> v.Str? && r.value.0.Str? && r.value.1.files == env.files
    ensures r.Ok? ==> SubSpec(v.s, env) == Ok((r.value.0.s, r.value.1))
  {
    if !v.Str? then Err(TypeError)
    else
      var (t, e) :- SubSpec(v.s, env);
      Ok((Str(t), e))
  }

  lemma SubHandlerGrows(v: Value, env: Env)
    requires SubHandler(v, env).Ok?
    ensures Grows(env, SubHandler(v, env).value.1)
  {
    SubPiecesGrows(Split(v.s, '{')[1..], env);
  }

  /** `_zip_`: records the archive that feeds the fingerprint, which is
      `src + '.zip'` when the destination is a bucket URL and the
      destination itself otherwise, and returns the destination. */
  function ZipHandler(v: Value, files: seq<string>): (r: Result<(Value, seq<string>)>)
    ensures r.Ok? ==> Pair2(v).Ok? && Pair2(v).value.0.Str? && Pair2(v).value.1.Str?
    ensures r.Ok? ==> var (src, dst) := Pair2(v).value;
      && r.value.0 == dst
      && r.value.1 == AddFile(files, if StartsWith(dst.s, "gs://") then src.s + ".zip" else dst.s)
  {
    var (src, dst) :- Pair2(v);
    if !src.Str? || !dst.Str? then Err(TypeError)
    else
      var arch := if StartsWith(dst.s, "gs://") then src.s + ".zip" else dst.s;
      Ok((dst, AddFile(files, arch)))
  }

  /** The end of `_yml_`: the destination is returned; it is a file that
      feeds the fingerprint only when nothing is waiting and files are
      collected. */
  function YmlFinish(dst: Value, env: Env): (r: Result<(Value, Env)>)
    ensures r.Ok? ==> r.value.0 == dst
    ensures r.Err? <==> !Waiting(env) && env.files.Some? && !dst.Str?
    ensures r.Ok? && (Waiting(env) || env.files.None?) ==> r.value.1 == env
    ensures r.Ok? && !Waiting(env) && env.files.Some? ==>
      r.value.1 == env.(files := Some(AddFile(env.files.value, dst.s)))
  {
    if Waiting(env) || env.files.None? then Ok((dst, env))
    else if !dst.Str? then Err(TypeError)
    else Ok((dst, env.(files := Some(AddFile(env.files.value, dst.s)))))
  }

  lemma YmlFinishGrows(dst: Value, env: Env)
    requires YmlFinish(dst, env).Ok?
    ensures Grows(env, YmlFinish(dst, env).value.1)
  {
  }

  /** `if wait:` the run is still waiting for some reference. */
  predicate Waiting(env: Env) {
    env.wait.Some? && env.wait.value != {}
  }

  /** Is a handler for this key registered? `_sub_` always is, `_zip_` when
      files are collected and `_yml_` when `yml` says so. */
  predicate Handled(k: string, yml: bool, env: Env) {
    k == SubKey || (k == ZipKey && env.files.Some?) || (k == YmlKey && yml)
  }

  /** `traverse(el, **handlers)`: the children first, in order; then a
      dictionary whose only key names a registered handler is replaced by
      what the handler makes of the value. The `_yml_` handler traverses the
      template document it names with the `_sub_` (and `_zip_`) handlers only. */
  function Traverse(el: Value, yml: bool, env: Env): (r: Result<(Value, Env)>)
    decreases if yml then 1 else 0, el
    ensures !el.List? && !el.Dict? ==> r == Ok((el, env))
    ensures r.Ok? && el.List? ==> r.value.0.List? && |r.value.0.items| == |el.items|
  {
    match el
    case List(xs) =>
      var (ys, e) :- TraverseItems(xs, yml, env);
      Ok((List(ys), e))
    case Dict(fs) =>
      var (gs, e) :- TraverseFields(fs, yml, env);
      if |gs| != 1 || !Handled(gs[0].key, yml, e) then Ok((Dict(gs), e))
      else
        var v := gs[0].val;
        if gs[0].key == SubKey then
          var (w, e') :- SubHandler(v, e);
          Ok((w, e'))
        else if gs[0].key == ZipKey then
          var (w, fs') :- ZipHandler(v, e.files.value);
          Ok((w, e.(files := Some(fs'))))
        else
          var (src, dst) :- Pair2(v);
          var doc :- TemplateDoc(e.params, src);
          var (_, e') :- Traverse(doc, false, e);
          var (w, e'') :- YmlFinish(dst, e');
          Ok((w, e''))
    case _ => Ok((el, env))
  }

  function TraverseFields(fs: seq<Field>, yml: bool, env: Env): (r: Result<(seq<Field>, Env)>)
    ensures r.Ok? ==> KeysOf(r.value.0) == KeysOf(fs)
    decreases if yml then 1 else 0, fs
  {
    if fs == [] then Ok(([], env))
    else
      var (v, e) :- Traverse(fs[0].val, yml, env);
      var (gs, e') :- TraverseFields(fs[1..], yml, e);
      Ok(([Field(fs[0].key, v)] + gs, e'))
  }

  function TraverseItems(xs: seq<Value>, yml: bool, env: Env): (r: Result<(seq<Value>, Env)>)
    ensures r.Ok? ==> |r.value.0| == |xs|
    decreases if yml then 1 else 0, xs
  {
    if xs == [] then Ok(([], env))
    else
      var (v, e) :- Traverse(xs[0], yml, env);
      var (ys, e') :- TraverseItems(xs[1..], yml, e);
      Ok(([v] + ys, e'))
  }

  lemma ZipHandlerGrows(v: Value, e: Env)
    requires e.files.Some? && ZipHandler(v, e.files.value).Ok?
    ensures Grows(e, e.(files := Some(ZipHandler(v, e.files.value).value.1)))
  {
  }

  /** Resolving only grows the shared state (see `Grows`). */
  lemma {:induction false} TraverseGrows(el: Value, yml: bool, env: Env)
    requires Traverse(el, yml, env).Ok?
    ensures Grows(env, Traverse(el, yml, env).value.1)
    decreases if yml then 1 else 0, el
  {
    match el
    case List(xs) =>
      TraverseItemsGrows(xs, yml, env);
    case Dict(fs) =>
      TraverseFieldsGrows(fs, yml, env);
      var (gs, e) := TraverseFields(fs, yml, env).value;
      var e' := Traverse(el, yml, env).value.1;
      if |gs| == 1 && Handled(gs[0].key, yml, e) {
        var v := gs[0].val;
        if gs[0].key == SubKey {
          SubHandlerGrows(v, e);
          assert e' == SubHandler(v, e).value.1;
        } else if gs[0].key == ZipKey {
          ZipHandlerGrows(v, e);
          assert e' == e.(files := Some(ZipHandler(v, e.files.value).value.1));
        } else {
          var (src, dst) := Pair2(v).value;
          var doc := TemplateDoc(e.params, src).value;
          var d := Traverse(doc, false, e).value.1;
          TraverseGrows(doc, false, e);
          YmlFinishGrows(dst, d);
          GrowsTrans(e, d, e');
        }
        GrowsTrans(env, e, e');
      }
    case _ =>
  }

  lemma {:induction false} TraverseFieldsGrows(fs: seq<Field>, yml: bool, env: Env)
    requires TraverseFields(fs, yml, env).Ok?
    ensures Grows(env, TraverseFields(fs, yml, env).value.1)
    decreases if yml then 1 else 0, fs
  {
    if fs != [] {
      var e := Traverse(fs[0].val, yml, env).value.1;
      TraverseGrows(fs[0].val, yml, env);
      TraverseFieldsGrows(fs[1..], yml, e);
      GrowsTrans(env, e, TraverseFields(fs[1..], yml, e).value.1);
    }
  }

  lemma {:induction false} TraverseItemsGrows(xs: seq<Value>, yml: bool, env: Env)
    requires TraverseItems(xs, yml, env).Ok?
    ensures Grows(env, TraverseItems(xs, yml, env).value.1)
    decreases if yml then 1 else 0, xs
  {
    if xs != [] {
      var e := Traverse(xs[0], yml, env).value.1;
      TraverseGrows(xs[0], yml, env);
      TraverseItemsGrows(xs[1..], yml, e);
      GrowsTrans(env, e, TraverseItems(xs[1..], yml, e).value.1);
    }
  }

  /** `makeDepend(conf, params)`: a dry run of the `_sub_` and `_yml_`
      handlers that collects the references still unresolved and returns
      the names they start with, together with the parameters as the dry
      run left them (each unresolved reference registered in them). Every
      such name is a parameter or resource name the template declares, and
      no parameter that held a value changes. */
  function MakeDepend(conf: Value, params: map<string, Value>): (r: Result<(set<string>, map<string, Value>)>)
    ensures r.Ok? ==> forall d :: d in r.value.0 ==> '.' !in d && d in params
    ensures r.Ok? ==> params.Keys <= r.value.1.Keys
    ensures r.Ok? ==> forall k :: k in params && params[k] != Null ==> r.value.1[k] == params[k]
    ensures r.Ok? ==> forall k :: k in r.value.1 && k !in params ==> '.' in k
  {
    var env := Env(params, Some({}), None);
    var (_, e) :- Traverse(conf, true, env);
    assert Grows(env, e) by { TraverseGrows(conf, true, env); }
    Ok((set x | x in e.wait.value :: Prefix(x), e.params))
  }

  /** A lone `{x}` whose name is unresolved makes its root name the one
      dependency, and registers `x` with the value of that root name. */
  lemma MakeDependOne(x: string, params: map<string, Value>)
    requires '{' !in x && '}' !in x
    requires Param(params, x) == Null && Prefix(x) in params
    ensures MakeDepend(Dict([Field(SubKey, Str("{" + x + "}"))]), params)
      == Ok(({Prefix(x)}, params[x := params[Prefix(x)]]))
  {
    var env := Env(params, Some({}), None);
    var env' := env.(params := params[x := params[Prefix(x)]], wait := Some({x}));
    assert SubSpec("{" + x + "}", env) == Ok((x + "}", env')) by {
      assert env.wait.value + {x} == {x};
      SubFirstToken("", x, "", env);
      SubNoBraces("", env');
      assert "" + "{" + x + "}" + "" == "{" + x + "}";
      assert "" + x + "}" + "" == x + "}";
    }
    assert Traverse(Dict([Field(SubKey, Str("{" + x + "}"))]), true, env) == Ok((Str(x + "}"), env')) by {
      TraverseSubDict("{" + x + "}", true, env);
    }
    MakeDependOf(Dict([Field(SubKey, Str("{" + x + "}"))]), params, Str(x + "}"), env');
    assert (set y | y in env'.wait.value :: Prefix(y)) == {Prefix(x)};
  }

  lemma MakeDependOf(conf: Value, params: map<string, Value>, v: Value, e: Env)
    requires Traverse(conf, true, Env(params, Some({}), None)) == Ok((v, e))
    ensures e.wait.Some? && MakeDepend(conf, params) == Ok((set y | y in e.wait.value :: Prefix(y), e.params))
  {
    TraverseGrows(conf, true, Env(params, Some({}), None));
  }

  /** A `_sub_` dictionary holding a string is that string resolved. */
  lemma TraverseSubDict(s: string, yml: bool, env: Env)
    ensures Traverse(Dict([Field(SubKey, Str(s))]), yml, env) == SubHandler(Str(s), env)
  {
    var fs := [Field(SubKey, Str(s))];
    assert TraverseFields(fs[1..], yml, env) == Ok(([], env));
    assert Traverse(fs[0].val, yml, env) == Ok((fs[0].val, env));
    assert [Field(fs[0].key, fs[0].val)] + [] == fs;
    assert TraverseFields(fs, yml, env) == Ok((fs, env));
  }

  /** No dictionary in the document has a handler key as its only key. */
  predicate Plain(el: Value) {
    match el
    case List(xs) => PlainItems(xs)
    case Dict(fs) => PlainFields(fs) && !(|fs| == 1 && fs[0].key in {SubKey, YmlKey, ZipKey})
    case _ => true
  }

  predicate PlainFields(fs: seq<Field>) {
    fs == [] || (Plain(fs[0].val) && PlainFields(fs[1..]))
  }

  predicate PlainItems(xs: seq<Value>) {
    xs == [] || (Plain(xs[0]) && PlainItems(xs[1..]))
  }

  /** A document with no handler dictionary comes back unchanged, and the
      shared state with it. */
  lemma {:induction false} TraversePlain(el: Value, yml: bool, env: Env)
    requires Plain(el)
    ensures Traverse(el, yml, env) == Ok((el, env))
    decreases el
  {
    match el {
      case List(xs) => TraversePlainItems(xs, yml, env);
      case Dict(fs) => TraversePlainFields(fs, yml, env);
      case _ =>
    }
  }

  lemma {:induction false} TraversePlainFields(fs: seq<Field>, yml: bool, env: Env)
    requires PlainFields(fs)
    ensures TraverseFields(fs, yml, env) == Ok((fs, env))
    decreases fs
  {
    if fs != [] {
      TraversePlain(fs[0].val, yml, env);
      TraversePlainFields(fs[1..], yml, env);
      assert [Field(fs[0].key, fs[0].val)] + fs[1..] == fs;
    }
  }

  lemma {:induction false} TraversePlainItems(xs: seq<Value>, yml: bool, env: Env)
    requires PlainItems(xs)
    ensures TraverseItems(xs, yml, env) == Ok((xs, env))
    decreases xs
  {
    if xs != [] {
      TraversePlain(xs[0], yml, env);
      TraversePlainItems(xs[1..], yml, env);
      assert [xs[0]] + xs[1..] == xs;
    }
  }

  /** Resolution for deletion (`traverse(conf, _sub_=(_sub, params))`):
      only `_sub_` is applied, nothing is collected, and the parameters
      are left as they are. */
  function ResolveForDelete(conf: Value, params: map<string, Value>): (r: Result<Value>)
    ensures Plain(conf) ==> r == Ok(conf)
  {
    var env := Env(params, None, None);
    assert Plain(conf) ==> Traverse(conf, false, env) == Ok((conf, env)) by {
      if Plain(conf) { TraversePlain(conf, false, env); }
    }
    var (v, e) :- Traverse(conf, false, env);
    Ok(v)
  }
}
