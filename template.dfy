/** Loading a template: `merge` layers a fragment under a spec, and
    `readConfig` registers the resource names as parameters and expands
    every resource spec with `Defaults` and its aliases (gcputil.py,
    `merge`, `readConfig`). */
module Template {
  import opened Values

  /** Every element can be put in a Python set. */
  predicate AllHashable(xs: seq<Value>) {
    forall i :: 0 <= i < |xs| ==> Hashable(xs[i])
  }

  /** `set(el)` succeeds: the keys of a dictionary, the characters of a
      string, or the elements of a list that holds no list or dictionary. */
  predicate Settable(el: Value) {
    el.Dict? || el.Str? || (el.List? && AllHashable(el.items))
  }

  /** `[x for x in data if x not in set(el)]`, duplicates included. */
  function NewItems(el: seq<Value>, data: seq<Value>): (r: seq<Value>)
    ensures forall x :: x in r <==> x in data && x !in el
  {
    if data == [] then []
    else (if data[0] in el then [] else [data[0]]) + NewItems(el, data[1..])
  }

  /** The fields of `ds` whose key is not in `keys`, in the order of `ds`. */
  function Fresh(ds: seq<Field>, keys: set<string>): (r: seq<Field>)
    ensures KeySet(r) == KeySet(ds) - keys
    ensures forall k :: k !in keys ==> Lookup(r, k) == Lookup(ds, k)
    ensures UniqueKeys(ds) ==> UniqueKeys(r)
  {
    if ds == [] then []
    else
      KeySetCons(ds);
      var rest := Fresh(ds[1..], keys);
      if ds[0].key in keys then rest
      else
        var r := [ds[0]] + rest;
        assert r[1..] == rest;
        KeySetCons(r);
        if UniqueKeys(ds) then UniqueTail(ds); r else r
  }

  /** The first key of a dictionary without repeated keys is not among the
      others, and the others repeat no key either. */
  lemma UniqueTail(fs: seq<Field>)
    requires fs != [] && UniqueKeys(fs)
    ensures fs[0].key !in KeySet(fs[1..]) && UniqueKeys(fs[1..])
  {
    forall i | 0 <= i < |fs[1..]| ensures fs[1..][i].key != fs[0].key {
      assert fs[1..][i] == fs[i + 1];
    }
  }

  lemma KeySetConcat(a: seq<Field>, b: seq<Field>)
    ensures KeySet(a + b) == KeySet(a) + KeySet(b)
  {
    forall k | k in KeySet(a + b) ensures k in KeySet(a) + KeySet(b) {
      var i :| 0 <= i < |a + b| && (a + b)[i].key == k;
      if i >= |a| { assert b[i - |a|].key == k; }
    }
    forall k | k in KeySet(a) + KeySet(b) ensures k in KeySet(a + b) {
      if k in KeySet(a) {
        var i :| 0 <= i < |a| && a[i].key == k;
        assert (a + b)[i].key == k;
      } else {
        var i :| 0 <= i < |b| && b[i].key == k;
        assert (a + b)[|a| + i].key == k;
      }
    }
  }

  /** `merge(el, data)` with `set(el)` taken only where the set is used,
      which is what the code evidently intends: a missing spec value takes
      the fragment's, a dictionary merges key by key, a list gets the
      fragment's new elements appended, and any other value already set on
      the spec is kept. The key order of a merged dictionary is the spec's
      keys, then the fragment's other keys. */
  function Merge(el: Value, data: Value): (r: Result<Value>)
    decreases el
    ensures el.Null? ==> r == Ok(data)
    ensures !el.Null? && !data.Dict? && !data.List? ==> r == Ok(el)
    ensures r.Ok? && !el.Null? && data.Dict? ==>
      el.Dict? && r.value.Dict? && KeySet(r.value.fields) == KeySet(el.fields) + KeySet(data.fields)
    ensures r.Ok? && !el.Null? && data.List? ==>
      el.List? && r.value.List? && |r.value.items| >= |el.items| && r.value.items[..|el.items|] == el.items
    ensures r.Ok? && !el.Null? && data.List? ==>
      forall x :: x in r.value.items[|el.items|..] <==> x in data.items && x !in el.items
  {
    if el.Null? then Ok(data)
    else match data
      case Dict(ds) =>
        if !el.Dict? then Err(TypeError)
        else
          var fs :- MergeFields(el.fields, ds);
          KeySetConcat(fs, Fresh(ds, KeySet(el.fields)));
          Ok(Dict(fs + Fresh(ds, KeySet(el.fields))))
      case List(xs) =>
        if !el.List? || !AllHashable(el.items) || !AllHashable(xs) then Err(TypeError)
        else
          var r := el.items + NewItems(el.items, xs);
          assert r[|el.items|..] == NewItems(el.items, xs);
          Ok(List(r))
      case _ => Ok(el)
  }

  /** The spec's fields, each merged with the fragment's value for its key. */
  function MergeFields(fs: seq<Field>, ds: seq<Field>): (r: Result<seq<Field>>)
    decreases fs
    ensures r.Ok? ==> |r.value| == |fs| && forall i :: 0 <= i < |fs| ==> r.value[i].key == fs[i].key
    ensures r.Ok? ==> KeySet(r.value) == KeySet(fs)
    ensures r.Ok? <==> forall i :: 0 <= i < |fs| ==> Merge(fs[i].val, GetOr(ds, fs[i].key, Null)).Ok?
    ensures r.Ok? ==> forall i :: 0 <= i < |fs| ==> Merge(fs[i].val, GetOr(ds, fs[i].key, Null)) == Ok(r.value[i].val)
  {
    if fs == [] then Ok([])
    else
      var v :- Merge(fs[0].val, GetOr(ds, fs[0].key, Null));
      var rest :- MergeFields(fs[1..], ds);
      var r := [Field(fs[0].key, v)] + rest;
      assert r[1..] == rest;
      KeySetCons(fs);
      KeySetCons(r);
      Ok(r)
  }

  /** `merge` as written: `set(el)` is evaluated before the type of `data`
      is looked at, so a number, a boolean or a list of dictionaries on the
      spec raises TypeError even when it is simply to be kept. */
  function MergeAsWritten(el: Value, data: Value): (r: Result<Value>)
    decreases el
    ensures !el.Null? && !Settable(el) ==> r == Err(TypeError)
  {
    if el.Null? then Ok(data)
    else if !Settable(el) then Err(TypeError)
    else match data
      case Dict(ds) =>
        if !el.Dict? then Err(TypeError)
        else
          var fs :- MergeFieldsAsWritten(el.fields, ds);
          Ok(Dict(fs + Fresh(ds, KeySet(el.fields))))
      case List(xs) =>
        if !el.List? || !AllHashable(xs) then Err(TypeError)
        else Ok(List(el.items + NewItems(el.items, xs)))
      case _ => Ok(el)
  }

  function MergeFieldsAsWritten(fs: seq<Field>, ds: seq<Field>): (r: Result<seq<Field>>)
    decreases fs
    ensures r.Ok? ==> |r.value| == |fs| && forall i :: 0 <= i < |fs| ==> r.value[i].key == fs[i].key
  {
    if fs == [] then Ok([])
    else
      var v :- MergeAsWritten(fs[0].val, GetOr(ds, fs[0].key, Null));
      var rest :- MergeFieldsAsWritten(fs[1..], ds);
      var r := [Field(fs[0].key, v)] + rest;
      assert r[1..] == rest;
      Ok(r)
  }

  /** The correction only removes failures: wherever the code as written
      merges, the corrected merge gives the same document. */
  lemma {:induction false} MergeCorrectionAgrees(el: Value, data: Value)
    requires MergeAsWritten(el, data).Ok?
    ensures Merge(el, data) == MergeAsWritten(el, data)
    decreases el
  {
    if !el.Null? && data.Dict? && el.Dict? {
      MergeFieldsCorrectionAgrees(el.fields, data.fields);
    }
  }

  lemma {:induction false} MergeFieldsCorrectionAgrees(fs: seq<Field>, ds: seq<Field>)
    requires MergeFieldsAsWritten(fs, ds).Ok?
    ensures MergeFields(fs, ds) == MergeFieldsAsWritten(fs, ds)
    decreases fs
  {
    if fs != [] {
      MergeCorrectionAgrees(fs[0].val, GetOr(ds, fs[0].key, Null));
      MergeFieldsCorrectionAgrees(fs[1..], ds);
    }
  }

  /** A spec whose `Update` sets a number, merged with `Defaults` that set
      another `Update` key: the code as written fails, the corrected merge
      keeps the number and adds the default. */
  lemma MergeScalarFinding()
    ensures var spec := Dict([Field("MaxInstances", Num(2))]);
      var defaults := Dict([Field("Memory", Str("256MB"))]);
      && MergeAsWritten(spec, defaults) == Err(TypeError)
      && Merge(spec, defaults) == Ok(Dict([Field("MaxInstances", Num(2)), Field("Memory", Str("256MB"))]))
  {
    var fs := [Field("MaxInstances", Num(2))];
    var ds := [Field("Memory", Str("256MB"))];
    assert GetOr(ds, "MaxInstances", Null) == Null;
    assert fs[1..] == [];
    assert MergeAsWritten(fs[0].val, GetOr(ds, fs[0].key, Null)) == Err(TypeError);
    assert MergeFieldsAsWritten(fs, ds) == Err(TypeError);
    assert Merge(fs[0].val, GetOr(ds, fs[0].key, Null)) == Ok(Num(2));
    assert MergeFields(fs[1..], ds) == Ok([]);
    assert [Field(fs[0].key, Num(2))] + [] == fs;
    assert MergeFields(fs, ds) == Ok(fs);
    assert "Memory" !in KeySet(fs);
    assert Fresh(ds, KeySet(fs)) == ds;
    assert Merge(Dict(fs), Dict(ds)) == Ok(Dict(fs + ds));
    assert fs + ds == [Field("MaxInstances", Num(2)), Field("Memory", Str("256MB"))];
  }

  /** Looking a key up in a merged dictionary: a key of the spec holds the
      merge of the two values, any other key the fragment's value. */
  lemma MergeLookup(el: seq<Field>, ds: seq<Field>, k: string)
    requires Merge(Dict(el), Dict(ds)).Ok?
    ensures var r := Merge(Dict(el), Dict(ds)).value.fields;
      && (k in KeySet(el) ==> Merge(Lookup(el, k).value, GetOr(ds, k, Null)).Ok? && Some(Merge(Lookup(el, k).value, GetOr(ds, k, Null)).value) == Lookup(r, k))
      && (k !in KeySet(el) ==> Lookup(r, k) == Lookup(ds, k))
  {
    var fs := MergeFields(el, ds).value;
    LookupConcat(fs, Fresh(ds, KeySet(el)), k);
    if k in KeySet(el) {
      MergeFieldsLookup(el, ds, k);
    }
  }

  lemma {:induction false} MergeFieldsLookup(fs: seq<Field>, ds: seq<Field>, k: string)
    requires MergeFields(fs, ds).Ok? && k in KeySet(fs)
    ensures Merge(Lookup(fs, k).value, GetOr(ds, k, Null)).Ok?
    ensures Lookup(MergeFields(fs, ds).value, k) == Some(Merge(Lookup(fs, k).value, GetOr(ds, k, Null)).value)
  {
    var r := MergeFields(fs, ds).value;
    KeySetCons(fs);
    if fs[0].key != k {
      MergeFieldsLookup(fs[1..], ds, k);
      assert r[1..] == MergeFields(fs[1..], ds).value;
    }
  }

  lemma {:induction false} LookupConcat(a: seq<Field>, b: seq<Field>, k: string)
    ensures Lookup(a + b, k) == if k in KeySet(a) then Lookup(a, k) else Lookup(b, k)
  {
    if a != [] {
      KeySetCons(a);
      assert (a + b)[1..] == a[1..] + b;
      LookupConcat(a[1..], b, k);
    } else {
      assert a + b == b;
    }
  }

  /** A value the spec sets that is not a dictionary or a list survives any
      fragment that is not a dictionary or a list either. */
  lemma SpecScalarWins(el: seq<Field>, ds: seq<Field>, k: string)
    requires Merge(Dict(el), Dict(ds)).Ok?
    requires Lookup(el, k).Some? && !Lookup(el, k).value.Null?
    requires !GetOr(ds, k, Null).Dict? && !GetOr(ds, k, Null).List?
    ensures Lookup(Merge(Dict(el), Dict(ds)).value.fields, k) == Lookup(el, k)
  {
    MergeLookup(el, ds, k);
  }

  /** Merging two dictionaries that repeat no key gives one that repeats no key. */
  lemma MergeUniqueKeys(el: seq<Field>, ds: seq<Field>)
    requires UniqueKeys(el) && UniqueKeys(ds)
    requires Merge(Dict(el), Dict(ds)).Ok?
    ensures UniqueKeys(Merge(Dict(el), Dict(ds)).value.fields)
  {
    var fs := MergeFields(el, ds).value;
    var gs := Fresh(ds, KeySet(el));
    var r := fs + gs;
    forall i, j | 0 <= i < j < |r| ensures r[i].key != r[j].key {
      if j < |fs| {
        assert r[i].key == el[i].key && r[j].key == el[j].key;
      } else if i >= |fs| {
        assert r[i] == gs[i - |fs|] && r[j] == gs[j - |fs|];
      } else {
        assert r[i].key in KeySet(el) by { assert r[i].key == el[i].key; }
        assert r[j] == gs[j - |fs|];
        assert r[j].key in KeySet(gs);
      }
    }
  }

  /** `conf.update((k, merge(conf.get(k), v)) for k, v in x.items())`: the
      fragment's keys one after the other. */
  function MergeInto(conf: seq<Field>, frag: seq<Field>): (r: Result<seq<Field>>)
    decreases |frag|
    ensures r.Ok? ==> KeySet(r.value) == KeySet(conf) + KeySet(frag)
  {
    if frag == [] then Ok(conf)
    else
      var c :- MergeInto(conf, frag[..|frag| - 1]);
      var last := frag[|frag| - 1];
      var v :- Merge(GetOr(c, last.key, Null), last.val);
      KeySetSnoc(frag);
      PutKeys(c, last.key, v);
      Ok(Put(c, last.key, v))
  }

  lemma KeySetSnoc(fs: seq<Field>)
    requires fs != []
    ensures KeySet(fs) == KeySet(fs[..|fs| - 1]) + {fs[|fs| - 1].key}
  {
    var init := fs[..|fs| - 1];
    forall k | k in KeySet(fs) ensures k in KeySet(init) + {fs[|fs| - 1].key} {
      var i :| 0 <= i < |fs| && fs[i].key == k;
      if i < |fs| - 1 { assert init[i].key == k; }
    }
    forall k | k in KeySet(init) ensures k in KeySet(fs) {
      var i :| 0 <= i < |init| && init[i].key == k;
      assert fs[i].key == k;
    }
  }

  /** All fragments in order, each merged into the result of the ones before. */
  function MergeAll(conf: seq<Field>, frags: seq<seq<Field>>): (r: Result<seq<Field>>)
    decreases |frags|
    ensures r.Ok? ==> KeySet(conf) <= KeySet(r.value)
  {
    if frags == [] then Ok(conf)
    else
      var c :- MergeAll(conf, frags[..|frags| - 1]);
      MergeInto(c, frags[|frags| - 1])
  }

  /** The fragments `alias.get(n)` names: each must be a dictionary. */
  function AliasFragments(alias: Value, names: seq<Value>): (r: Result<seq<seq<Field>>>)
    decreases |names|
    ensures r.Ok? ==> alias.Dict? && |r.value| == |names|
    ensures r.Ok? ==> forall i :: 0 <= i < |names| ==>
      names[i].Str? && Lookup(alias.fields, names[i].s) == Some(Dict(r.value[i]))
  {
    if !alias.Dict? then Err(TypeError)
    else if names == [] then Ok([])
    else
      var init :- AliasFragments(alias, names[..|names| - 1]);
      var n := names[|names| - 1];
      if !n.Str? then Err(TypeError)
      else match Lookup(alias.fields, n.s)
        case Some(Dict(fs)) => Ok(init + [fs])
        case _ => Err(TypeError)
  }

  /** `Defaults` first, then the spec's aliases in the order listed. */
  function Fragments(defaults: Value, alias: Value, names: seq<Value>): (r: Result<seq<seq<Field>>>)
    ensures r.Ok? ==> defaults.Dict? && |r.value| == |names| + 1 && r.value[0] == defaults.fields
    ensures r.Ok? ==> AliasFragments(alias, names).Ok? && r.value[1..] == AliasFragments(alias, names).value
  {
    var rest :- AliasFragments(alias, names);
    if !defaults.Dict? then Err(TypeError) else Ok([defaults.fields] + rest)
  }

  /** One resource spec after `readConfig`: its `Alias` entry popped, then
      `Defaults` and each alias merged in. */
  function ExpandSpec(conf: Value, defaults: Value, alias: Value): (r: Result<seq<Field>>)
    ensures r.Ok? ==> conf.Dict?
    ensures r.Ok? ==> KeySet(conf.fields) - {"Alias"} <= KeySet(r.value)
  {
    if !conf.Dict? then Err(TypeError)
    else
      var names :- Iterate(GetOr(conf.fields, "Alias", List([])));
      var frags :- Fragments(defaults, alias, names);
      MergeAll(Remove(conf.fields, "Alias"), frags)
  }

  /** Every key some fragment sets. */
  function FragmentKeys(frags: seq<seq<Field>>): (r: set<string>)
    decreases |frags|
    ensures forall k :: k in r <==> exists i :: 0 <= i < |frags| && k in KeySet(frags[i])
  {
    if frags == [] then {}
    else
      var init := frags[..|frags| - 1];
      var r := FragmentKeys(init) + KeySet(frags[|frags| - 1]);
      assert forall i :: 0 <= i < |init| ==> init[i] == frags[i];
      r
  }

  lemma {:induction false} MergeAllKeys(conf: seq<Field>, frags: seq<seq<Field>>)
    requires MergeAll(conf, frags).Ok?
    ensures KeySet(MergeAll(conf, frags).value) == KeySet(conf) + FragmentKeys(frags)
    decreases |frags|
  {
    if frags != [] {
      MergeAllKeys(conf, frags[..|frags| - 1]);
    }
  }

  /** `Alias` is gone from an expanded spec exactly when no fragment brings
      it back. */
  lemma AliasRemoved(conf: Value, defaults: Value, alias: Value)
    requires ExpandSpec(conf, defaults, alias).Ok?
    ensures var names := Iterate(GetOr(conf.fields, "Alias", List([]))).value;
      var frags := Fragments(defaults, alias, names).value;
      "Alias" !in KeySet(ExpandSpec(conf, defaults, alias).value) <==>
        forall i :: 0 <= i < |frags| ==> "Alias" !in KeySet(frags[i])
  {
    var names := Iterate(GetOr(conf.fields, "Alias", List([]))).value;
    var frags := Fragments(defaults, alias, names).value;
    MergeAllKeys(Remove(conf.fields, "Alias"), frags);
  }

  /** The first place that sets a key to a value that is not a dictionary
      or a list decides it: the spec itself, else `Defaults`, else the
      earliest alias that has it. */
  lemma {:induction false} FirstScalarWins(conf: seq<Field>, frags: seq<seq<Field>>, i: int, k: string)
    requires MergeAll(conf, frags).Ok?
    requires 0 <= i < |frags| && k !in KeySet(conf)
    requires forall j :: 0 <= j < i ==> k !in KeySet(frags[j])
    requires Lookup(frags[i], k).Some? && var v := Lookup(frags[i], k).value; !v.Null? && !v.Dict? && !v.List?
    requires forall j :: 0 <= j < |frags| ==> UniqueKeys(frags[j])
    ensures Lookup(MergeAll(conf, frags).value, k) == Lookup(frags[i], k)
    decreases |frags|
  {
    var init := frags[..|frags| - 1];
    var last := frags[|frags| - 1];
    var c := MergeAll(conf, init).value;
    if i < |frags| - 1 {
      FirstScalarWins(conf, init, i, k);
      assert init[i] == frags[i];
      MergeIntoKeeps(c, last, k);
    } else {
      MergeAllKeys(conf, init);
      assert k !in KeySet(c) by {
        forall j | 0 <= j < |init| ensures k !in KeySet(init[j]) { assert init[j] == frags[j]; }
      }
      MergeIntoNew(c, last, k);
    }
  }

  /** A key the dictionary already holds as a value that is not a
      dictionary, a list or `None`, keeps it. */
  lemma {:induction false} MergeIntoKeeps(conf: seq<Field>, frag: seq<Field>, k: string)
    requires MergeInto(conf, frag).Ok?
    requires Lookup(conf, k).Some? && var v := Lookup(conf, k).value; !v.Null? && !v.Dict? && !v.List?
    ensures Lookup(MergeInto(conf, frag).value, k) == Lookup(conf, k)
    decreases |frag|
  {
    if frag != [] {
      MergeIntoKeeps(conf, frag[..|frag| - 1], k);
    }
  }

  /** A key the dictionary does not hold takes the fragment's value. */
  lemma {:induction false} MergeIntoNew(conf: seq<Field>, frag: seq<Field>, k: string)
    requires MergeInto(conf, frag).Ok? && UniqueKeys(frag)
    requires k !in KeySet(conf)
    ensures Lookup(MergeInto(conf, frag).value, k) == Lookup(frag, k)
    decreases |frag|
  {
    if frag != [] {
      var init := frag[..|frag| - 1];
      var last := frag[|frag| - 1];
      KeySetSnoc(frag);
      assert UniqueKeys(init) by {
        forall i, j | 0 <= i < j < |init| ensures init[i].key != init[j].key { assert init[i] == frag[i] && init[j] == frag[j]; }
      }
      MergeIntoNew(conf, init, k);
      if last.key == k {
        assert k !in KeySet(init) by {
          forall j | 0 <= j < |init| ensures init[j].key != k { assert init[j] == frag[j]; }
        }
        LookupSnoc(frag, k);
      } else {
        LookupSnoc(frag, k);
      }
    }
  }

  lemma LookupSnoc(fs: seq<Field>, k: string)
    requires fs != []
    ensures Lookup(fs, k) == if k in KeySet(fs[..|fs| - 1]) then Lookup(fs[..|fs| - 1], k)
      else if fs[|fs| - 1].key == k then Some(fs[|fs| - 1].val) else None
  {
    assert fs == fs[..|fs| - 1] + [fs[|fs| - 1]];
    LookupConcat(fs[..|fs| - 1], [fs[|fs| - 1]], k);
  }

  /** What `readConfig` returns: the parameters and the expanded resource
      specs, in template order. */
  datatype Config = Config(params: map<string, Value>, specs: seq<Field>)

  /** A dictionary's entries as a map. */
  function ToMap(fs: seq<Field>): (m: map<string, Value>)
    ensures m.Keys == KeySet(fs)
    ensures forall k :: k in m ==> Lookup(fs, k) == Some(m[k])
  {
    map k | k in KeySet(fs) :: Lookup(fs, k).value
  }

  /** `params.update((x, None) for x in specs)` */
  function WithNames(params: map<string, Value>, specs: seq<Field>): (m: map<string, Value>)
    ensures m.Keys == params.Keys + KeySet(specs)
  {
    params + map k | k in KeySet(specs) :: Null
  }

  function ExpandAll(specs: seq<Field>, defaults: Value, alias: Value): (r: Result<seq<Field>>)
    decreases |specs|
    ensures r.Ok? ==> |r.value| == |specs|
    ensures r.Ok? ==> forall i :: 0 <= i < |specs| ==> r.value[i].key == specs[i].key
  {
    if specs == [] then Ok([])
    else
      var init :- ExpandAll(specs[..|specs| - 1], defaults, alias);
      var last := specs[|specs| - 1];
      var c :- ExpandSpec(last.val, defaults, alias);
      SnocKeys(specs, init, Dict(c));
      Ok(init + [Field(last.key, Dict(c))])
  }

  /** Appending the last spec's name to the names of all the others gives
      the names of all the specs. */
  lemma SnocKeys(specs: seq<Field>, init: seq<Field>, v: Value)
    requires specs != [] && |init| == |specs| - 1
    requires forall i :: 0 <= i < |init| ==> init[i].key == specs[..|specs| - 1][i].key
    ensures forall i :: 0 <= i < |specs| ==> (init + [Field(specs[|specs| - 1].key, v)])[i].key == specs[i].key
  {
  }

  /** `readConfig`: `Parameters` (default `{}`) with `$data` set to the
      template and every resource name set to `None`; each resource spec
      expanded. */
  function LoadConfig(data: Value): (r: Result<Config>)
    ensures r.Ok? <==>
      && data.Dict? && Lookup(data.fields, "Resources").Some?
      && Lookup(data.fields, "Resources").value.Dict?
      && GetOr(data.fields, "Parameters", Dict([])).Dict?
      && ExpandAll(Lookup(data.fields, "Resources").value.fields,
           GetOr(data.fields, "Defaults", Dict([])), GetOr(data.fields, "Alias", Dict([]))).Ok?
    ensures r.Ok? ==> var specs := Lookup(data.fields, "Resources").value.fields;
      && |r.value.specs| == |specs|
      && (forall i :: 0 <= i < |specs| ==> r.value.specs[i].key == specs[i].key)
  {
    if !data.Dict? then Err(TypeError)
    else
      var fields := data.fields;
      var p := GetOr(fields, "Parameters", Dict([]));
      var specs :- Index(fields, "Resources");
      if !p.Dict? || !specs.Dict? then Err(TypeError)
      else
        var params := WithNames(ToMap(p.fields)["$data" := data], specs.fields);
        var expanded :- ExpandAll(specs.fields, GetOr(fields, "Defaults", Dict([])), GetOr(fields, "Alias", Dict([])));
        Ok(Config(params, expanded))
  }

  /** After loading, every resource name is a parameter whose value is
      `None`, `$data` holds the template unless a resource is named `$data`,
      and the other parameters are the template's `Parameters`. */
  lemma LoadConfigParams(data: Value)
    requires LoadConfig(data).Ok?
    ensures var c := LoadConfig(data).value;
      var specs := Lookup(data.fields, "Resources").value.fields;
      var p := GetOr(data.fields, "Parameters", Dict([]));
      && p.Dict?
      && c.params.Keys == KeySet(p.fields) + {"$data"} + KeySet(specs)
      && (forall k :: k in KeySet(specs) ==> c.params[k] == Null)
      && ("$data" !in KeySet(specs) ==> c.params["$data"] == data)
      && (forall k :: k in KeySet(p.fields) && k !in KeySet(specs) && k != "$data" ==> Lookup(p.fields, k) == Some(c.params[k]))
  {
  }

  /** Each expanded spec is the spec, without `Alias`, with `Defaults` and
      then its aliases merged in, in the order listed. */
  lemma LoadConfigSpecs(data: Value, i: int)
    requires LoadConfig(data).Ok?
    requires 0 <= i < |Lookup(data.fields, "Resources").value.fields|
    ensures var specs := Lookup(data.fields, "Resources").value.fields;
      var defaults := GetOr(data.fields, "Defaults", Dict([]));
      var alias := GetOr(data.fields, "Alias", Dict([]));
      var c := LoadConfig(data).value;
      && |c.specs| == |specs|
      && c.specs[i].key == specs[i].key
      && ExpandSpec(specs[i].val, defaults, alias).Ok?
      && c.specs[i].val == Dict(ExpandSpec(specs[i].val, defaults, alias).value)
  {
    var specs := Lookup(data.fields, "Resources").value.fields;
    ExpandAllAt(specs, GetOr(data.fields, "Defaults", Dict([])), GetOr(data.fields, "Alias", Dict([])), i);
  }

  lemma {:induction false} ExpandAllAt(specs: seq<Field>, defaults: Value, alias: Value, i: int)
    requires ExpandAll(specs, defaults, alias).Ok? && 0 <= i < |specs|
    ensures ExpandSpec(specs[i].val, defaults, alias).Ok?
    ensures ExpandAll(specs, defaults, alias).value[i] == Field(specs[i].key, Dict(ExpandSpec(specs[i].val, defaults, alias).value))
    decreases |specs|
  {
    var init := specs[..|specs| - 1];
    if i < |specs| - 1 {
      ExpandAllAt(init, defaults, alias, i);
      assert init[i] == specs[i];
    }
  }

  lemma {:induction false} MergeIntoStops(conf: seq<Field>, frag: seq<Field>, m: int)
    requires 0 <= m <= |frag| && MergeInto(conf, frag[..m]).Err?
    ensures MergeInto(conf, frag) == MergeInto(conf, frag[..m])
    decreases |frag|
  {
    if m < |frag| {
      assert frag[..|frag| - 1][..m] == frag[..m];
      MergeIntoStops(conf, frag[..|frag| - 1], m);
    } else {
      assert frag[..m] == frag;
    }
  }

  lemma {:induction false} MergeAllStops(conf: seq<Field>, frags: seq<seq<Field>>, m: int)
    requires 0 <= m <= |frags| && MergeAll(conf, frags[..m]).Err?
    ensures MergeAll(conf, frags) == MergeAll(conf, frags[..m])
    decreases |frags|
  {
    if m < |frags| {
      assert frags[..|frags| - 1][..m] == frags[..m];
      MergeAllStops(conf, frags[..|frags| - 1], m);
    } else {
      assert frags[..m] == frags;
    }
  }

  lemma ExpandAllSnoc(specs: seq<Field>, defaults: Value, alias: Value, i: int, init: seq<Field>, c: seq<Field>)
    requires 0 <= i < |specs|
    requires ExpandAll(specs[..i], defaults, alias) == Ok(init)
    requires ExpandSpec(specs[i].val, defaults, alias) == Ok(c)
    ensures ExpandAll(specs[..i + 1], defaults, alias) == Ok(init + [Field(specs[i].key, Dict(c))])
  {
    assert specs[..i + 1][..i] == specs[..i];
  }

  lemma ExpandAllFails(specs: seq<Field>, defaults: Value, alias: Value, i: int, init: seq<Field>)
    requires 0 <= i < |specs|
    requires ExpandAll(specs[..i], defaults, alias) == Ok(init)
    requires ExpandSpec(specs[i].val, defaults, alias).Err?
    ensures ExpandAll(specs, defaults, alias) == Err(ExpandSpec(specs[i].val, defaults, alias).error)
  {
    assert specs[..i + 1][..i] == specs[..i];
    ExpandAllStops(specs, defaults, alias, i + 1);
  }

  lemma {:induction false} ExpandAllStops(specs: seq<Field>, defaults: Value, alias: Value, m: int)
    requires 0 <= m <= |specs| && ExpandAll(specs[..m], defaults, alias).Err?
    ensures ExpandAll(specs, defaults, alias) == ExpandAll(specs[..m], defaults, alias)
    decreases |specs|
  {
    if m < |specs| {
      assert specs[..|specs| - 1][..m] == specs[..m];
      ExpandAllStops(specs[..|specs| - 1], defaults, alias, m);
    } else {
      assert specs[..m] == specs;
    }
  }

  /** `readConfig` as written: the same loading, with `MergeAsWritten` in
      place of the corrected merge. */
  function MergeIntoAsWritten(conf: seq<Field>, frag: seq<Field>): (r: Result<seq<Field>>)
    decreases |frag|
    ensures r.Ok? ==> KeySet(r.value) == KeySet(conf) + KeySet(frag)
  {
    if frag == [] then Ok(conf)
    else
      var c :- MergeIntoAsWritten(conf, frag[..|frag| - 1]);
      var last := frag[|frag| - 1];
      var v :- MergeAsWritten(GetOr(c, last.key, Null), last.val);
      KeySetSnoc(frag);
      PutKeys(c, last.key, v);
      Ok(Put(c, last.key, v))
  }

  function MergeAllAsWritten(conf: seq<Field>, frags: seq<seq<Field>>): (r: Result<seq<Field>>)
    decreases |frags|
    ensures r.Ok? ==> KeySet(conf) <= KeySet(r.value)
  {
    if frags == [] then Ok(conf)
    else
      var c :- MergeAllAsWritten(conf, frags[..|frags| - 1]);
      MergeIntoAsWritten(c, frags[|frags| - 1])
  }

  function ExpandSpecAsWritten(conf: Value, defaults: Value, alias: Value): (r: Result<seq<Field>>)
    ensures r.Ok? ==> conf.Dict?
    ensures r.Ok? ==> KeySet(conf.fields) - {"Alias"} <= KeySet(r.value)
  {
    if !conf.Dict? then Err(TypeError)
    else
      var names :- Iterate(GetOr(conf.fields, "Alias", List([])));
      var frags :- Fragments(defaults, alias, names);
      MergeAllAsWritten(Remove(conf.fields, "Alias"), frags)
  }

  function ExpandAllAsWritten(specs: seq<Field>, defaults: Value, alias: Value): (r: Result<seq<Field>>)
    decreases |specs|
    ensures r.Ok? ==> |r.value| == |specs|
    ensures r.Ok? ==> forall i :: 0 <= i < |specs| ==> r.value[i].key == specs[i].key
  {
    if specs == [] then Ok([])
    else
      var init :- ExpandAllAsWritten(specs[..|specs| - 1], defaults, alias);
      var last := specs[|specs| - 1];
      var c :- ExpandSpecAsWritten(last.val, defaults, alias);
      SnocKeys(specs, init, Dict(c));
      Ok(init + [Field(last.key, Dict(c))])
  }

  function LoadConfigAsWritten(data: Value): (r: Result<Config>)
    ensures r.Ok? <==>
      && data.Dict? && Lookup(data.fields, "Resources").Some?
      && Lookup(data.fields, "Resources").value.Dict?
      && GetOr(data.fields, "Parameters", Dict([])).Dict?
      && ExpandAllAsWritten(Lookup(data.fields, "Resources").value.fields,
           GetOr(data.fields, "Defaults", Dict([])), GetOr(data.fields, "Alias", Dict([]))).Ok?
    ensures r.Ok? ==> var specs := Lookup(data.fields, "Resources").value.fields;
      && |r.value.specs| == |specs|
      && (forall i :: 0 <= i < |specs| ==> r.value.specs[i].key == specs[i].key)
  {
    if !data.Dict? then Err(TypeError)
    else
      var fields := data.fields;
      var p := GetOr(fields, "Parameters", Dict([]));
      var specs :- Index(fields, "Resources");
      if !p.Dict? || !specs.Dict? then Err(TypeError)
      else
        var params := WithNames(ToMap(p.fields)["$data" := data], specs.fields);
        var expanded :- ExpandAllAsWritten(specs.fields, GetOr(fields, "Defaults", Dict([])), GetOr(fields, "Alias", Dict([])));
        Ok(Config(params, expanded))
  }

  lemma {:induction false} MergeIntoCorrectionAgrees(conf: seq<Field>, frag: seq<Field>)
    requires MergeIntoAsWritten(conf, frag).Ok?
    ensures MergeInto(conf, frag) == MergeIntoAsWritten(conf, frag)
    decreases |frag|
  {
    if frag != [] {
      var init := frag[..|frag| - 1];
      var last := frag[|frag| - 1];
      MergeIntoCorrectionAgrees(conf, init);
      var c := MergeIntoAsWritten(conf, init).value;
      MergeCorrectionAgrees(GetOr(c, last.key, Null), last.val);
    }
  }

  lemma {:induction false} MergeAllCorrectionAgrees(conf: seq<Field>, frags: seq<seq<Field>>)
    requires MergeAllAsWritten(conf, frags).Ok?
    ensures MergeAll(conf, frags) == MergeAllAsWritten(conf, frags)
    decreases |frags|
  {
    if frags != [] {
      MergeAllCorrectionAgrees(conf, frags[..|frags| - 1]);
      MergeIntoCorrectionAgrees(MergeAllAsWritten(conf, frags[..|frags| - 1]).value, frags[|frags| - 1]);
    }
  }

  lemma {:induction false} ExpandAllCorrectionAgrees(specs: seq<Field>, defaults: Value, alias: Value)
    requires ExpandAllAsWritten(specs, defaults, alias).Ok?
    ensures ExpandAll(specs, defaults, alias) == ExpandAllAsWritten(specs, defaults, alias)
    decreases |specs|
  {
    if specs != [] {
      var last := specs[|specs| - 1];
      ExpandAllCorrectionAgrees(specs[..|specs| - 1], defaults, alias);
      var conf := last.val;
      var names := Iterate(GetOr(conf.fields, "Alias", List([]))).value;
      MergeAllCorrectionAgrees(Remove(conf.fields, "Alias"), Fragments(defaults, alias, names).value);
    }
  }

  /** The correction only removes failures from `readConfig` too: wherever
      the code as written loads a template, the model loads the same
      parameters and specs. */
  lemma LoadConfigCorrectionAgrees(data: Value)
    requires LoadConfigAsWritten(data).Ok?
    ensures LoadConfig(data) == LoadConfigAsWritten(data)
  {
    var fields := data.fields;
    ExpandAllCorrectionAgrees(Lookup(fields, "Resources").value.fields,
      GetOr(fields, "Defaults", Dict([])), GetOr(fields, "Alias", Dict([])));
  }

  /** A spec `Port: 8080` under `Defaults: {Port: 80}`: `readConfig` as
      written raises TypeError at `set(8080)`, while the corrected load
      keeps the spec's port. */
  lemma LoadConfigScalarFinding()
    ensures var spec := Dict([Field("Port", Num(8080))]);
      var data := Dict([Field("Resources", Dict([Field("svc", spec)])), Field("Defaults", Dict([Field("Port", Num(80))]))]);
      && LoadConfigAsWritten(data) == Err(TypeError)
      && LoadConfig(data).Ok? && LoadConfig(data).value.specs == [Field("svc", spec)]
  {
    var fs := [Field("Port", Num(8080))];
    var spec := Dict(fs);
    var ds := [Field("Port", Num(80))];
    var specs := [Field("svc", spec)];
    var fields := [Field("Resources", Dict(specs)), Field("Defaults", Dict(ds))];
    assert GetOr(fields, "Alias", Dict([])) == Dict([]);
    assert fields[1..] == [Field("Defaults", Dict(ds))];
    assert Lookup(fields, "Defaults") == Some(Dict(ds));
    assert GetOr(fs, "Alias", List([])) == List([]);
    assert Remove(fs, "Alias") == fs;
    assert AliasFragments(Dict([]), []) == Ok([]);
    var names: seq<Value> := [];
    assert AliasFragments(Dict([]), names) == Ok([]);
    assert [ds] + [] == [ds];
    assert Fragments(Dict(ds), Dict([]), names) == Ok([ds]);
    var frags := [ds];
    assert frags[..0] == [] && ds[..0] == [];
    assert GetOr(fs, "Port", Null) == Num(8080);
    assert MergeIntoAsWritten(fs, ds) == Err(TypeError);
    assert MergeAllAsWritten(fs, frags) == Err(TypeError);
    assert ExpandSpecAsWritten(spec, Dict(ds), Dict([])) == Err(TypeError);
    assert specs[..0] == [];
    assert ExpandAllAsWritten(specs, Dict(ds), Dict([])) == Err(TypeError);
    assert Put(fs, "Port", Num(8080)) == fs;
    assert MergeInto(fs, ds) == Ok(fs);
    assert MergeAll(fs, frags) == Ok(fs);
    assert ExpandSpec(spec, Dict(ds), Dict([])) == Ok(fs);
    assert ExpandAll(specs[..0], Dict(ds), Dict([])) == Ok([]);
    assert specs[|specs| - 1] == Field("svc", spec);
    assert [] + [Field("svc", Dict(fs))] == specs;
    assert ExpandAll(specs, Dict(ds), Dict([])) == Ok([Field("svc", spec)]);
  }

  /** `conf.update(...)` with one fragment, key after key, in place. */
  method UpdateConf(conf: seq<Field>, frag: seq<Field>) returns (r: Result<seq<Field>>)
    ensures r == MergeInto(conf, frag)
  {
    var c := conf;
    var n := 0;
    while n < |frag|
      invariant 0 <= n <= |frag|
      invariant MergeInto(conf, frag[..n]) == Ok(c)
    {
      assert frag[..n + 1][..n] == frag[..n];
      var v := Merge(GetOr(c, frag[n].key, Null), frag[n].val);
      if v.Err? {
        MergeIntoStops(conf, frag, n + 1);
        return Err(v.error);
      }
      c := Put(c, frag[n].key, v.value);
      n := n + 1;
    }
    assert frag[..|frag|] == frag;
    return Ok(c);
  }

  /** The body of `readConfig`'s loop for one spec: pop `Alias`, then
      update the spec with `Defaults` and each alias in turn. */
  method ExpandConf(spec: Value, defaults: Value, alias: Value) returns (r: Result<seq<Field>>)
    ensures r == ExpandSpec(spec, defaults, alias)
  {
    if !spec.Dict? {
      return Err(TypeError);
    }
    var names := Iterate(GetOr(spec.fields, "Alias", List([])));
    if names.Err? {
      return Err(names.error);
    }
    var base := Remove(spec.fields, "Alias");
    var frags := Fragments(defaults, alias, names.value);
    if frags.Err? {
      return Err(frags.error);
    }
    var conf := base;
    var j := 0;
    while j < |frags.value|
      invariant 0 <= j <= |frags.value|
      invariant MergeAll(base, frags.value[..j]) == Ok(conf)
    {
      assert frags.value[..j + 1][..j] == frags.value[..j];
      var next := UpdateConf(conf, frags.value[j]);
      if next.Err? {
        MergeAllStops(base, frags.value, j + 1);
        return Err(next.error);
      }
      conf := next.value;
      j := j + 1;
    }
    assert frags.value[..|frags.value|] == frags.value;
    return Ok(conf);
  }

  /** `readConfig` on a loaded template: the parameters, then every spec
      expanded in place, in template order. */
  method ReadConfig(data: Value) returns (r: Result<Config>)
    ensures r == LoadConfig(data)
  {
    if !data.Dict? {
      return Err(TypeError);
    }
    var fields := data.fields;
    var p := GetOr(fields, "Parameters", Dict([]));
    var resources := Index(fields, "Resources");
    if resources.Err? {
      return Err(resources.error);
    }
    var specs := resources.value;
    if !p.Dict? || !specs.Dict? {
      return Err(TypeError);
    }
    var params := WithNames(ToMap(p.fields)["$data" := data], specs.fields);
    var out :- ExpandSpecs(specs.fields, GetOr(fields, "Defaults", Dict([])), GetOr(fields, "Alias", Dict([])));
    return Ok(Config(params, out));
  }

  /** `readConfig`'s loop: every spec expanded in turn, in template order. */
  method ExpandSpecs(specs: seq<Field>, defaults: Value, alias: Value) returns (r: Result<seq<Field>>)
    ensures r == ExpandAll(specs, defaults, alias)
  {
    var out: seq<Field> := [];
    var i := 0;
    while i < |specs|
      invariant 0 <= i <= |specs|
      invariant ExpandAll(specs[..i], defaults, alias) == Ok(out)
    {
      var conf := ExpandConf(specs[i].val, defaults, alias);
      if conf.Err? {
        ExpandAllFails(specs, defaults, alias, i, out);
        return Err(conf.error);
      }
      ExpandAllSnoc(specs, defaults, alias, i, out, conf.value);
      out := out + [Field(specs[i].key, Dict(conf.value))];
      i := i + 1;
    }
    assert specs[..|specs|] == specs;
    return Ok(out);
  }
}
