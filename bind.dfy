/** Binding resources (`Type[0] == '_bind'`): IAM-style memberships whose
    desired state is the cartesian product of the Tag lists, reconciled by
    diffing membership tuples into remove, add and update calls
    (gcputil.py, `prepareUnbind`, `_deleteBind`, `aslist`, `_updateBind`). */
module Bind {
  import opened Values
  import opened Command
  import opened Flags
  import opened Invoke

  /** Python `==` on documents: dictionaries compare without regard to key
      order, and `True == 1`, `False == 0`. */
  function PyEq(a: Value, b: Value): (r: bool)
    decreases a
    ensures a.Null? || a.Str? ==> (r <==> b == a)
    ensures r && (a.List? || a.Dict?) ==> (b.List? <==> a.List?) && (b.Dict? <==> a.Dict?)
  {
    match a
    case Null => b.Null?
    case Bool(x) => (b.Bool? && b.b == x) || (b.Num? && b.n == (if x then 1 else 0))
    case Num(n) => (b.Num? && b.n == n) || (b.Bool? && n == (if b.b then 1 else 0))
    case Str(s) => b.Str? && b.s == s
    case List(xs) => b.List? && |xs| == |b.items| && forall i :: 0 <= i < |xs| ==> PyEq(xs[i], b.items[i])
    case Dict(fs) =>
      b.Dict? && |fs| == |b.fields| &&
      forall i :: 0 <= i < |fs| ==> Lookup(b.fields, fs[i].key).Some? && PyEq(fs[i].val, Lookup(b.fields, fs[i].key).value)
  }

  /** A document as YAML or JSON loading produces it: no dictionary at any
      depth repeats a key. */
  predicate WellFormed(v: Value) {
    match v
    case List(xs) => forall i :: 0 <= i < |xs| ==> WellFormed(xs[i])
    case Dict(fs) => UniqueKeys(fs) && forall i :: 0 <= i < |fs| ==> WellFormed(fs[i].val)
    case _ => true
  }

  lemma UniqueLookup(fs: seq<Field>, i: int)
    requires UniqueKeys(fs) && 0 <= i < |fs|
    ensures Lookup(fs, fs[i].key) == Some(fs[i].val)
  {
    if i > 0 {
      assert fs[0].key != fs[i].key;
      assert fs[1..][i - 1] == fs[i];
      UniqueLookup(fs[1..], i - 1);
    }
  }

  /** Every well-formed document equals itself. */
  lemma {:induction false} PyEqReflexive(v: Value)
    requires WellFormed(v)
    ensures PyEq(v, v)
  {
    match v
    case List(xs) =>
      forall i | 0 <= i < |xs| ensures PyEq(xs[i], xs[i]) { PyEqReflexive(xs[i]); }
    case Dict(fs) =>
      forall i | 0 <= i < |fs| ensures Lookup(fs, fs[i].key).Some? && PyEq(fs[i].val, Lookup(fs, fs[i].key).value) {
        UniqueLookup(fs, i);
        PyEqReflexive(fs[i].val);
      }
    case _ =>
  }

  /** The dictionary order of keys does not matter to `==`: a well-formed
      dictionary equals any dictionary of the same size that looks up every
      key to the same value, whatever order it lists them in. */
  lemma PyEqIgnoresOrder(fs: seq<Field>, gs: seq<Field>)
    requires WellFormed(Dict(fs))
    requires |fs| == |gs|
    requires forall k :: Lookup(fs, k) == Lookup(gs, k)
    ensures PyEq(Dict(fs), Dict(gs))
  {
    forall i | 0 <= i < |fs| ensures Lookup(gs, fs[i].key).Some? && PyEq(fs[i].val, Lookup(gs, fs[i].key).value) {
      UniqueLookup(fs, i);
      assert Lookup(gs, fs[i].key) == Lookup(fs, fs[i].key);
      PyEqReflexive(fs[i].val);
    }
  }

  /** What `prepareUnbind` returns: the parent resource's command as a
      conf (Type without its first and last element, Parent without its
      ID), the verb `remove-<last Type element>`, and the parent's ID. */
  datatype Unbind = Unbind(conf: seq<Field>, mode: string, target: Value)

  function PrepareUnbind(conf: seq<Field>): (r: Result<Unbind>)
    ensures r.Ok? ==> Lookup(conf, "Type").Some? && Lookup(conf, "Type").value.List?
    ensures r.Ok? ==> var ts := Lookup(conf, "Type").value.items;
      && |ts| > 0 && ts[|ts| - 1].Str?
      && r.value.mode == "remove-" + ts[|ts| - 1].s
      && Lookup(r.value.conf, "Type") == Some(List(if |ts| >= 2 then ts[1..|ts| - 1] else []))
    ensures r.Ok? ==> Lookup(conf, "Parent").Some? && Lookup(conf, "Parent").value.Dict?
    ensures r.Ok? ==> var parent := Lookup(conf, "Parent").value.fields;
      && Lookup(parent, "ID") == Some(r.value.target)
      && Lookup(r.value.conf, "Parent") == Some(Dict(Remove(parent, "ID")))
    ensures r.Ok? ==> KeySet(r.value.conf) == {"Type", "Parent"}
  {
    var ctype :- Index(conf, "Type");
    var parent :- Index(conf, "Parent");
    if !ctype.List? || !parent.Dict? then Err(TypeError)
    else if ctype.items == [] then Err(IndexError)
    else
      var last := ctype.items[|ctype.items| - 1];
      if !last.Str? then Err(TypeError)
      else
        var id :- Index(parent.fields, "ID");
        var middle := if |ctype.items| >= 2 then ctype.items[1..|ctype.items| - 1] else [];
        var c := [Field("Type", List(middle)), Field("Parent", Dict(Remove(parent.fields, "ID")))];
        assert KeySet(c) == {"Type", "Parent"} by { KeySetCons(c); KeySetCons(c[1..]); }
        Ok(Unbind(c, "remove-" + last.s, id))
  }

  /** `s.split(c, 1)[1]` when `c` occurs in `s`: what follows its first occurrence. */
  function AfterFirst(s: string, c: char): string {
    if s == [] then [] else if s[0] == c then s[1..] else AfterFirst(s[1..], c)
  }

  /** `'add-' + mode.split('-', 1)[1]`. */
  function AddMode(mode: string): string {
    "add-" + AfterFirst(mode, '-')
  }

  /** `'update-' + mode[4:]`. */
  function UpdateMode(mode: string): string {
    "update-" + (if |mode| >= 4 then mode[4..] else [])
  }

  /** The remove, add and update verbs name the same group. */
  lemma ModesShareGroup(group: string)
    ensures AddMode("remove-" + group) == "add-" + group
    ensures UpdateMode(AddMode("remove-" + group)) == "update-" + group
  {
    assert "remove-" + group == "remove" + ['-'] + group;
    AfterFirstSkips("remove", '-', group);
    assert ("add-" + group)[4..] == group;
  }

  lemma {:induction false} AfterFirstSkips(p: string, c: char, rest: string)
    requires c !in p
    ensures AfterFirst(p + [c] + rest, c) == rest
  {
    if p != [] {
      assert (p + [c] + rest)[1..] == p[1..] + [c] + rest;
      assert c !in p[1..] by { assert forall i :: 0 <= i < |p[1..]| ==> p[1..][i] == p[i + 1]; }
      AfterFirstSkips(p[1..], c, rest);
    } else {
      assert (p + [c] + rest)[1..] == rest;
    }
  }

  /** `x if type(x) is list else [x]`. */
  function ListOf(x: Value): (r: seq<Value>)
    ensures x.List? ==> r == x.items
    ensures !x.List? ==> r == [x]
  {
    if x.List? then x.items else [x]
  }

  function ListsOf(fs: seq<Field>, keys: seq<string>): (r: Result<seq<seq<Value>>>)
    ensures r.Ok? <==> forall i :: 0 <= i < |keys| ==> keys[i] in KeySet(fs)
    ensures r.Ok? ==> |r.value| == |keys|
    ensures r.Ok? ==> forall i :: 0 <= i < |keys| ==> r.value[i] == ListOf(Lookup(fs, keys[i]).value)
  {
    if keys == [] then Ok([])
    else
      assert forall i :: 1 <= i < |keys| ==> keys[i] == keys[1..][i - 1];
      var x :- Index(fs, keys[0]);
      var rest :- ListsOf(fs, keys[1..]);
      Ok([ListOf(x)] + rest)
  }

  /** `aslist(el, keys)`: the loop runs over `el and keys`, so it yields
      nothing when `el` is falsy (after iterating it, which fails on `None`)
      or when there are no keys, and otherwise each `el[k]` as a list;
      only a dictionary can be indexed by a string. */
  function AsList(el: Value, keys: seq<string>): (r: Result<seq<seq<Value>>>)
    ensures !Truthy(el) ==> (r.Ok? <==> Iterate(el).Ok?)
    ensures !Truthy(el) && r.Ok? ==> r.value == []
    ensures Truthy(el) && keys == [] ==> r == Ok([])
    ensures Truthy(el) && el.Dict? ==> r == ListsOf(el.fields, keys)
    ensures Truthy(el) && keys != [] && !el.Dict? ==> r.Err?
  {
    if !Truthy(el) then (if Iterate(el).Err? then Err(TypeError) else Ok([]))
    else if keys == [] then Ok([])
    else if !el.Dict? then Err(TypeError)
    else ListsOf(el.fields, keys)
  }

  function Prepend(x: Value, ts: seq<seq<Value>>): (r: seq<seq<Value>>)
    ensures |r| == |ts| && forall i :: 0 <= i < |ts| ==> r[i] == [x] + ts[i]
  {
    if ts == [] then [] else [[x] + ts[0]] + Prepend(x, ts[1..])
  }

  function ProductWith(first: seq<Value>, rest: seq<seq<Value>>): seq<seq<Value>> {
    if first == [] then [] else Prepend(first[0], rest) + ProductWith(first[1..], rest)
  }

  /** `itertools.product(*lists)`, in its order: no lists give one empty tuple. */
  function Product(lists: seq<seq<Value>>): seq<seq<Value>> {
    if lists == [] then [[]] else ProductWith(lists[0], Product(lists[1..]))
  }

  /** A tuple of `ProductWith(first, rest)` is an element of `first` in front
      of a tuple of `rest`. */
  lemma {:induction false} ProductWithMember(first: seq<Value>, rest: seq<seq<Value>>, t: seq<Value>)
    ensures t in ProductWith(first, rest) <==> |t| > 0 && t[0] in first && t[1..] in rest
  {
    if first != [] {
      ProductWithMember(first[1..], rest, t);
      var p := Prepend(first[0], rest);
      if t in p {
        var i :| 0 <= i < |p| && p[i] == t;
        assert t[1..] == rest[i];
      }
      if |t| > 0 && t[0] == first[0] && t[1..] in rest {
        var i :| 0 <= i < |rest| && rest[i] == t[1..];
        assert p[i] == [t[0]] + t[1..] == t;
      }
      if |t| > 0 && t[0] in first && t[0] != first[0] {
        assert t[0] in first[1..];
      }
    }
  }

  /** A tuple of the product picks, at every position, an element of that
      position's list, and every such choice is in the product. */
  lemma {:induction false} ProductMember(lists: seq<seq<Value>>, t: seq<Value>)
    ensures t in Product(lists) <==> |t| == |lists| && forall i :: 0 <= i < |t| ==> t[i] in lists[i]
  {
    if lists == [] {
    } else {
      ProductWithMember(lists[0], Product(lists[1..]), t);
      if |t| > 0 {
        ProductMember(lists[1..], t[1..]);
        if |t| == |lists| && forall i :: 0 <= i < |t| ==> t[i] in lists[i] {
          assert forall i :: 0 <= i < |t[1..]| ==> t[1..][i] in lists[1..][i] by {
            forall i | 0 <= i < |t[1..]| ensures t[1..][i] in lists[1..][i] { assert t[1..][i] == t[i + 1]; }
          }
        }
        if t in Product(lists) {
          forall i | 0 <= i < |t| ensures t[i] in lists[i] {
            if i > 0 { assert t[i] == t[1..][i - 1]; }
          }
        }
      }
    }
  }

  /** `set(product(*aslist(el, keys))) - {()}`: the membership tuples of a
      Tag section. Building the set hashes every element. */
  function Tuples(el: Value, keys: seq<string>): (r: Result<set<seq<Value>>>)
    ensures r.Ok? ==> AsList(el, keys).Ok?
    ensures r.Ok? ==> forall t :: t in r.value <==> t in Product(AsList(el, keys).value) && t != []
  {
    var lists :- AsList(el, keys);
    var p := Product(lists);
    if exists t, j :: t in p && 0 <= j < |t| && !Hashable(t[j]) then Err(TypeError)
    else Ok((set t | t in p) - {[]})
  }

  /** A falsy iterable Tag, or no keys at all, gives no tuples: `()` is
      dropped. */
  lemma EmptyTagNoTuples(el: Value, keys: seq<string>)
    requires (!Truthy(el) && Iterate(el).Ok?) || (Truthy(el) && keys == [])
    ensures Tuples(el, keys) == Ok({})
  {
    assert AsList(el, keys) == Ok([]);
    var p := Product([]);
    assert p == [[]];
    assert forall t :: t in p ==> t == [];
    assert (set t | t in p) - {[]} == {};
  }

  /** With a non-empty Tag dictionary, a tuple is a membership exactly when
      it picks one value from every key's list. */
  lemma TuplesMember(el: Value, keys: seq<string>, t: seq<Value>)
    requires Tuples(el, keys).Ok? && el.Dict? && el.fields != [] && keys != []
    ensures t in Tuples(el, keys).value <==>
      |t| == |keys| && forall i :: 0 <= i < |t| ==> t[i] in ListOf(Lookup(el.fields, keys[i]).value)
  {
    ProductMember(AsList(el, keys).value, t);
  }

  /** `map(flag, keys, xs)`: one flag per key with the tuple's value. */
  function KeyFlags(keys: seq<string>, xs: seq<Value>): (r: seq<string>)
    ensures |r| == if |keys| < |xs| then |keys| else |xs|
    ensures forall i :: 0 <= i < |r| ==> r[i] == FlagValue(keys[i], xs[i], '-')
  {
    if keys == [] || xs == [] then [] else [FlagValue(keys[0], xs[0], '-')] + KeyFlags(keys[1..], xs[1..])
  }

  function Singletons(opt: set<string>): (r: set<seq<string>>)
    ensures forall o :: o in opt <==> [o] in r
  {
    set o | o in opt :: [o]
  }

  /** `list(conf['Tag'])`: the keys of a Tag dictionary, the characters of
      a string, the elements of a list; nothing for an empty one. */
  function TagKeys(tag: Value): (r: Result<seq<string>>)
    ensures r.Ok? <==> Iterate(tag).Ok? && forall i :: 0 <= i < |Iterate(tag).value| ==> Iterate(tag).value[i].Str?
    ensures r.Ok? ==> |r.value| == |Iterate(tag).value|
    ensures r.Ok? ==> forall i :: 0 <= i < |r.value| ==> Iterate(tag).value[i] == Str(r.value[i])
    ensures tag.Dict? ==> r == Ok(KeysOf(tag.fields))
    ensures !Truthy(tag) && Iterate(tag).Ok? ==> r == Ok([])
  {
    var xs :- Iterate(tag);
    if forall i :: 0 <= i < |xs| ==> xs[i].Str? then
      var ks := seq(|xs|, i requires 0 <= i < |xs| => xs[i].s);
      assert tag.Dict? ==> ks == KeysOf(tag.fields);
      Ok(ks)
    else Err(TypeError)
  }

  /** What `_updateBind` will do, before it calls anything. */
  datatype BindPlan = BindPlan(
    unbind: Unbind,                // the parent command, as `prepareUnbind` gives it
    keys: seq<string>,             // the Tag keys, in order
    opt: set<string>,              // the Update flags, as a set
    removes: set<seq<Value>>,      // memberships to remove
    adds: set<seq<Value>>,         // memberships to add
    updates: set<seq<Value>>)      // memberships to update

  /** The plan of `_updateBind(conf, cache)`: remove the cached tuples no
      longer wanted, add the wanted tuples not cached, and update the common
      ones only when the Update section changed. */
  function PlanBind(conf: seq<Field>, cache: seq<Field>): (r: Result<BindPlan>)
    ensures r.Ok? ==> Lookup(conf, "Tag").Some? && TagKeys(Lookup(conf, "Tag").value).Ok?
    ensures r.Ok? ==> var tag := Lookup(conf, "Tag").value;
      && r.value.keys == TagKeys(tag).value
      && Tuples(tag, r.value.keys).Ok? && Tuples(GetOr(cache, "Tag", Dict([])), r.value.keys).Ok?
      && PrepareUnbind(conf) == Ok(r.value.unbind)
    ensures r.Ok? ==> var vals := Tuples(Lookup(conf, "Tag").value, r.value.keys).value;
      var oldvals := Tuples(GetOr(cache, "Tag", Dict([])), r.value.keys).value;
      && (forall t :: t in r.value.removes <==> t in oldvals && t !in vals)
      && (forall t :: t in r.value.adds <==> t in vals && t !in oldvals)
      && (forall t :: t in r.value.updates <==>
            t in vals && t in oldvals && !PyEq(GetOr(conf, "Update", Null), GetOr(cache, "Update", Null)))
  {
    var tag :- Index(conf, "Tag");
    var keys :- TagKeys(tag);
    var opt :- FlagGroup(conf, ["Update"]);
    var vals :- Tuples(tag, keys);
    var oldvals :- Tuples(GetOr(cache, "Tag", Dict([])), keys);
    var unbind :- PrepareUnbind(conf);
    var same := vals * oldvals;
    var updates := if PyEq(GetOr(conf, "Update", Null), GetOr(cache, "Update", Null)) then {} else same;
    Ok(BindPlan(unbind, keys, (set o | o in opt), oldvals - same, vals - same, updates))
  }

  /** After the removes and the adds, the memberships are exactly the wanted
      ones; no tuple is both removed and added, and only kept tuples are
      updated. */
  lemma PlanBindReachesTag(conf: seq<Field>, cache: seq<Field>)
    requires PlanBind(conf, cache).Ok?
    ensures var p := PlanBind(conf, cache).value;
      var vals := Tuples(Lookup(conf, "Tag").value, p.keys).value;
      var oldvals := Tuples(GetOr(cache, "Tag", Dict([])), p.keys).value;
      && (oldvals - p.removes) + p.adds == vals
      && p.removes * p.adds == {}
      && p.updates <= oldvals - p.removes
  {
  }

  /** An empty Tag (`[]`, `''` or `{}`) has no keys and plans no call at
      all, whatever the cache holds. */
  lemma PlanBindEmptyTag(conf: seq<Field>, cache: seq<Field>)
    requires PlanBind(conf, cache).Ok?
    requires !Truthy(Lookup(conf, "Tag").value)
    ensures PlanBind(conf, cache).value.keys == []
    ensures PlanBind(conf, cache).value.removes == {}
    ensures PlanBind(conf, cache).value.adds == {}
    ensures PlanBind(conf, cache).value.updates == {}
  {
    var tag := Lookup(conf, "Tag").value;
    EmptyTagNoTuples(tag, []);
    EmptyTagNoTuples(GetOr(cache, "Tag", Dict([])), []);
  }

  /** Reconciling a binding against a cache holding the same Tag and Update
      calls nothing. */
  lemma PlanBindIdempotent(conf: seq<Field>, cache: seq<Field>)
    requires PlanBind(conf, cache).Ok?
    requires Lookup(cache, "Tag") == Lookup(conf, "Tag")
    requires Lookup(cache, "Update") == Lookup(conf, "Update")
    requires WellFormed(GetOr(conf, "Update", Null))
    ensures PlanBind(conf, cache).value.removes == {}
    ensures PlanBind(conf, cache).value.adds == {}
    ensures PlanBind(conf, cache).value.updates == {}
  {
    PyEqReflexive(GetOr(conf, "Update", Null));
  }

  /** The remove call for one cached tuple: the Tag flags only. */
  function RemoveRequest(p: BindPlan, xs: seq<Value>): Result<Request> {
    GcloudRequest(p.unbind.conf, p.unbind.mode, p.unbind.target, Words(KeyFlags(p.keys, xs)))
  }

  /** The add call for one new tuple: the Update flags, then the Tag flags. */
  function AddRequest(p: BindPlan, xs: seq<Value>): Result<Request> {
    GcloudRequest(p.unbind.conf, AddMode(p.unbind.mode), p.unbind.target,
      [Shuffled(Singletons(p.opt))] + Words(KeyFlags(p.keys, xs)))
  }

  /** The update call for one kept tuple. */
  function UpdateRequest(p: BindPlan, xs: seq<Value>): Result<Request> {
    GcloudRequest(p.unbind.conf, UpdateMode(AddMode(p.unbind.mode)), p.unbind.target,
      [Shuffled(Singletons(p.opt))] + Words(KeyFlags(p.keys, xs)))
  }

  /** The verbs of the three calls. */
  lemma BindRequestModes(p: BindPlan, xs: seq<Value>, group: string)
    requires p.unbind.mode == "remove-" + group
    requires Types(p.unbind.conf).Ok?
    ensures var n := |Types(p.unbind.conf).value|;
      && (RemoveRequest(p, xs).Ok? ==> RemoveRequest(p, xs).value.args[n] == Word("remove-" + group))
      && (AddRequest(p, xs).Ok? ==> AddRequest(p, xs).value.args[n] == Word("add-" + group))
      && (UpdateRequest(p, xs).Ok? ==> UpdateRequest(p, xs).value.args[n] == Word("update-" + group))
  {
    ModesShareGroup(group);
  }

  function RequestsFor(u: Unbind, opt: set<string>, keys: seq<string>, tuples: seq<seq<Value>>): (r: Result<seq<Request>>)
    ensures r.Ok? ==> |r.value| == |tuples|
    ensures r.Ok? ==> forall i :: 0 <= i < |tuples| ==>
      GcloudRequest(u.conf, u.mode, u.target, [Shuffled(Singletons(opt))] + Words(KeyFlags(keys, tuples[i]))) == Ok(r.value[i])
  {
    if tuples == [] then Ok([])
    else
      var req :- GcloudRequest(u.conf, u.mode, u.target, [Shuffled(Singletons(opt))] + Words(KeyFlags(keys, tuples[0])));
      var rest :- RequestsFor(u, opt, keys, tuples[1..]);
      Ok([req] + rest)
  }

  /** `_deleteBind(conf)`: one remove call per tuple of the product of the
      list-valued Tag entries, each carrying the flags of the scalar ones. */
  function DeleteBindRequests(conf: seq<Field>): (r: Result<seq<Request>>)
    ensures r.Ok? ==> Lookup(conf, "Tag").Some? && Lookup(conf, "Tag").value.Dict?
    ensures r.Ok? ==> var tags := Lookup(conf, "Tag").value.fields;
      (forall i :: 0 <= i < |tags| ==> !tags[i].val.List?) ==> |r.value| == 1
  {
    var tagv :- Index(conf, "Tag");
    if !tagv.Dict? then Err(TypeError)
    else
      var tags := tagv.fields;
      var u :- PrepareUnbind(conf);
      var listKeys := ListKeys(tags);
      var opt := set k | k in KeySet(tags) - (set k | k in listKeys) :: FlagValue(k, Lookup(tags, k).value, '-');
      var lists := seq(|listKeys|, i requires 0 <= i < |listKeys| =>
        var v := GetOr(tags, listKeys[i], Null); if v.List? then v.items else []);
      RequestsFor(u, opt, listKeys, Product(lists))
  }

  /** Every call of `_deleteBind` is a gcloud call whose verb is the
      `remove-…` mode of `prepareUnbind`. */
  lemma DeleteBindVerbs(conf: seq<Field>)
    requires DeleteBindRequests(conf).Ok?
    ensures PrepareUnbind(conf).Ok?
    ensures var r := DeleteBindRequests(conf).value; var u := PrepareUnbind(conf).value;
      forall i :: 0 <= i < |r| ==>
        && r[i].tool == Gcloud && Types(u.conf).Ok? && |r[i].args| > |Types(u.conf).value|
        && r[i].args[|Types(u.conf).value|] == Word(u.mode)
  {
  }

  /** `[k for k, v in tags.items() if type(v) is list]`. */
  function ListKeys(tags: seq<Field>): (r: seq<string>)
    ensures forall k :: k in r ==> exists i :: 0 <= i < |tags| && tags[i].key == k && tags[i].val.List?
    ensures forall i :: 0 <= i < |tags| && tags[i].val.List? ==> tags[i].key in r
    ensures (forall i :: 0 <= i < |tags| ==> !tags[i].val.List?) ==> r == []
  {
    if tags == [] then []
    else
      var rest := ListKeys(tags[1..]);
      assert forall k :: k in rest ==> exists i :: 0 <= i < |tags| && tags[i].key == k && tags[i].val.List? by {
        forall k | k in rest ensures exists i :: 0 <= i < |tags| && tags[i].key == k && tags[i].val.List? {
          var i :| 0 <= i < |tags[1..]| && tags[1..][i].key == k && tags[1..][i].val.List?;
          assert tags[i + 1] == tags[1..][i];
        }
      }
      (if tags[0].val.List? then [tags[0].key] else []) + rest
  }
}
