/** Building command-line options from a resource spec: CamelCase keys as
    dashed flags, and the label and tag differences between the desired spec
    and the cached one (gcputil.py, `flag` to `tagValue`). */
module Flags {
  import opened Values
  import opened Command

  /** `str.isupper()` and `str.lower()` on one character, for ASCII letters. */
  predicate IsUpper(c: char) { 'A' <= c <= 'Z' }

  function Lower(c: char): char {
    if IsUpper(c) then (c as int + 32) as char else c
  }

  function Upper(c: char): char {
    if 'a' <= c <= 'z' then (c as int - 32) as char else c
  }

  /** The body of a flag: every capital letter becomes `sep` followed by the
      lower-case letter; every other character stays. */
  function Dashed(key: string, sep: char): (r: string)
    ensures !IsUpper(sep) ==> forall i :: 0 <= i < |r| ==> !IsUpper(r[i])
  {
    if key == [] then []
    else (if IsUpper(key[0]) then [sep, Lower(key[0])] else [key[0]]) + Dashed(key[1..], sep)
  }

  /** `flag(key, value, sep)`: `'-' + Dashed(key)`, then `=value` when a value is given. */
  function Flag(key: string, value: Option<string>, sep: char): (r: string)
    ensures r != [] && r[0] == '-'
    ensures value.None? ==> r == "-" + Dashed(key, sep)
    ensures value.Some? ==> r == "-" + Dashed(key, sep) + "=" + value.value
  {
    var s := "-" + Dashed(key, sep);
    if value.None? then s else s + "=" + value.value
  }

  /** `flag(k, v, sep)` for a value taken from a document: a YAML null is
      Python's `None`, which gives the bare flag. */
  function FlagValue(key: string, v: Value, sep: char): (r: string)
    ensures v.Null? ==> r == Flag(key, None, sep)
    ensures !v.Null? ==> r == Flag(key, Some(Show(v)), sep)
  {
    Flag(key, if v.Null? then None else Some(Show(v)), sep)
  }

  /** Reads a dashed flag body back into CamelCase. */
  function Camel(d: string, sep: char): string {
    if d == [] then []
    else if d[0] == sep && |d| >= 2 then [Upper(d[1])] + Camel(d[2..], sep)
    else [d[0]] + Camel(d[1..], sep)
  }

  /** `flag` loses nothing: a key without the separator character is
      recovered from its flag. */
  lemma {:induction false} CamelDashed(key: string, sep: char)
    requires sep !in key
    ensures Camel(Dashed(key, sep), sep) == key
  {
    if key != [] {
      assert sep !in key[1..] by { assert forall i :: 0 <= i < |key[1..]| ==> key[1..][i] == key[i + 1]; }
      CamelDashed(key[1..], sep);
      var d := Dashed(key, sep);
      if IsUpper(key[0]) {
        assert d[2..] == Dashed(key[1..], sep);
      } else {
        assert key[0] != sep;
        assert d[1..] == Dashed(key[1..], sep);
      }
      assert key == [key[0]] + key[1..];
    }
  }

  /** Two keys without the separator give the same flag only if they are equal. */
  lemma FlagInjective(k1: string, k2: string, v1: Option<string>, v2: Option<string>, sep: char)
    requires sep !in k1 && sep !in k2
    requires v1.None? && v2.None?
    requires Flag(k1, v1, sep) == Flag(k2, v2, sep)
    ensures k1 == k2
  {
    assert Dashed(k1, sep) == Flag(k1, v1, sep)[1..];
    assert Dashed(k2, sep) == Flag(k2, v2, sep)[1..];
    CamelDashed(k1, sep);
    CamelDashed(k2, sep);
  }

  /** The flags `flag(k, v)` of every field of one dictionary, in order. */
  function FieldFlags(fs: seq<Field>): (r: seq<string>)
    ensures |r| == |fs|
    ensures forall i :: 0 <= i < |fs| ==> r[i] == FlagValue(fs[i].key, fs[i].val, '-')
  {
    if fs == [] then [] else [FlagValue(fs[0].key, fs[0].val, '-')] + FieldFlags(fs[1..])
  }

  /** `flagGroup(el, *keys)`: one flag per field of each named section, the
      sections in the order given. A section that is present but not a
      dictionary has no `.items()`. */
  function FlagGroup(el: seq<Field>, keys: seq<string>): (r: Result<seq<string>>)
    ensures r.Ok? <==> forall i :: 0 <= i < |keys| ==> Section(el, keys[i]).Ok?
  {
    if keys == [] then Ok([])
    else
      assert forall i :: 1 <= i < |keys| ==> keys[i] == keys[1..][i - 1];
      var fs :- Section(el, keys[0]);
      var rest :- FlagGroup(el, keys[1..]);
      Ok(FieldFlags(fs) + rest)
  }

  /** `flagGroup` emits exactly the flags of the fields of the named sections. */
  lemma {:induction false} FlagGroupMembers(el: seq<Field>, keys: seq<string>, x: string)
    requires FlagGroup(el, keys).Ok?
    ensures x in FlagGroup(el, keys).value <==>
      exists k, f :: k in keys && f in Section(el, k).value && x == FlagValue(f.key, f.val, '-')
  {
    if keys != [] {
      var fs := Section(el, keys[0]).value;
      var rest := FlagGroup(el, keys[1..]).value;
      FlagGroupMembers(el, keys[1..], x);
      assert FlagGroup(el, keys).value == FieldFlags(fs) + rest;
      if x in FieldFlags(fs) {
        var j :| 0 <= j < |fs| && FieldFlags(fs)[j] == x;
        assert keys[0] in keys && fs[j] in fs;
      }
      if x in rest {
        var k, f :| k in keys[1..] && f in Section(el, k).value && x == FlagValue(f.key, f.val, '-');
        assert k in keys;
      }
      if exists k, f :: k in keys && f in Section(el, k).value && x == FlagValue(f.key, f.val, '-') {
        var k, f :| k in keys && f in Section(el, k).value && x == FlagValue(f.key, f.val, '-');
        if k == keys[0] {
          var j :| 0 <= j < |fs| && fs[j] == f;
          assert FieldFlags(fs)[j] == x;
        } else {
          assert k in keys[1..];
        }
      }
    }
  }

  /** The options whose absence the update verb must state with a clear flag. */
  const ClearOpt: set<string> := {"BuildWorkerPool", "MaxInstances", "MinInstances", "VpcConnector"}

  /** `set(x.get('Update', []))`: the option names of an Update section. */
  function UpdateKeys(x: seq<Field>): (r: Result<set<Value>>)
    ensures Lookup(x, "Update").None? ==> r == Ok({})
    ensures Lookup(x, "Update").Some? && Lookup(x, "Update").value.Dict? ==>
      r.Ok? && forall k :: Str(k) in r.value <==> k in KeySet(Lookup(x, "Update").value.fields)
  {
    var items :- Iterate(GetOr(x, "Update", List([])));
    var r := set i | 0 <= i < |items| :: items[i];
    assert items == [] ==> r == {};
    assert Lookup(x, "Update").Some? && Lookup(x, "Update").value.Dict? ==>
      forall k :: Str(k) in r <==> k in KeySet(Lookup(x, "Update").value.fields) by {
      if Lookup(x, "Update").Some? && Lookup(x, "Update").value.Dict? {
        var fs := Lookup(x, "Update").value.fields;
        forall k ensures Str(k) in r <==> k in KeySet(fs) {
          if Str(k) in r {
            var i :| 0 <= i < |items| && items[i] == Str(k);
            assert fs[i].key == k;
          }
          if k in KeySet(fs) {
            var i :| 0 <= i < |fs| && fs[i].key == k;
            assert items[i] == Str(k);
          }
        }
      }
    }
    Ok(r)
  }

  /** The clear flags owed: one for every option of `ClearOpt` that the
      cached Update section has and the new one lacks. */
  function ClearGroups(keys: set<Value>, oldkeys: set<Value>): (r: set<seq<string>>)
    ensures forall g :: g in r ==> exists n :: n in ClearOpt && g == [Flag("Clear" + n, None, '-')]
  {
    set n | n in ClearOpt && Str(n) in oldkeys && Str(n) !in keys :: [Flag("Clear" + n, None, '-')]
  }

  lemma ClearFlagInjective(m: string, n: string)
    requires m in ClearOpt && n in ClearOpt
    requires Flag("Clear" + m, None, '-') == Flag("Clear" + n, None, '-')
    ensures m == n
  {
    assert forall c :: c in ClearOpt ==> '-' !in c;
    assert '-' !in "Clear" + m && '-' !in "Clear" + n;
    FlagInjective("Clear" + m, "Clear" + n, None, None, '-');
    assert m == ("Clear" + m)[5..] && n == ("Clear" + n)[5..];
  }

  /** The clear flag of an option of `ClearOpt` is owed exactly when the
      option was in the cached Update section and is gone from the new one. */
  lemma ClearGroupsExact(keys: set<Value>, oldkeys: set<Value>, n: string)
    requires n in ClearOpt
    ensures [Flag("Clear" + n, None, '-')] in ClearGroups(keys, oldkeys) <==> Str(n) in oldkeys && Str(n) !in keys
  {
    if [Flag("Clear" + n, None, '-')] in ClearGroups(keys, oldkeys) {
      var m :| m in ClearOpt && Str(m) in oldkeys && Str(m) !in keys && [Flag("Clear" + m, None, '-')] == [Flag("Clear" + n, None, '-')];
      ClearFlagInjective(m, n);
    }
  }

  /** `flagOption(conf, cache)`: the clear flags owed since the cached spec,
      in some order, then the bare flag of every name listed under Flag, in
      order. */
  function FlagOption(conf: seq<Field>, cache: seq<Field>): (r: Result<seq<Token>>)
    ensures r.Ok? ==> UpdateKeys(conf).Ok? && UpdateKeys(cache).Ok?
    ensures r.Ok? ==> |r.value| >= 1 && r.value[0] == Shuffled(ClearGroups(UpdateKeys(conf).value, UpdateKeys(cache).value))
    ensures r.Ok? ==> var names := Iterate(GetOr(conf, "Flag", List([])));
      && names.Ok? && AsStrings(names.value).Ok? && |r.value| == 1 + |names.value|
      && forall i :: 0 <= i < |names.value| ==> r.value[i + 1] == Word(Flag(AsStrings(names.value).value[i], None, '-'))
  {
    var keys :- UpdateKeys(conf);
    var oldkeys :- UpdateKeys(cache);
    var names :- Iterate(GetOr(conf, "Flag", List([])));
    var flags :- AsStrings(names);
    Ok([Shuffled(ClearGroups(keys, oldkeys))] + Words(seq(|flags|, i requires 0 <= i < |flags| => Flag(flags[i], None, '-'))))
  }

  /** The `(key, value)` pairs of a dictionary: `set(d.items())`. */
  function Pairs(fs: seq<Field>): set<(string, Value)> {
    set i | 0 <= i < |fs| :: (fs[i].key, fs[i].val)
  }

  lemma {:induction false} PairsLookup(fs: seq<Field>, k: string, v: Value)
    requires UniqueKeys(fs)
    ensures (k, v) in Pairs(fs) <==> Lookup(fs, k) == Some(v)
  {
    if fs != [] {
      KeySetCons(fs);
      assert UniqueKeys(fs[1..]) by {
        forall i, j | 0 <= i < j < |fs[1..]| ensures fs[1..][i].key != fs[1..][j].key {
          assert fs[1..][i] == fs[i + 1] && fs[1..][j] == fs[j + 1];
        }
      }
      PairsLookup(fs[1..], k, v);
      if (k, v) in Pairs(fs) {
        var i :| 0 <= i < |fs| && (fs[i].key, fs[i].val) == (k, v);
        if i > 0 {
          assert (k, v) == (fs[1..][i - 1].key, fs[1..][i - 1].val);
          assert (k, v) in Pairs(fs[1..]);
        }
      }
      if Lookup(fs, k) == Some(v) {
        if fs[0].key == k {
          assert (fs[0].key, fs[0].val) in Pairs(fs);
        } else {
          assert (k, v) in Pairs(fs[1..]);
          var i :| 0 <= i < |fs[1..]| && (fs[1..][i].key, fs[1..][i].val) == (k, v);
          assert (fs[i + 1].key, fs[i + 1].val) == (k, v);
        }
      }
    }
  }

  /** `set(oldlabels) - set(labels)`: the label keys to remove. */
  function LabelRemovals(labels: seq<Field>, oldlabels: seq<Field>): (r: set<string>)
    ensures forall k :: k in r <==> Lookup(oldlabels, k).Some? && Lookup(labels, k).None?
  {
    KeySet(oldlabels) - KeySet(labels)
  }

  /** `set(labels.items()) - set(oldlabels.items())`: the label pairs that
      are new or have a new value. */
  function LabelChanges(labels: seq<Field>, oldlabels: seq<Field>): (r: set<(string, Value)>)
    ensures UniqueKeys(labels) && UniqueKeys(oldlabels) ==>
      forall k, v :: (k, v) in r <==> Lookup(labels, k) == Some(v) && Lookup(oldlabels, k) != Some(v)
  {
    var r := Pairs(labels) - Pairs(oldlabels);
    if UniqueKeys(labels) && UniqueKeys(oldlabels) then
      PairsLookupAll(labels);
      PairsLookupAll(oldlabels);
      r
    else r
  }

  lemma PairsLookupAll(fs: seq<Field>)
    requires UniqueKeys(fs)
    ensures forall k, v :: (k, v) in Pairs(fs) <==> Lookup(fs, k) == Some(v)
  {
    forall k, v ensures (k, v) in Pairs(fs) <==> Lookup(fs, k) == Some(v) {
      PairsLookup(fs, k, v);
    }
  }

  /** A label kept with the same value is neither removed nor set again. */
  lemma UnchangedLabelNotEmitted(labels: seq<Field>, oldlabels: seq<Field>, k: string)
    requires UniqueKeys(labels) && UniqueKeys(oldlabels)
    requires Lookup(labels, k).Some? && Lookup(labels, k) == Lookup(oldlabels, k)
    ensures k !in LabelRemovals(labels, oldlabels)
    ensures forall v :: (k, v) !in LabelChanges(labels, oldlabels)
  {
  }

  /** An illustration of the two label lemmas above on one concrete pair:
      with a cached `{a: 1, b: 2}` and a desired `{b: 2, c: 3}`, only `a` is
      removed and only `c=3` is set. */
  lemma LabelDiffExample()
    ensures LabelRemovals([Field("b", Num(2)), Field("c", Num(3))], [Field("a", Num(1)), Field("b", Num(2))]) == {"a"}
    ensures LabelChanges([Field("b", Num(2)), Field("c", Num(3))], [Field("a", Num(1)), Field("b", Num(2))]) == {("c", Num(3))}
  {
    var labels := [Field("b", Num(2)), Field("c", Num(3))];
    var oldlabels := [Field("a", Num(1)), Field("b", Num(2))];
    assert KeySet(labels) == {"b", "c"} by { KeySetCons(labels); KeySetCons(labels[1..]); }
    assert KeySet(oldlabels) == {"a", "b"} by { KeySetCons(oldlabels); KeySetCons(oldlabels[1..]); }
    assert Pairs(labels) == {("b", Num(2)), ("c", Num(3))};
    assert Pairs(oldlabels) == {("a", Num(1)), ("b", Num(2))};
  }

  /** The `k=v` item of a label or tag entry. */
  function Item(k: string, v: Value): string {
    k + "=" + Show(v)
  }

  function Items(fs: seq<Field>): (r: seq<string>)
    ensures |r| == |fs| && forall i :: 0 <= i < |fs| ==> r[i] == Item(fs[i].key, fs[i].val)
  {
    if fs == [] then [] else [Item(fs[0].key, fs[0].val)] + Items(fs[1..])
  }

  /** The non-Labels tag sections: every one must be a dictionary. */
  predicate TagSectionsAreDicts(tags: seq<Field>) {
    forall x :: x in KeySet(tags) - {"Labels"} ==> Lookup(tags, x).value.Dict?
  }

  /** `tagValue(conf, cache, create)` for gcloud. */
  function TagValue(conf: seq<Field>, cache: seq<Field>, create: bool): (r: Result<seq<Token>>)
    ensures r.Ok? <==> && Section(conf, "Tag").Ok? && Section(cache, "Tag").Ok?
                       && Section(Section(conf, "Tag").value, "Labels").Ok?
                       && Section(Section(cache, "Tag").value, "Labels").Ok?
                       && TagSectionsAreDicts(Section(conf, "Tag").value)
  {
    var tags :- Section(conf, "Tag");
    var oldtags :- Section(cache, "Tag");
    var labels :- Section(tags, "Labels");
    var oldlabels :- Section(oldtags, "Labels");
    if !TagSectionsAreDicts(tags) then Err(TypeError)
    else
      var removed := LabelRemovals(labels, oldlabels);
      var changed := LabelChanges(labels, oldlabels);
      Ok((if removed != {} then [Joined("--remove-labels=", removed)] else [])
         + (if changed != {} then [Word(if create then "--labels" else "--update-labels"),
                                   Joined("", set p | p in changed :: Item(p.0, p.1))] else [])
         + [Shuffled(TagClears(tags, oldtags)), Shuffled(TagSets(tags))])
  }

  /** `flag(f"Clear{x}")` for each tag section other than Labels that only
      the cache has, and nothing else. */
  function TagClears(tags: seq<Field>, oldtags: seq<Field>): (r: set<seq<string>>)
    ensures forall x :: x in KeySet(oldtags) && x !in KeySet(tags) && x != "Labels" ==> [Flag("Clear" + x, None, '-')] in r
    ensures forall g :: g in r ==>
      exists x :: x in KeySet(oldtags) && x !in KeySet(tags) && x != "Labels" && g == [Flag("Clear" + x, None, '-')]
  {
    set x | x in KeySet(oldtags) - {"Labels"} - (KeySet(tags) - {"Labels"}) :: [Flag("Clear" + x, None, '-')]
  }

  /** `flag(f"Set{x}")` and the `k=v` items for each tag section other than
      Labels that the spec has, and nothing else. */
  function TagSets(tags: seq<Field>): (r: set<seq<string>>)
    requires TagSectionsAreDicts(tags)
    ensures forall x :: x in KeySet(tags) && x != "Labels" ==>
      [Flag("Set" + x, None, '-'), Join(Items(Lookup(tags, x).value.fields), ",")] in r
    ensures forall g :: g in r ==>
      exists x :: x in KeySet(tags) && x != "Labels" && g == [Flag("Set" + x, None, '-'), Join(Items(Lookup(tags, x).value.fields), ",")]
  {
    set x | x in KeySet(tags) - {"Labels"} :: [Flag("Set" + x, None, '-'), Join(Items(Lookup(tags, x).value.fields), ",")]
  }

  /** What `tagValue` emits about labels: removed keys in one
      `--remove-labels=` argument when there are any; new or changed `k=v`
      pairs after `--labels` (create) or `--update-labels` when there are
      any; and nothing about unchanged labels. */
  lemma TagValueLabels(conf: seq<Field>, cache: seq<Field>, create: bool)
    requires TagValue(conf, cache, create).Ok?
    ensures var tags := Section(conf, "Tag").value;
            var labels := Section(tags, "Labels").value;
            var oldlabels := Section(Section(cache, "Tag").value, "Labels").value;
            var r := TagValue(conf, cache, create).value;
            && (Joined("--remove-labels=", LabelRemovals(labels, oldlabels)) in r <==> LabelRemovals(labels, oldlabels) != {})
            && (LabelChanges(labels, oldlabels) != {} <==> Word(if create then "--labels" else "--update-labels") in r)
            && (LabelChanges(labels, oldlabels) != {} ==>
                  Joined("", set p | p in LabelChanges(labels, oldlabels) :: Item(p.0, p.1)) in r)
  {
    TagValueLabelsOnly(conf, cache, create);
  }

  /** The arguments before the tag sections are the label arguments and
      nothing else. */
  lemma TagValueLabelsOnly(conf: seq<Field>, cache: seq<Field>, create: bool)
    requires TagValue(conf, cache, create).Ok?
    ensures var tags := Section(conf, "Tag").value;
            var labels := Section(tags, "Labels").value;
            var oldlabels := Section(Section(cache, "Tag").value, "Labels").value;
            var removed, changed := LabelRemovals(labels, oldlabels), LabelChanges(labels, oldlabels);
            var r := TagValue(conf, cache, create).value;
            && |r| == (if removed != {} then 1 else 0) + (if changed != {} then 2 else 0) + 2
            && r[..|r| - 2] == (if removed != {} then [Joined("--remove-labels=", removed)] else [])
                             + (if changed != {} then [Word(if create then "--labels" else "--update-labels"),
                                                       Joined("", set p | p in changed :: Item(p.0, p.1))] else [])
  {
  }

  /** A tag section that disappeared gets its clear flag; every present
      section other than Labels gets its set flag with its `k=v` items. */
  lemma TagValueSections(conf: seq<Field>, cache: seq<Field>, create: bool, x: string)
    requires TagValue(conf, cache, create).Ok?
    requires x != "Labels"
    ensures var tags := Section(conf, "Tag").value;
            var oldtags := Section(cache, "Tag").value;
            var r := TagValue(conf, cache, create).value;
            && (x in KeySet(oldtags) && x !in KeySet(tags) ==> [Flag("Clear" + x, None, '-')] in r[|r| - 2].groups)
            && (x in KeySet(tags) ==>
                  [Flag("Set" + x, None, '-'), Join(Items(Lookup(tags, x).value.fields), ",")] in r[|r| - 1].groups)
  {
  }

  /** The last two arguments of `tagValue` are the clear groups and the set
      groups, which hold nothing but the sections' flags. */
  lemma TagValueSectionsOnly(conf: seq<Field>, cache: seq<Field>, create: bool)
    requires TagValue(conf, cache, create).Ok?
    ensures var tags := Section(conf, "Tag").value;
            var r := TagValue(conf, cache, create).value;
            && TagSectionsAreDicts(tags) && |r| >= 2
            && r[|r| - 2] == Shuffled(TagClears(tags, Section(cache, "Tag").value))
            && r[|r| - 1] == Shuffled(TagSets(tags))
  {
  }

  /** A bq option: `'--' + flag(k, v, '_')[2:]`. */
  function BqOption(k: string, v: Value): string {
    var f := FlagValue(k, v, '_');
    "--" + (if |f| >= 2 then f[2..] else "")
  }

  /** With a CamelCase key the bq option is the snake_case name. */
  lemma BqOptionSnake(k: string, v: Value)
    requires k != [] && IsUpper(k[0])
    ensures BqOption(k, v) == "--" + [Lower(k[0])] + Dashed(k[1..], '_') +
      (if v.Null? then "" else "=" + Show(v))
  {
    var d := Dashed(k, '_');
    assert d == ['_', Lower(k[0])] + Dashed(k[1..], '_');
  }

  function BqOptions(fs: seq<Field>): (r: seq<string>)
    ensures |r| == |fs| && forall i :: 0 <= i < |fs| ==> r[i] == BqOption(fs[i].key, fs[i].val)
  {
    if fs == [] then [] else [BqOption(fs[0].key, fs[0].val)] + BqOptions(fs[1..])
  }

  function BqSections(conf: seq<Field>, keys: seq<string>): (r: Result<seq<string>>)
    ensures r.Ok? <==> forall i :: 0 <= i < |keys| ==> Section(conf, keys[i]).Ok?
  {
    if keys == [] then Ok([])
    else
      assert forall i :: 1 <= i < |keys| ==> keys[i] == keys[1..][i - 1];
      var fs :- Section(conf, keys[0]);
      var rest :- BqSections(conf, keys[1..]);
      Ok(BqOptions(fs) + rest)
  }

  /** `f"{k}:{v}" for k,v in kv`: each schema entry must unpack into two. */
  function SchemaItems(entries: seq<Value>): (r: Result<seq<string>>)
    ensures r.Ok? <==> forall i :: 0 <= i < |entries| ==> Iterate(entries[i]).Ok? && |Iterate(entries[i]).value| == 2
    ensures r.Ok? ==> |r.value| == |entries| && forall i :: 0 <= i < |entries| ==>
      r.value[i] == Show(Iterate(entries[i]).value[0]) + ":" + Show(Iterate(entries[i]).value[1])
  {
    if entries == [] then Ok([])
    else
      var pair :- Iterate(entries[0]);
      if |pair| != 2 then Err(ValueError)
      else
        var rest :- SchemaItems(entries[1..]);
        Ok([Show(pair[0]) + ":" + Show(pair[1])] + rest)
  }

  /** `conf.get('Tag', {}).get('Labels', {})`. */
  function Labels(d: seq<Field>): (r: Result<seq<Field>>)
    ensures r.Ok? <==> Section(d, "Tag").Ok? && Section(Section(d, "Tag").value, "Labels").Ok?
    ensures r.Ok? ==> r == Section(Section(d, "Tag").value, "Labels")
  {
    var tags :- Section(d, "Tag");
    Section(tags, "Labels")
  }

  /** The bq clear flags: `--clear_label=k:v` with the old value, one per
      removed label. */
  function BqClears(labels: seq<Field>, oldlabels: seq<Field>): (r: set<seq<string>>)
    ensures forall k :: k in LabelRemovals(labels, oldlabels) ==>
      ["--clear_label=" + k + ":" + Show(Lookup(oldlabels, k).value)] in r
    ensures forall g :: g in r ==>
      exists k :: k in LabelRemovals(labels, oldlabels) && g == ["--clear_label=" + k + ":" + Show(Lookup(oldlabels, k).value)]
  {
    set k | k in LabelRemovals(labels, oldlabels) :: ["--clear_label=" + k + ":" + Show(Lookup(oldlabels, k).value)]
  }

  /** The bq set flags: `--label=k:v` on create, `--set_label=k:v` otherwise,
      one per new or changed label. */
  function BqSets(labels: seq<Field>, oldlabels: seq<Field>, create: bool): (r: set<seq<string>>)
    ensures forall p :: p in LabelChanges(labels, oldlabels) ==>
      ["--" + (if create then "" else "set_") + "label=" + p.0 + ":" + Show(p.1)] in r
    ensures forall g :: g in r ==>
      exists p :: p in LabelChanges(labels, oldlabels) && g == ["--" + (if create then "" else "set_") + "label=" + p.0 + ":" + Show(p.1)]
  {
    set p | p in LabelChanges(labels, oldlabels) :: ["--" + (if create then "" else "set_") + "label=" + p.0 + ":" + Show(p.1)]
  }

  /** `--schema=k:v,...` from the Schema entry of the Tag section. */
  function SchemaArg(kv: Value): (r: Result<seq<Token>>)
    ensures !Truthy(kv) ==> r == Ok([])
    ensures Truthy(kv) ==> (r.Ok? <==> Iterate(kv).Ok? && SchemaItems(Iterate(kv).value).Ok?)
    ensures r.Ok? && Truthy(kv) ==> r.value == [Word("--schema=" + Join(SchemaItems(Iterate(kv).value).value, ","))]
  {
    if !Truthy(kv) then Ok([])
    else
      var entries :- Iterate(kv);
      var items :- SchemaItems(entries);
      Ok([Word("--schema=" + Join(items, ","))])
  }

  /** `bqflagValue(conf, cache, create)`: the snake_case options of Update
      (and Create when creating), then the label clear and set flags, then
      the schema. */
  function BqFlagValue(conf: seq<Field>, cache: seq<Field>, create: bool): (r: Result<seq<Token>>)
    ensures r.Ok? ==> Labels(conf).Ok? && Labels(cache).Ok?
    ensures r.Ok? ==> Shuffled(BqClears(Labels(conf).value, Labels(cache).value)) in r.value
    ensures r.Ok? ==> Shuffled(BqSets(Labels(conf).value, Labels(cache).value, create)) in r.value
    ensures r.Ok? <==> && BqSections(conf, if create then ["Create", "Update"] else ["Update"]).Ok?
                       && Labels(conf).Ok? && Labels(cache).Ok?
                       && SchemaArg(GetOr(Section(conf, "Tag").value, "Schema", Null)).Ok?
    ensures r.Ok? ==>
      r.value == Words(BqSections(conf, if create then ["Create", "Update"] else ["Update"]).value)
                 + [Shuffled(BqClears(Labels(conf).value, Labels(cache).value)),
                    Shuffled(BqSets(Labels(conf).value, Labels(cache).value, create))]
                 + SchemaArg(GetOr(Section(conf, "Tag").value, "Schema", Null)).value
  {
    var opts :- BqSections(conf, if create then ["Create", "Update"] else ["Update"]);
    var tags :- Section(conf, "Tag");
    var oldtags :- Section(cache, "Tag");
    var labels :- Section(tags, "Labels");
    var oldlabels :- Section(oldtags, "Labels");
    var schema :- SchemaArg(GetOr(tags, "Schema", Null));
    Ok(Words(opts) + [Shuffled(BqClears(labels, oldlabels)), Shuffled(BqSets(labels, oldlabels, create))] + schema)
  }

  /** What `bqflagValue` emits about labels: a clear flag with the old value
      for every removed label, a set flag for every new or changed pair, and
      nothing for a label kept with the same value. */
  lemma BqFlagValueLabels(conf: seq<Field>, cache: seq<Field>, create: bool, k: string, v: Value)
    requires BqFlagValue(conf, cache, create).Ok?
    requires UniqueKeys(Labels(conf).value) && UniqueKeys(Labels(cache).value)
    ensures var labels, oldlabels := Labels(conf).value, Labels(cache).value;
            var r := BqFlagValue(conf, cache, create).value;
            && (Lookup(oldlabels, k) == Some(v) && Lookup(labels, k).None? ==>
                  exists t :: t in r && t.Shuffled? && ["--clear_label=" + k + ":" + Show(v)] in t.groups)
            && (Lookup(labels, k) == Some(v) && Lookup(oldlabels, k) != Some(v) ==>
                  exists t :: t in r && t.Shuffled? && ["--" + (if create then "" else "set_") + "label=" + k + ":" + Show(v)] in t.groups)
  {
    var labels, oldlabels := Labels(conf).value, Labels(cache).value;
    var r := BqFlagValue(conf, cache, create).value;
    if Lookup(oldlabels, k) == Some(v) && Lookup(labels, k).None? {
      assert k in LabelRemovals(labels, oldlabels);
      var t := Shuffled(BqClears(labels, oldlabels));
      assert t in r && ["--clear_label=" + k + ":" + Show(v)] in t.groups;
    }
    if Lookup(labels, k) == Some(v) && Lookup(oldlabels, k) != Some(v) {
      assert (k, v) in LabelChanges(labels, oldlabels);
      var t := Shuffled(BqSets(labels, oldlabels, create));
      assert t in r;
    }
  }
}
