/** The argument lists of the `gcloud` and `bq` invocations that create,
    update, describe and delete a resource (gcputil.py, `_gcloud`, `_bq`,
    `_updateGcloud`, `_updateBq`). */
module Invoke {
  import opened Values
  import opened Command
  import opened Flags

  /** `conf['Type']`: the gcloud command group path, e.g. `[run, services]`. */
  function Types(conf: seq<Field>): (r: Result<seq<string>>)
    ensures r.Ok? ==> Lookup(conf, "Type").Some? && Lookup(conf, "Type").value.List?
    ensures r.Ok? ==> |r.value| == |Lookup(conf, "Type").value.items|
    ensures r.Ok? ==> forall i :: 0 <= i < |r.value| ==> Lookup(conf, "Type").value.items[i] == Str(r.value[i])
  {
    var t :- Index(conf, "Type");
    if !t.List? then Err(TypeError) else AsStrings(t.items)
  }

  /** `conf['Type'][0]`, which selects the backend and the fingerprint layout. */
  function Kind(conf: seq<Field>): (r: Result<string>)
    ensures r.Ok? ==> Types(conf).Ok? && |Types(conf).value| > 0 && r.value == Types(conf).value[0]
    ensures Types(conf).Ok? && Types(conf).value == [] ==> r == Err(IndexError)
  {
    var ts :- Types(conf);
    if ts == [] then Err(IndexError) else Ok(ts[0])
  }

  /** `conf['ID']` as a command-line argument. */
  function Id(conf: seq<Field>): (r: Result<string>)
    ensures r.Ok? <==> Lookup(conf, "ID").Some? && Lookup(conf, "ID").value.Str?
    ensures r.Ok? ==> Lookup(conf, "ID") == Some(Str(r.value))
  {
    var v :- Index(conf, "ID");
    AsString(v)
  }

  /** The argument list of `_gcloud`: the Type path, the mode, the target,
      the Parent flags, `--quiet --format=yaml`, then the options. */
  function GcloudArgs(types: seq<string>, mode: string, target: string, parent: seq<string>, opts: seq<Token>)
    : (r: seq<Token>)
    ensures var n := |types|;
      && |r| == n + 4 + |parent| + |opts|
      && r[..n] == Words(types)
      && r[n] == Word(mode) && r[n + 1] == Word(target)
      && r[n + 2..n + 2 + |parent|] == Words(parent)
      && r[n + 2 + |parent|..n + 4 + |parent|] == [Word("--quiet"), Word("--format=yaml")]
      && r[n + 4 + |parent|..] == opts
  {
    var head := Words(types) + [Word(mode), Word(target)] + Words(parent) + [Word("--quiet"), Word("--format=yaml")];
    assert head[..|types|] == Words(types);
    assert head[|types| + 2..|types| + 2 + |parent|] == Words(parent);
    head + opts
  }

  /** `_gcloud(conf, mode, tmpname, opts)`: `gcloud <Type...> <mode> <target>`,
      the Parent flags, `--quiet --format=yaml`, then the options. The
      target is `tmpname` when it is truthy and `conf['ID']` otherwise. */
  function GcloudRequest(conf: seq<Field>, mode: string, tmpname: Value, opts: seq<Token>): (r: Result<Request>)
    ensures r.Ok? <==> && Types(conf).Ok? && FlagGroup(conf, ["Parent"]).Ok?
                       && (if Truthy(tmpname) then tmpname.Str? else Id(conf).Ok?)
    ensures r.Ok? ==> r.value.tool == Gcloud
    ensures r.Ok? ==>
      r.value.args == GcloudArgs(Types(conf).value, mode, if Truthy(tmpname) then tmpname.s else Id(conf).value,
                                 FlagGroup(conf, ["Parent"]).value, opts)
    ensures r.Ok? ==> var n := |Types(conf).value|;
      && |r.value.args| >= n + 2
      && r.value.args[..n] == Words(Types(conf).value)
      && r.value.args[n] == Word(mode)
      && (Truthy(tmpname) ==> tmpname.Str? && r.value.args[n + 1] == Word(tmpname.s))
      && (!Truthy(tmpname) ==> Id(conf).Ok? && r.value.args[n + 1] == Word(Id(conf).value))
    ensures r.Ok? ==> |r.value.args| >= |opts| && r.value.args[|r.value.args| - |opts|..] == opts
  {
    var types :- Types(conf);
    var target :- if Truthy(tmpname) then AsString(tmpname) else Id(conf);
    var parent :- FlagGroup(conf, ["Parent"]);
    Ok(Request(Gcloud, GcloudArgs(types, mode, target, parent, opts)))
  }

  /** `_bq(conf, mode, opts)`: `create` becomes `mk` and `delete` becomes
      `rm`, both forced; the options; `--format=json` and the ID last. */
  function BqRequest(conf: seq<Field>, mode: string, opts: seq<Token>): (r: Result<Request>)
    ensures r.Ok? <==> Id(conf).Ok?
    ensures r.Ok? ==> r.value.tool == Bq && |r.value.args| >= 3
    ensures r.Ok? ==> r.value.args[0] == Word(if mode == "create" then "mk" else if mode == "delete" then "rm" else mode)
    ensures r.Ok? ==> var f := if mode == "create" || mode == "delete" then 1 else 0;
      && |r.value.args| == 3 + f + |opts|
      && (f == 1 ==> r.value.args[1] == Word("--force=true"))
      && r.value.args[1 + f..|r.value.args| - 2] == opts
      && r.value.args[|r.value.args| - 2..] == [Word("--format=json"), Word(Id(conf).value)]
  {
    var id :- Id(conf);
    var verb := if mode == "create" then "mk" else if mode == "delete" then "rm" else mode;
    var force := if verb != mode then [Word("--force=true")] else [];
    Ok(Request(Bq, [Word(verb)] + force + opts + [Word("--format=json"), Word(id)]))
  }

  /** The gcloud group whose create and update verb is always `deploy`. */
  const FixMode := "functions"

  /** The request `_updateGcloud` sends first: `deploy` for functions,
      otherwise `create` or `update`; a `Name` replaces the target only
      when creating; the Create and Update flags, the clear and extra flags,
      and the tag flags, whose labels use `--labels` only for a non-functions
      create. */
  function UpdateGcloudRequest(conf: seq<Field>, cache: seq<Field>, create: bool): (r: Result<Request>)
    ensures r.Ok? ==> Kind(conf).Ok? && r.value.tool == Gcloud
    ensures r.Ok? ==> var n := |Types(conf).value|;
      |r.value.args| > n + 1 && r.value.args[n] ==
        Word(if Kind(conf).value == FixMode then "deploy" else if create then "create" else "update")
  {
    var kind :- Kind(conf);
    var fix := kind == FixMode;
    var mode := if fix then "deploy" else if create then "create" else "update";
    var name := if create then GetOr(conf, "Name", Null) else Bool(false);
    var groups :- FlagGroup(conf, ["Create", "Update"]);
    var options :- FlagOption(conf, cache);
    var tags :- TagValue(conf, cache, create && !fix);
    GcloudRequest(conf, mode, name, Words(groups) + options + tags)
  }

  /** The target of the gcloud updater's call is `Name` when creating with
      a truthy `Name`, and the ID otherwise; its options end with the
      Create and Update flags, `flagOption` and `tagValue`, whose labels use
      create mode only for a create that is not a function. */
  lemma UpdateGcloudArgs(conf: seq<Field>, cache: seq<Field>, create: bool)
    requires UpdateGcloudRequest(conf, cache, create).Ok?
    ensures var r := UpdateGcloudRequest(conf, cache, create).value;
      var n := |Types(conf).value|; var name := GetOr(conf, "Name", Null);
      && (create && Truthy(name) ==> name.Str? && r.args[n + 1] == Word(name.s))
      && (!(create && Truthy(name)) ==> Id(conf).Ok? && r.args[n + 1] == Word(Id(conf).value))
    ensures && FlagGroup(conf, ["Create", "Update"]).Ok? && FlagOption(conf, cache).Ok?
            && TagValue(conf, cache, create && Kind(conf).value != FixMode).Ok?
    ensures var r := UpdateGcloudRequest(conf, cache, create).value;
      var opts := Words(FlagGroup(conf, ["Create", "Update"]).value) + FlagOption(conf, cache).value
                  + TagValue(conf, cache, create && Kind(conf).value != FixMode).value;
      |r.args| >= |opts| && r.args[|r.args| - |opts|..] == opts
  {
  }

  /** The request `_bq` is given by `_updateBq`: `mk` or `update`, with the
      bq options. */
  function UpdateBqRequest(conf: seq<Field>, cache: seq<Field>, create: bool): (r: Result<Request>)
    ensures r.Ok? ==> r.value.tool == Bq && |r.value.args| >= 2
    ensures r.Ok? ==> r.value.args[0] == Word(if create then "mk" else "update")
    ensures r.Ok? && create ==> r.value.args[1] == Word("--force=true")
    ensures r.Ok? ==> BqFlagValue(conf, cache, create).Ok? && Id(conf).Ok?
    ensures r.Ok? ==> var f := if create then 1 else 0; var opts := BqFlagValue(conf, cache, create).value;
      && |r.value.args| == 3 + f + |opts|
      && r.value.args[1 + f..|r.value.args| - 2] == opts
      && r.value.args[|r.value.args| - 2..] == [Word("--format=json"), Word(Id(conf).value)]
  {
    var opts :- BqFlagValue(conf, cache, create);
    BqRequest(conf, if create then "create" else "update", opts)
  }
}
