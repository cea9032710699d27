/** Reconciling one resource against its cache entry: the no-op / update /
    create / replace decision of `updateCache`, the backend calls of
    `updateResource` and `deleteResource`, the parameter update of `parse`,
    and the deletions of `clean` (gcputil.py). */
module Reconcile {
  import opened Values
  import opened Command
  import opened Invoke
  import opened Bind
  import opened Fingerprint
  import opened Materialize

  /** A cache file: the resolved spec as last applied (`Input`) and what the
      backend reported for it (`Output`). */
  datatype Entry = Entry(input: seq<Field>, output: Value)

  /** `conf['$hash']` as stored in a spec: the list of digests. */
  function HashValue(hash: seq<Digest>): (r: Value)
    ensures r.List? && |r.items| == |hash|
    ensures forall i :: 0 <= i < |hash| ==> r.items[i] == Str(hash[i])
  {
    List(seq(|hash|, i requires 0 <= i < |hash| => Str(hash[i])))
  }

  /** `cache.get('$hash', '??')` as iterated: with no cache, the two
      characters of `'??'`. */
  function CachedDigests(cache: seq<Field>): Result<seq<Value>> {
    Iterate(GetOr(cache, "$hash", Str("??")))
  }

  /** `[x != y for x, y in zip(old, new)]`: only the shorter length is
      compared. */
  function Diff(olds: seq<Value>, hash: seq<Digest>): (r: seq<bool>)
    ensures |r| == if |olds| < |hash| then |olds| else |hash|
    ensures forall i :: 0 <= i < |r| ==> r[i] == (olds[i] != Str(hash[i]))
  {
    if olds == [] || hash == [] then [] else [olds[0] != Str(hash[0])] + Diff(olds[1..], hash[1..])
  }

  /** `len(cache) < 2`: the record handed to `updateResource` selects create
      mode when it has fewer than two keys. */
  predicate Creates(record: seq<Field>) {
    |record| < 2
  }

  /** The spec and the cached input name the same resource: equal `Type`
      lists and equal IDs. */
  predicate SameResource(conf: seq<Field>, cache: seq<Field>) {
    Lookup(conf, "Type") == Lookup(cache, "Type") && Lookup(conf, "ID") == Lookup(cache, "ID")
  }

  /** What `updateCache` does with a spec whose hash is computed. */
  datatype Decision =
    | Unchanged(id: Value)                     // no backend call: the cached ID and output are taken
    | Apply(retire: bool, record: seq<Field>)  // call the backend with `record` as the cache; `retire` queues the cached spec for deletion

  /** The decision of `updateCache(path, conf, hold)` given the cached input
      (`[]` when there is no cache file) and the spec's digests:
      - no digest differs (or nothing is compared): unchanged;
      - digest 0 differs and there is a cache: the cached spec is retired and
        the resource is created anew, under `ID + '-0'` when it is the same
        Type and ID as the retired one;
      - otherwise the cache is the record: update when it has two or more
        keys, create when not. */
  function Decide(cache: seq<Field>, conf: seq<Field>, hash: seq<Digest>): (r: Result<Decision>)
    ensures r.Ok? ==> CachedDigests(cache).Ok?
    ensures r.Ok? ==> (r.value.Unchanged? <==> true !in Diff(CachedDigests(cache).value, hash))
    ensures r.Ok? && r.value.Unchanged? ==> Lookup(cache, "ID") == Some(r.value.id)
    ensures r.Ok? && r.value.Apply? ==> var diff := Diff(CachedDigests(cache).value, hash);
      && |diff| > 0
      && (r.value.retire <==> cache != [] && diff[0])
      && (!r.value.retire ==> r.value.record == cache)
      && (Creates(r.value.record) <==> r.value.retire || |cache| < 2)
    ensures r.Ok? && r.value.Apply? && r.value.retire ==>
      && Lookup(conf, "Type").Some? && Lookup(conf, "Type").value.List? && Lookup(conf, "ID").Some?
      && (r.value.record != [] <==> SameResource(conf, cache))
      && (r.value.record != [] ==>
            Lookup(conf, "ID").value.Str? && r.value.record == [Field("ID", Str(Lookup(conf, "ID").value.s + "-0"))])
  {
    var olds :- CachedDigests(cache);
    var diff := Diff(olds, hash);
    if true !in diff then
      var id :- Index(cache, "ID");
      Ok(Unchanged(id))
    else if cache != [] && diff[0] then
      var t1 :- Index(conf, "Type");
      var i1 :- Index(conf, "ID");
      if !t1.List? then Err(TypeError)
      else
        var t2 :- Index(cache, "Type");
        var i2 :- Index(cache, "ID");
        if !t2.List? then Err(TypeError)
        else if t1.items + [i1] == t2.items + [i2] then
          SnocInjective(t1.items, i1, t2.items, i2);
          if !i1.Str? then Err(TypeError) else Ok(Apply(true, [Field("ID", Str(i1.s + "-0"))]))
        else
          Ok(Apply(true, []))
    else Ok(Apply(false, cache))
  }

  lemma SnocInjective(a: seq<Value>, x: Value, b: seq<Value>, y: Value)
    ensures a + [x] == b + [y] <==> a == b && x == y
  {
    if a + [x] == b + [y] {
      assert |a| == |b|;
      assert a == (a + [x])[..|a|] && b == (b + [y])[..|b|];
      assert x == (a + [x])[|a|] && y == (b + [y])[|b|];
    }
  }

  /** With no cache file the resource is created, and nothing is retired. */
  lemma DecideNew(conf: seq<Field>, hash: seq<Digest>)
    requires |hash| >= 1
    ensures Decide([], conf, hash) == Ok(Apply(false, []))
    ensures Creates([])
  {
    var olds := CachedDigests([]).value;
    assert olds == [Str("?"), Str("?")];
    assert Str("?") != Str(hash[0]);
    assert Diff(olds, hash)[0];
  }

  /** A cache holding the same digests and an ID is left alone; its ID is
      the one the spec takes. */
  lemma DecideSame(cache: seq<Field>, conf: seq<Field>, hash: seq<Digest>)
    requires Lookup(cache, "$hash") == Some(HashValue(hash))
    requires "ID" in KeySet(cache)
    ensures Decide(cache, conf, hash) == Ok(Unchanged(Lookup(cache, "ID").value))
  {
    var diff := Diff(CachedDigests(cache).value, hash);
    assert forall i :: 0 <= i < |diff| ==> !diff[i];
  }

  /** A spec whose Update, Flag and Tag sections changed but whose identity
      (digest 0) did not is updated in place with the cache as the record:
      nothing is retired. */
  lemma DecideUpdate(cache: seq<Field>, conf: seq<Field>, hash: seq<Digest>)
    requires Lookup(cache, "$hash").Some? && Lookup(cache, "$hash").value.List?
    requires var olds := Lookup(cache, "$hash").value.items;
      |olds| >= 2 && |hash| >= 2 && olds[0] == Str(hash[0]) && olds[1] != Str(hash[1])
    ensures Decide(cache, conf, hash) == Ok(Apply(false, cache))
  {
    var diff := Diff(CachedDigests(cache).value, hash);
    assert diff[1];
    assert !diff[0];
  }

  /** `params.update((k, v) for k, v in pairs if k in params)`: only keys
      the parameters already have are set, each to the text of its last
      pair. */
  function ApplyOutput(params: map<string, Value>, pairs: seq<Pair>): (r: map<string, Value>)
    ensures r.Keys == params.Keys
    decreases |pairs|
  {
    if pairs == [] then params
    else
      var (k, v) := pairs[|pairs| - 1];
      var before := ApplyOutput(params, pairs[..|pairs| - 1]);
      if k in before then before[k := Str(v)] else before
  }

  /** The text of the last pair with key `k`. */
  function LastValue(pairs: seq<Pair>, k: string): (r: Option<string>)
    ensures r.None? <==> forall i :: 0 <= i < |pairs| ==> pairs[i].0 != k
    ensures r.Some? ==>
      exists i :: 0 <= i < |pairs| && pairs[i] == (k, r.value) && forall j :: i < j < |pairs| ==> pairs[j].0 != k
    decreases |pairs|
  {
    if pairs == [] then None
    else
      var last := pairs[|pairs| - 1];
      if last.0 == k then Some(last.1)
      else
        var init := pairs[..|pairs| - 1];
        var r := LastValue(init, k);
        LastValuePrefix(init, last, k, r);
        assert pairs == init + [last];
        r
  }

  /** A value found in `init`, followed by a pair whose key differs, is
      found in the whole sequence. */
  lemma LastValuePrefix(init: seq<Pair>, last: Pair, k: string, r: Option<string>)
    requires last.0 != k
    requires r.None? <==> forall i :: 0 <= i < |init| ==> init[i].0 != k
    requires r.Some? ==>
      exists i :: 0 <= i < |init| && init[i] == (k, r.value) && forall j :: i < j < |init| ==> init[j].0 != k
    ensures var pairs := init + [last];
      && (r.None? <==> forall i :: 0 <= i < |pairs| ==> pairs[i].0 != k)
      && (r.Some? ==>
        exists i :: 0 <= i < |pairs| && pairs[i] == (k, r.value) && forall j :: i < j < |pairs| ==> pairs[j].0 != k)
  {
    var pairs := init + [last];
    if r.Some? {
      var i :| 0 <= i < |init| && init[i] == (k, r.value) && forall j :: i < j < |init| ==> init[j].0 != k;
      assert pairs[i] == (k, r.value);
    }
  }

  /** A parameter is set to the text of the last output pair under its
      name, and kept when no pair names it. */
  lemma {:induction false} ApplyOutputLast(params: map<string, Value>, pairs: seq<Pair>, k: string)
    requires k in params
    ensures ApplyOutput(params, pairs)[k] == match LastValue(pairs, k) case Some(v) => Str(v) case None => params[k]
    decreases |pairs|
  {
    if pairs != [] {
      ApplyOutputLast(params, pairs[..|pairs| - 1], k);
    }
  }

  /** The spec `updateResource` sends: the ID copied from a non-empty
      record, and the `PipeErr` switch popped. */
  function Prepared(conf: seq<Field>, record: seq<Field>): (r: Result<seq<Field>>)
    ensures record == [] ==> r == Ok(Remove(conf, "PipeErr"))
    ensures record != [] ==> (r.Ok? <==> "ID" in KeySet(record))
    ensures r.Ok? ==> Lookup(r.value, "PipeErr") == None
    ensures r.Ok? && record != [] ==> Lookup(r.value, "ID") == Lookup(record, "ID")
    ensures r.Ok? ==> forall k :: k != "ID" && k != "PipeErr" ==> Lookup(r.value, k) == Lookup(conf, k)
  {
    if record == [] then Ok(Remove(conf, "PipeErr"))
    else
      var id :- Index(record, "ID");
      Ok(Remove(Put(conf, "ID", id), "PipeErr"))
  }

  /** Which updater `updateResource` dispatches to on `Type[0]`. */
  datatype Updater = BqUpdater | BindUpdater | GcloudUpdater

  function UpdaterOf(kind: string): Updater {
    if kind == "bigquery" then BqUpdater else if kind == "_bind" then BindUpdater else GcloudUpdater
  }

  /** The first call of the gcloud and bq updaters. */
  function UpdateRequestFor(conf: seq<Field>, record: seq<Field>): Result<Request> {
    var kind :- Kind(conf);
    if UpdaterOf(kind) == BqUpdater then UpdateBqRequest(conf, record, Creates(record))
    else UpdateGcloudRequest(conf, record, Creates(record))
  }

  /** The stage of `_updateBind` a call belongs to. */
  datatype Stage = Removing | Adding | Updating

  function StageRequest(p: BindPlan, stage: Stage, t: seq<Value>): Result<Request> {
    match stage
    case Removing => RemoveRequest(p, t)
    case Adding => AddRequest(p, t)
    case Updating => UpdateRequest(p, t)
  }

  function StageTuples(p: BindPlan, stage: Stage): set<seq<Value>> {
    match stage
    case Removing => p.removes
    case Adding => p.adds
    case Updating => p.updates
  }

  /** `ts` lists the members of `s`, each once, in some order. */
  ghost predicate Enumerates(ts: seq<seq<Value>>, s: set<seq<Value>>) {
    (forall t :: t in ts <==> t in s) && |ts| == |s|
  }

  /** The calls of `_updateBind`'s three loops, the tuples of each in the
      order given. */
  function PlanRequests(p: BindPlan, removed: seq<seq<Value>>, added: seq<seq<Value>>, updated: seq<seq<Value>>)
    : (r: Result<seq<Request>>)
    ensures r.Ok? ==> |r.value| == |removed| + |added| + |updated|
  {
    var a :- StageRequests(p, Removing, removed);
    var b :- StageRequests(p, Adding, added);
    var c :- StageRequests(p, Updating, updated);
    Ok(a + b + c)
  }

  /** The log went from `before` to `after` by sending the plan's calls:
      the removals, the additions and the updates, each stage in the order
      given, and each order lists its stage's tuples once. */
  ghost predicate SentPlan(p: BindPlan, removed: seq<seq<Value>>, added: seq<seq<Value>>, updated: seq<seq<Value>>,
                           before: seq<Request>, after: seq<Request>) {
    && Enumerates(removed, p.removes) && Enumerates(added, p.adds) && Enumerates(updated, p.updates)
    && PlanRequests(p, removed, added, updated).Ok?
    && after == before + PlanRequests(p, removed, added, updated).value
  }

  /** `_updateBind(conf, cache)` succeeded from `before` to `after`: it
      has a plan, and the log grew by that plan's calls in some order of
      each stage's tuples. */
  ghost predicate BindSent(conf: seq<Field>, cache: seq<Field>, before: seq<Request>, after: seq<Request>) {
    && PlanBind(conf, cache).Ok?
    && exists removed, added, updated :: SentPlan(PlanBind(conf, cache).value, removed, added, updated, before, after)
  }

  /** The calls of `deleteResource(conf)`: `bq rm`, the binding removals,
      or `gcloud ... delete`. */
  function DeleteRequests(conf: seq<Field>): (r: Result<seq<Request>>)
    ensures r.Ok? ==> Kind(conf).Ok?
    ensures r.Ok? && Kind(conf).value == "bigquery" ==>
      BqRequest(conf, "delete", []).Ok? && r.value == [BqRequest(conf, "delete", []).value]
    ensures Kind(conf).Ok? && Kind(conf).value == "_bind" ==> r == DeleteBindRequests(conf)
    ensures r.Ok? && Kind(conf).value != "bigquery" && Kind(conf).value != "_bind" ==>
      GcloudRequest(conf, "delete", Null, []).Ok? && r.value == [GcloudRequest(conf, "delete", Null, []).value]
  {
    var kind :- Kind(conf);
    if kind == "bigquery" then
      var req :- BqRequest(conf, "delete", []);
      Ok([req])
    else if kind == "_bind" then DeleteBindRequests(conf)
    else
      var req :- GcloudRequest(conf, "delete", Null, []);
      Ok([req])
  }

  /** The deletions of the retired specs, newest first: those of the later
      entries come before those of the first. */
  function RetireRequests(bye: seq<seq<Field>>): (r: Result<seq<Request>>) {
    if bye == [] then Ok([])
    else
      var later :- RetireRequests(bye[1..]);
      var first :- DeleteRequests(bye[0]);
      Ok(later + first)
  }

  lemma RetireStep(bye: seq<seq<Field>>, i: int, done: seq<Request>, reqs: seq<Request>)
    requires 0 < i <= |bye|
    requires RetireRequests(bye[i..]) == Ok(done) && DeleteRequests(bye[i - 1]) == Ok(reqs)
    ensures RetireRequests(bye[i - 1..]) == Ok(done + reqs)
  {
    assert bye[i - 1..][1..] == bye[i..];
  }

  lemma StaleStep(cache: map<string, Entry>, names: seq<string>, n: string, done: seq<Request>, reqs: seq<Request>)
    requires n in cache
    requires StaleRequests(cache, names) == Ok(done) && DeleteRequests(cache[n].input) == Ok(reqs)
    ensures StaleRequests(cache, names + [n]) == Ok(done + reqs)
  {
    assert (names + [n])[..|names|] == names;
  }

  /** The deletions of the cache entries named, in that order; a name
      with no entry is a KeyError. */
  function StaleRequests(cache: map<string, Entry>, names: seq<string>): Result<seq<Request>> {
    if names == [] then Ok([])
    else
      var before :- StaleRequests(cache, names[..|names| - 1]);
      var n := names[|names| - 1];
      var entry :- if n in cache then Ok(cache[n]) else Err(KeyError(n));
      var last :- DeleteRequests(entry.input);
      Ok(before + last)
  }

  /** The sequence of requests each of whose parts is the call for one
      tuple, in the order given. */
  function StageRequests(p: BindPlan, stage: Stage, ts: seq<seq<Value>>): (r: Result<seq<Request>>)
    ensures r.Ok? ==> |r.value| == |ts|
  {
    if ts == [] then Ok([])
    else
      var before :- StageRequests(p, stage, ts[..|ts| - 1]);
      var last :- StageRequest(p, stage, ts[|ts| - 1]);
      Ok(before + [last])
  }

  lemma StageStep(p: BindPlan, stage: Stage, ts: seq<seq<Value>>, t: seq<Value>, done: seq<Request>, req: Request)
    requires StageRequests(p, stage, ts) == Ok(done) && StageRequest(p, stage, t) == Ok(req)
    ensures StageRequests(p, stage, ts + [t]) == Ok(done + [req])
  {
    assert (ts + [t])[..|ts|] == ts;
  }

  /** `hold[kind].append(v)` on a `defaultdict(list)`. */
  function Hold(held: map<string, seq<Value>>, kind: string, v: Value): (r: map<string, seq<Value>>)
    ensures r.Keys == held.Keys + {kind}
    ensures r[kind] == (if kind in held then held[kind] else []) + [v]
    ensures forall k :: k in held && k != kind ==> r[k] == held[k]
  {
    held[kind := (if kind in held then held[kind] else []) + [v]]
  }

  /** The cached entry for a name; `({}, None)` when there is none. */
  function CacheEntry(cache: map<string, Entry>, name: string): Entry {
    if name in cache then cache[name] else Entry([], Null)
  }

  /** The value `updateCache` records in `hold[Type[0]]`:
      `out.get('id') or out['name']`. */
  function HeldId(out: Value): (r: Result<Value>)
    ensures r.Ok? ==> out.Dict?
    ensures r.Ok? && Truthy(GetOr(out.fields, "id", Null)) ==> r.value == GetOr(out.fields, "id", Null)
    ensures r.Ok? && !Truthy(GetOr(out.fields, "id", Null)) ==> Lookup(out.fields, "name") == Some(r.value)
  {
    if !out.Dict? then Err(TypeError)
    else
      var id := GetOr(out.fields, "id", Null);
      if Truthy(id) then Ok(id) else Index(out.fields, "name")
  }

  /** `yaml.safe_load` of a command's output: an empty output loads as `None`. */
  function LoadYaml(reply: Reply): (r: Result<Value>)
    ensures r.Err? <==> reply.Failed?
  {
    match reply
    case Failed(e) => Err(CallFailed(e))
    case Empty => Ok(Null)
    case Output(doc) => Ok(doc)
  }

  /** `json.loads` of a command's output: an empty output is an error. */
  function LoadJson(reply: Reply): (r: Result<Value>)
    ensures r.Ok? <==> reply.Output?
  {
    match reply
    case Failed(e) => Err(CallFailed(e))
    case Empty => Err(ValueError)
    case Output(doc) => Ok(doc)
  }

  /** The run's state: the parameters, the cache directory, `hold['$bye']`,
      the other lists of `hold`, and the calls sent so far. `respond` stands
      for the remote side, `disk` for the files the fingerprint reads and
      `sha` for SHA-256. */
  class Engine {
    var params: map<string, Value>
    var cache: map<string, Entry>
    var bye: seq<seq<Field>>
    var held: map<string, seq<Value>>
    var log: seq<Request>
    const respond: (seq<Request>, Request) -> Reply
    const disk: string -> seq<byte>
    const sha: seq<byte> -> Digest

    constructor (params: map<string, Value>, cache: map<string, Entry>,
                 respond: (seq<Request>, Request) -> Reply, disk: string -> seq<byte>, sha: seq<byte> -> Digest)
      ensures this.params == params && this.cache == cache && bye == [] && held == map[] && log == []
      ensures this.respond == respond && this.disk == disk && this.sha == sha
    {
      this.params := params;
      this.cache := cache;
      bye := [];
      held := map[];
      log := [];
      this.respond := respond;
      this.disk := disk;
      this.sha := sha;
    }

    /** `call(tool, *args)` */
    method Call(req: Request) returns (reply: Reply)
      modifies this
      ensures log == old(log) + [req] && reply == respond(old(log), req)
      ensures params == old(params) && cache == old(cache) && bye == old(bye) && held == old(held)
    {
      reply := respond(log, req);
      log := log + [req];
    }

    /** `_updateGcloud`: create, update or deploy; when that prints
        nothing, `describe`; the output loaded as YAML. */
    method UpdateGcloud(conf: seq<Field>, record: seq<Field>) returns (r: Result<Value>)
      modifies this
      ensures params == old(params) && cache == old(cache) && bye == old(bye) && held == old(held)
      ensures old(log) <= log
      ensures r.Ok? ==> UpdateGcloudRequest(conf, record, Creates(record)).Ok?
      ensures r.Ok? ==> var req := UpdateGcloudRequest(conf, record, Creates(record)).value;
        var first := respond(old(log), req);
        && !first.Failed?
        && (first.Output? ==> log == old(log) + [req] && r.value == first.doc)
        && (first.Empty? ==>
              && GcloudRequest(conf, "describe", Null, []).Ok?
              && log == old(log) + [req, GcloudRequest(conf, "describe", Null, []).value]
              && LoadYaml(respond(old(log) + [req], GcloudRequest(conf, "describe", Null, []).value)) == r)
    {
      var req :- UpdateGcloudRequest(conf, record, Creates(record));
      var reply := Call(req);
      if reply.Failed? {
        return Err(CallFailed(reply.stderr));
      }
      if reply.Output? {
        return Ok(reply.doc);
      }
      var d :- GcloudRequest(conf, "describe", Null, []);
      var shown := Call(d);
      SnocTwice(old(log), req, d);
      r := LoadYaml(shown);
    }

    /** `_updateBq`: `mk` or `update`, then `show`, loaded as JSON. */
    method UpdateBq(conf: seq<Field>, record: seq<Field>) returns (r: Result<Value>)
      modifies this
      ensures params == old(params) && cache == old(cache) && bye == old(bye) && held == old(held)
      ensures old(log) <= log
      ensures r.Ok? ==> UpdateBqRequest(conf, record, Creates(record)).Ok? && BqRequest(conf, "show", []).Ok?
      ensures r.Ok? ==> var req := UpdateBqRequest(conf, record, Creates(record)).value;
        var show := BqRequest(conf, "show", []).value;
        && log == old(log) + [req, show]
        && !respond(old(log), req).Failed?
        && LoadJson(respond(old(log) + [req], show)) == r
    {
      var req :- UpdateBqRequest(conf, record, Creates(record));
      var reply := Call(req);
      if reply.Failed? {
        return Err(CallFailed(reply.stderr));
      }
      var show := BqRequest(conf, "show", []).value;
      var shown := Call(show);
      SnocTwice(old(log), req, show);
      r := LoadJson(shown);
    }

    /** One loop of `_updateBind`: a call per tuple of the stage, in some
        order; `sent` is that order. */
    method SendStage(p: BindPlan, stage: Stage) returns (r: Result<()>, ghost sent: seq<seq<Value>>)
      modifies this
      ensures params == old(params) && cache == old(cache) && bye == old(bye) && held == old(held)
      ensures old(log) <= log
      ensures r.Ok? ==> (forall t :: t in sent <==> t in StageTuples(p, stage)) && |sent| == |StageTuples(p, stage)|
      ensures r.Ok? ==> StageRequests(p, stage, sent) == Ok(log[|old(log)|..])
      ensures r.Ok? ==> |log| == |old(log)| + |StageTuples(p, stage)|
    {
      var all := StageTuples(p, stage);
      var todo := all;
      sent := [];
      assert log[|old(log)|..] == [];
      while todo != {}
        invariant params == old(params) && cache == old(cache) && bye == old(bye) && held == old(held)
        invariant old(log) <= log
        invariant forall t :: t in sent <==> t in all && t !in todo
        invariant todo <= all
        invariant |sent| + |todo| == |all|
        invariant StageRequests(p, stage, sent) == Ok(log[|old(log)|..])
        decreases |todo|
      {
        var t :| t in todo;
        var sentOne := SendTuple(p, stage, sent, t, old(log));
        if sentOne.Err? {
          return sentOne, sent;
        }
        sent := sent + [t];
        assert |todo - {t}| == |todo| - 1;
        todo := todo - {t};
      }
      r := Ok(());
    }

    /** One `_gcloud` call of a binding stage: the request for tuple `t`,
        sent after the requests of `sent`. */
    method SendTuple(p: BindPlan, stage: Stage, ghost sent: seq<seq<Value>>, t: seq<Value>, ghost base: seq<Request>)
      returns (r: Result<()>)
      modifies this
      requires base <= log && StageRequests(p, stage, sent) == Ok(log[|base|..])
      ensures params == old(params) && cache == old(cache) && bye == old(bye) && held == old(held)
      ensures old(log) <= log
      ensures r.Ok? ==> StageRequests(p, stage, sent + [t]) == Ok(log[|base|..]) && |log| == |old(log)| + 1
    {
      var req := StageRequest(p, stage, t);
      if req.Err? {
        return Err(req.error);
      }
      ghost var l0 := log;
      var reply := Call(req.value);
      if reply.Failed? {
        return Err(CallFailed(reply.stderr));
      }
      SuffixAppend(base, l0, [req.value]);
      StageStep(p, stage, sent, t, l0[|base|..], req.value);
      r := Ok(());
    }

    /** `_updateBind`: the removals, the additions, then the updates of the
        plan; the output is the binding's ID. */
    method UpdateBind(conf: seq<Field>, record: seq<Field>)
      returns (r: Result<Value>, ghost removed: seq<seq<Value>>, ghost added: seq<seq<Value>>, ghost updated: seq<seq<Value>>)
      modifies this
      ensures params == old(params) && cache == old(cache) && bye == old(bye) && held == old(held)
      ensures old(log) <= log
      ensures r.Ok? ==> PlanBind(conf, record).Ok? && Lookup(conf, "ID").Some?
      ensures r.Ok? ==> r.value == Dict([Field("id", Lookup(conf, "ID").value)])
      ensures r.Ok? ==> SentPlan(PlanBind(conf, record).value, removed, added, updated, old(log), log)
    {
      removed, added, updated := [], [], [];
      var p :- PlanBind(conf, record);
      var sent;
      sent, removed, added, updated := SendPlan(p);
      if sent.Err? {
        return Err(sent.error), removed, added, updated;
      }
      var id :- Index(conf, "ID");
      r := Ok(Dict([Field("id", id)]));
    }

    /** The three loops of `_updateBind`: the removals, then the additions,
        then the updates, one call per tuple; `removed`, `added` and
        `updated` are the orders each loop took. */
    method SendPlan(p: BindPlan)
      returns (r: Result<()>, ghost removed: seq<seq<Value>>, ghost added: seq<seq<Value>>, ghost updated: seq<seq<Value>>)
      modifies this
      ensures params == old(params) && cache == old(cache) && bye == old(bye) && held == old(held)
      ensures old(log) <= log
      ensures r.Ok? ==> SentPlan(p, removed, added, updated, old(log), log)
    {
      var a; ghost var l0 := log;
      a, removed := SendStage(p, Removing);
      added, updated := [], [];
      if a.Err? {
        return Err(a.error), removed, added, updated;
      }
      ghost var l1 := log;
      var b;
      b, added := SendStage(p, Adding);
      if b.Err? {
        return Err(b.error), removed, added, updated;
      }
      ghost var l2 := log;
      var c;
      c, updated := SendStage(p, Updating);
      if c.Err? {
        return Err(c.error), removed, added, updated;
      }
      PlanLog(p, removed, added, updated, l0, l1, l2, log);
      r := Ok(());
    }

    /** `updateResource(conf, cache)`: the spec takes the record's ID when
        the record is not empty, loses its `PipeErr` switch, and goes to the
        updater its `Type[0]` selects, in create mode exactly when the record
        has fewer than two keys. Returns the output and the spec as sent. */
    method UpdateResource(conf: seq<Field>, record: seq<Field>) returns (r: Result<(Value, seq<Field>)>)
      modifies this
      ensures params == old(params) && cache == old(cache) && bye == old(bye) && held == old(held)
      ensures old(log) <= log
      ensures r.Ok? ==> Prepared(conf, record) == Ok(r.value.1) && Kind(r.value.1).Ok?
      ensures r.Ok? && UpdaterOf(Kind(r.value.1).value) != BindUpdater ==>
        && UpdateRequestFor(r.value.1, record).Ok?
        && |log| > |old(log)| && log[|old(log)|] == UpdateRequestFor(r.value.1, record).value
      ensures r.Ok? && UpdaterOf(Kind(r.value.1).value) == BindUpdater ==>
        Lookup(r.value.1, "ID").Some? && r.value.0 == Dict([Field("id", Lookup(r.value.1, "ID").value)])
      ensures r.Ok? && UpdaterOf(Kind(r.value.1).value) == BindUpdater ==> BindSent(r.value.1, record, old(log), log)
    {
      var c :- Prepared(conf, record);
      var kind :- Kind(c);
      var out: Result<Value>;
      match UpdaterOf(kind) {
        case GcloudUpdater => out := UpdateGcloud(c, record);
        case BqUpdater => out := UpdateBq(c, record);
        case BindUpdater =>
          ghost var removed, added, updated;
          out, removed, added, updated := UpdateBind(c, record);
          if out.Ok? {
            assert SentPlan(PlanBind(c, record).value, removed, added, updated, old(log), log);
            assert BindSent(c, record, old(log), log);
          }
      }
      if out.Err? {
        return Err(out.error);
      }
      r := Ok((out.value, c));
    }

    /** `updateCache(path, conf, hold)` for a spec carrying its digests:
        unchanged specs call nothing and take the cached ID and output; a
        changed identity retires the cached spec before the backend call;
        the cache entry is written only once the backend call and the
        `hold` bookkeeping succeeded. Returns the output and the spec as
        recorded. */
    method UpdateCache(name: string, conf: seq<Field>, hash: seq<Digest>) returns (r: Result<(Value, seq<Field>)>)
      modifies this
      ensures params == old(params)
      ensures old(log) <= log
      ensures r.Err? ==> cache == old(cache)
      ensures r.Ok? ==> cache.Keys == old(cache).Keys + {name}
      ensures r.Ok? ==> forall n :: n in old(cache) && n != name ==> cache[n] == old(cache)[n]
      ensures r.Ok? ==> Decide(CacheEntry(old(cache), name).input, conf, hash).Ok?
      ensures r.Ok? ==> var entry := CacheEntry(old(cache), name);
        match Decide(entry.input, conf, hash).value
        case Unchanged(id) =>
          && log == old(log) && cache == old(cache) && bye == old(bye) && held == old(held)
          && r.value == (entry.output, Put(conf, "ID", id))
        case Apply(retire, record) =>
          && bye == old(bye) + (if retire then [entry.input] else [])
          && Prepared(conf, record) == Ok(r.value.1)
          && cache == old(cache)[name := Entry(r.value.1, r.value.0)]
          && Kind(r.value.1).Ok? && HeldId(r.value.0).Ok?
          && held == Hold(old(held), Kind(r.value.1).value, HeldId(r.value.0).value)
    {
      var entry := CacheEntry(cache, name);
      var dec :- Decide(entry.input, conf, hash);
      if dec.Unchanged? {
        return Ok((entry.output, Put(conf, "ID", dec.id)));
      }
      r := Redeploy(name, entry, conf, dec.retire, dec.record);
    }

    /** The changed branch of `updateCache`. */
    method Redeploy(name: string, entry: Entry, conf: seq<Field>, retire: bool, record: seq<Field>)
      returns (r: Result<(Value, seq<Field>)>)
      modifies this
      ensures params == old(params)
      ensures old(log) <= log
      ensures r.Err? ==> cache == old(cache)
      ensures r.Ok? ==>
        && bye == old(bye) + (if retire then [entry.input] else [])
        && Prepared(conf, record) == Ok(r.value.1)
        && cache == old(cache)[name := Entry(r.value.1, r.value.0)]
        && Kind(r.value.1).Ok? && HeldId(r.value.0).Ok?
        && held == Hold(old(held), Kind(r.value.1).value, HeldId(r.value.0).value)
    {
      if retire {
        bye := bye + [entry.input];
      }
      var res := UpdateResource(conf, record);
      if res.Err? {
        return Err(res.error);
      }
      var (out, c) := res.value;
      r := Commit(name, out, c);
    }

    /** The bookkeeping after a successful backend call: the output's ID is
        held under the spec's kind, then the cache entry is written. */
    method Commit(name: string, out: Value, c: seq<Field>) returns (r: Result<(Value, seq<Field>)>)
      modifies this
      ensures params == old(params) && log == old(log) && bye == old(bye)
      ensures r.Err? ==> cache == old(cache)
      ensures r.Ok? ==>
        && r.value == (out, c) && Kind(c).Ok? && HeldId(out).Ok?
        && cache == old(cache)[name := Entry(c, out)]
        && held == Hold(old(held), Kind(c).value, HeldId(out).value)
    {
      var kind :- Kind(c);
      var v :- HeldId(out);
      held := Hold(held, kind, v);
      cache := cache[name := Entry(c, out)];
      r := Ok((out, c));
    }
  
    /** `parse(name, conf, params, hold)`: resolves the spec with every
        handler; when a reference is still unresolved nothing is deployed
        and the answer is false. Otherwise the spec gets its digests, is
        reconciled, the parameters named by the output's flattened paths
        take their values, and the resource's name takes its ID. */
    method Parse(name: string, spec: Value) returns (r: Result<bool>)
      modifies this
      ensures old(log) <= log
      ensures r.Ok? ==> cache.Keys == old(cache).Keys + (if r.value then {name} else {})
      ensures r.Ok? ==> forall n :: n in old(cache) && n != name ==> cache[n] == old(cache)[n]
      ensures r.Ok? ==> Traverse(spec, true, Env(old(params), Some({}), Some([]))).Ok?
      ensures r.Ok? && !r.value ==>
        var t := Traverse(spec, true, Env(old(params), Some({}), Some([]))).value;
        && Waiting(t.1) && params == t.1.params
        && log == old(log) && cache == old(cache) && bye == old(bye) && held == old(held)
      ensures r.Ok? && r.value ==>
        var t := Traverse(spec, true, Env(old(params), Some({}), Some([]))).value;
        && !Waiting(t.1) && t.0.Dict?
        && old(params).Keys + {name} <= params.Keys
        && name in cache && Lookup(cache[name].input, "ID") == Some(params[name])
        && params == ApplyOutput(t.1.params, Flatten(cache[name].output, name))[name := params[name]]
        && t.1.files.Some? && MakeHash(t.0.fields, t.1.files.value, disk, sha).Ok?
      ensures r.Ok? && r.value ==>
        var t := Traverse(spec, true, Env(old(params), Some({}), Some([]))).value;
        var hash := MakeHash(t.0.fields, t.1.files.value, disk, sha).value;
        var conf := Put(t.0.fields, "$hash", HashValue(hash));
        var entry := CacheEntry(old(cache), name);
        && Decide(entry.input, conf, hash).Ok?
        && (Decide(entry.input, conf, hash).value.Unchanged? ==>
              && log == old(log) && cache == old(cache) && bye == old(bye) && held == old(held)
              && params[name] == Decide(entry.input, conf, hash).value.id)
        && (Decide(entry.input, conf, hash).value.Apply? ==>
              var dec := Decide(entry.input, conf, hash).value;
              && bye == old(bye) + (if dec.retire then [entry.input] else [])
              && Prepared(conf, dec.record) == Ok(cache[name].input)
              && cache == old(cache)[name := cache[name]]
              && Kind(cache[name].input).Ok? && HeldId(cache[name].output).Ok?
              && held == Hold(old(held), Kind(cache[name].input).value, HeldId(cache[name].output).value))
    {
      var env := Env(params, Some({}), Some([]));
      var t := Traverse(spec, true, env);
      if t.Err? {
        return Err(t.error);
      }
      var (c, e) := t.value;
      TraverseGrows(spec, true, env);
      params := e.params;
      if Waiting(e) {
        return Ok(false);
      }
      if !c.Dict? {
        return Err(TypeError);
      }
      var hash :- MakeHash(c.fields, e.files.value, disk, sha);
      var conf := Put(c.fields, "$hash", HashValue(hash));
      var u := UpdateCache(name, conf, hash);
      if u.Err? {
        return Err(u.error);
      }
      var (out, recorded) := u.value;
      assert Lookup(cache[name].input, "ID") == Lookup(recorded, "ID") by {
        RecordedId(CacheEntry(old(cache), name), conf, hash, cache[name], recorded);
      }
      params := ApplyOutput(params, Flatten(out, name));
      var id :- Index(recorded, "ID");
      params := params[name := id];
      r := Ok(true);
    }

    /** `deleteResource(conf, path)`: the deletion calls, then the cache
        entry is dropped. */
    method DeleteResource(conf: seq<Field>, name: Option<string>) returns (r: Result<()>)
      modifies this
      ensures params == old(params) && bye == old(bye) && held == old(held)
      ensures old(log) <= log
      ensures r.Err? ==> cache == old(cache)
      ensures r.Ok? ==> DeleteRequests(conf).Ok? && log == old(log) + DeleteRequests(conf).value
      ensures r.Ok? ==> cache == if name.Some? then old(cache) - {name.value} else old(cache)
    {
      var reqs :- DeleteRequests(conf);
      var sent := SendAll(reqs);
      if sent.Err? {
        return Err(sent.error);
      }
      if name.Some? {
        cache := cache - {name.value};
      }
      r := Ok(());
    }

    /** The calls, one after the other, until one fails. */
    method SendAll(reqs: seq<Request>) returns (r: Result<()>)
      modifies this
      ensures params == old(params) && cache == old(cache) && bye == old(bye) && held == old(held)
      ensures old(log) <= log
      ensures r.Ok? ==> log == old(log) + reqs
    {
      var i := 0;
      while i < |reqs|
        invariant 0 <= i <= |reqs|
        invariant params == old(params) && cache == old(cache) && bye == old(bye) && held == old(held)
        invariant log == old(log) + reqs[..i]
      {
        var reply := Call(reqs[i]);
        if reply.Failed? {
          return Err(CallFailed(reply.stderr));
        }
        assert reqs[..i + 1] == reqs[..i] + [reqs[i]];
        i := i + 1;
      }
      assert reqs[..i] == reqs;
      r := Ok(());
    }

    /** The deletions of `clean(used, hold)`: the retired specs newest
        first, then every cache entry whose name is not in `used`, in some
        order (`stale`); afterwards the cache keeps only its entries whose
        names are used, unchanged. */
    method Clean(used: set<string>) returns (r: Result<()>, ghost stale: seq<string>)
      modifies this
      ensures params == old(params) && bye == old(bye) && held == old(held)
      ensures old(log) <= log
      ensures r.Ok? ==> (set n | n in stale) == old(cache).Keys - used && Distinct(stale)
      ensures r.Ok? ==> RetireRequests(old(bye)).Ok? && StaleRequests(old(cache), stale).Ok?
      ensures r.Ok? ==> log == old(log) + RetireRequests(old(bye)).value + StaleRequests(old(cache), stale).value
      ensures r.Ok? ==> cache == old(cache) - (old(cache).Keys - used)
    {
      stale := [];
      var a := DeleteRetired();
      if a.Err? {
        return Err(a.error), stale;
      }
      r, stale := DeleteStale(used);
    }

    /** `for conf in hold['$bye'][::-1]: deleteResource(conf)` */
    method DeleteRetired() returns (r: Result<()>)
      modifies this
      ensures params == old(params) && cache == old(cache) && bye == old(bye) && held == old(held)
      ensures old(log) <= log
      ensures r.Ok? ==> RetireRequests(bye).Ok? && log == old(log) + RetireRequests(bye).value
    {
      var i := |bye|;
      assert bye[i..] == [];
      assert log[|old(log)|..] == [];
      while i > 0
        invariant 0 <= i <= |bye|
        invariant params == old(params) && cache == old(cache) && bye == old(bye) && held == old(held)
        invariant old(log) <= log
        invariant RetireRequests(bye[i..]) == Ok(log[|old(log)|..])
      {
        ghost var done := log[|old(log)|..];
        ghost var l0 := log;
        var d := DeleteResource(bye[i - 1], None);
        if d.Err? {
          return Err(d.error);
        }
        ghost var reqs := DeleteRequests(bye[i - 1]).value;
        SuffixAppend(old(log), l0, reqs);
        RetireStep(bye, i, done, reqs);
        i := i - 1;
      }
      assert bye[0..] == bye;
      r := Ok(());
    }

    /** The cache entries not in `used`, each deleted with its cached spec
        and then dropped, in some order (`stale`). */
    method DeleteStale(used: set<string>) returns (r: Result<()>, stale: seq<string>)
      modifies this
      ensures params == old(params) && bye == old(bye) && held == old(held)
      ensures old(log) <= log
      ensures (set n | n in stale) == old(cache).Keys - used && Distinct(stale)
      ensures r.Ok? ==> StaleRequests(old(cache), stale) == Ok(log[|old(log)|..])
      ensures r.Ok? ==> cache == old(cache) - (old(cache).Keys - used)
    {
      var c0 := cache;
      stale := Elements(c0.Keys - used);
      var i := 0;
      ghost var sent: seq<Request> := [];
      ghost var gone: set<string> := {};
      while i < |stale|
        invariant 0 <= i <= |stale|
        invariant params == old(params) && bye == old(bye) && held == old(held)
        invariant log == old(log) + sent
        invariant (set m | m in stale) == c0.Keys - used && Distinct(stale)
        invariant gone == set m | m in stale[..i]
        invariant cache == c0 - gone
        invariant StaleRequests(c0, stale[..i]) == Ok(sent)
      {
        var n := stale[i];
        StaleNext(stale, i, c0.Keys - used);
        ghost var more;
        var d;
        d, more := DeleteEntry(n, c0, gone, stale[..i], stale[..i + 1], sent);
        if d.Err? {
          return Err(d.error), stale;
        }
        SetSnoc(stale[..i], n);
        AppendAssoc(old(log), sent, more);
        sent := sent + more;
        gone := gone + {n};
        i := i + 1;
      }
      assert stale[..i] == stale;
      assert log[|old(log)|..] == sent;
      assert gone == c0.Keys - used;
      r := Ok(());
    }

    /** One step of the second loop of `clean`: the entry `n` of the
        listing `c0` deleted and its cache entry dropped; its calls extend
        those of the names deleted before it. */
    method DeleteEntry(n: string, c0: map<string, Entry>, ghost gone: set<string>,
                       ghost names: seq<string>, ghost next: seq<string>, ghost done: seq<Request>)
        returns (r: Result<()>, ghost more: seq<Request>)
      modifies this
      requires n in c0 && n !in gone && cache == c0 - gone
      requires next == names + [n] && StaleRequests(c0, names) == Ok(done)
      ensures params == old(params) && bye == old(bye) && held == old(held)
      ensures log == old(log) + more
      ensures r.Ok? ==> cache == c0 - (gone + {n})
      ensures r.Ok? ==> StaleRequests(c0, next) == Ok(done + more)
    {
      DropOne(c0, gone, n);
      var d := DeleteResource(c0[n].input, Some(n));
      more := log[|old(log)|..];
      if d.Err? {
        return Err(d.error), more;
      }
      StaleStep(c0, names, n, done, more);
      r := Ok(());
    }
  }

  /** The next stale name is a cache entry not yet deleted. */
  lemma StaleNext(stale: seq<string>, i: int, names: set<string>)
    requires 0 <= i < |stale| && (set m | m in stale) == names && Distinct(stale)
    ensures stale[i] in names && stale[i] !in (set m | m in stale[..i])
    ensures stale[..i + 1] == stale[..i] + [stale[i]]
  {
    forall j | 0 <= j < i ensures stale[..i][j] != stale[i] {
      assert stale[..i][j] == stale[j];
    }
  }

  lemma SetSnoc(xs: seq<string>, x: string)
    ensures (set m | m in xs + [x]) == (set m | m in xs) + {x}
  {
  }

  lemma DropOne(c: map<string, Entry>, gone: set<string>, n: string)
    ensures c - gone - {n} == c - (gone + {n})
  {
  }

  lemma SnocTwice(l: seq<Request>, x: Request, y: Request)
    ensures l + [x] + [y] == l + [x, y]
  {
  }

  /** Three stages that extend the log one after the other extend it by
      the calls of the plan. */
  lemma PlanLog(p: BindPlan, removed: seq<seq<Value>>, added: seq<seq<Value>>, updated: seq<seq<Value>>,
                l0: seq<Request>, l1: seq<Request>, l2: seq<Request>, l3: seq<Request>)
    requires l0 <= l1 <= l2 <= l3
    requires StageRequests(p, Removing, removed) == Ok(l1[|l0|..])
    requires StageRequests(p, Adding, added) == Ok(l2[|l1|..])
    requires StageRequests(p, Updating, updated) == Ok(l3[|l2|..])
    ensures PlanRequests(p, removed, added, updated) == Ok(l1[|l0|..] + l2[|l1|..] + l3[|l2|..])
    ensures l3 == l0 + (l1[|l0|..] + l2[|l1|..] + l3[|l2|..])
  {
    ExtendsThrice(l0, l1, l2, l3);
  }

  /** A log extended three times is the first log and the three new parts. */
  lemma ExtendsThrice<T>(l0: seq<T>, l1: seq<T>, l2: seq<T>, l3: seq<T>)
    requires l0 <= l1 <= l2 <= l3
    ensures l3 == l0 + (l1[|l0|..] + l2[|l1|..] + l3[|l2|..])
  {
    assert l1 == l0 + l1[|l0|..];
    assert l2 == l1 + l2[|l1|..];
    assert l3 == l2 + l3[|l2|..];
  }

  /** Appending to a log appends to every suffix of it. */
  lemma SuffixAppend(base: seq<Request>, l: seq<Request>, xs: seq<Request>)
    requires |base| <= |l|
    ensures (l + xs)[|base|..] == l[|base|..] + xs
  {
  }

  lemma AppendAssoc(a: seq<Request>, b: seq<Request>, c: seq<Request>)
    ensures a + b + c == a + (b + c)
  {
  }

  /** The members of a set, each once, in some order. */
  method Elements(s: set<string>) returns (xs: seq<string>)
    ensures (set x | x in xs) == s && Distinct(xs)
  {
    xs := [];
    var todo := s;
    while todo != {}
      invariant todo <= s
      invariant (set x | x in xs) == s - todo
      invariant Distinct(xs)
      decreases |todo|
    {
      var x :| x in todo;
      assert (set y | y in xs + [x]) == (set y | y in xs) + {x};
      xs := xs + [x];
      todo := todo - {x};
    }
  }

  /** The ID of the entry `updateCache` leaves in the cache is the ID of the
      spec it returns. */
  lemma RecordedId(entry: Entry, conf: seq<Field>, hash: seq<Digest>, written: Entry, recorded: seq<Field>)
    requires Decide(entry.input, conf, hash).Ok?
    requires Decide(entry.input, conf, hash).value.Unchanged? ==> written == entry && recorded == Put(conf, "ID", Decide(entry.input, conf, hash).value.id)
    requires Decide(entry.input, conf, hash).value.Apply? ==> written.input == recorded
    ensures Lookup(written.input, "ID") == Lookup(recorded, "ID")
  {
  }
}
