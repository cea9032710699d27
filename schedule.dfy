/** The two drivers: `make` deploys the resources of a template in
    dependency order and then cleans up, `remove` deletes them so that a
    resource goes only after every resource that refers to it. */
module Schedule {
  import opened Values
  import opened Template
  import opened Materialize
  import opened Reconcile

  /** Each resource name with the root names its spec still refers to. */
  type Deps = map<string, set<string>>

  /** `makeDepend` of each spec in template order, the parameters each
      run registers carried on to the next. */
  function CollectDeps(specs: seq<Field>, params: map<string, Value>): (r: Result<(Deps, map<string, Value>)>)
    decreases |specs|
    ensures r.Ok? ==> r.value.0.Keys == KeySet(specs)
    ensures r.Ok? ==> forall n, d :: n in r.value.0 && d in r.value.0[n] ==> d in params && '.' !in d
    ensures r.Ok? ==> params.Keys <= r.value.1.Keys
    ensures r.Ok? ==> forall k :: k in params && params[k] != Null ==> r.value.1[k] == params[k]
    ensures r.Ok? ==> forall k :: k in r.value.1 && k !in params ==> '.' in k
  {
    if specs == [] then Ok((map[], params))
    else
      var (deps, p) :- CollectDeps(specs[..|specs| - 1], params);
      var last := specs[|specs| - 1];
      var (ds, p') :- MakeDepend(last.val, p);
      KeySetSnoc(specs);
      Ok((deps[last.key := ds], p'))
  }

  /** The names some spec refers to. */
  function Targets(deps: Deps): set<string> {
    set n, x | n in deps && x in deps[n] :: x
  }

  /** The `kick` table: every name referred to, with the specs that refer
      to it. */
  function KickOf(deps: Deps): (r: map<string, set<string>>)
    ensures forall x, n :: n in deps && x in deps[n] ==> x in r && n in r[x]
    ensures forall x, n :: x in r && n in r[x] ==> n in deps && x in deps[n]
  {
    map x | x in Targets(deps) :: set n | n in deps && x in deps[n]
  }


  /** `Counter.subtract`: one off the count of each name in `xs`. */
  function Subtract(deg: map<string, int>, xs: set<string>): (r: map<string, int>)
    ensures r.Keys == deg.Keys
  {
    map x | x in deg :: if x in xs then deg[x] - 1 else deg[x]
  }

  /** The names of `xs` whose count is zero. */
  function Ready(deg: map<string, int>, xs: set<string>): set<string> {
    set x | x in xs && x in deg && deg[x] == 0
  }

  lemma CardStep(s: set<string>, gone: set<string>, n: string)
    requires n in s && n !in gone
    ensures |s - (gone + {n})| == |s - gone| - 1
  {
    assert s - gone == (s - (gone + {n})) + {n};
  }

  /** `rank` numbers the names parsed with success in the order they
      succeeded, and every name a spec refers to succeeded before it. */
  predicate Ranked(deps: Deps, done: set<string>, rank: map<string, nat>) {
    && done <= deps.Keys && rank.Keys == done
    && (forall n :: n in done ==> rank[n] < |done|)
    && (forall n, d :: n in done && d in deps[n] ==> d in done && rank[d] < rank[n])
  }

  /** The state of `make`'s loop. `done` are the names parsed with success,
      `tried` all names parsed so far; `deg` counts the names each spec
      still waits for; `kick` is the table of the names not yet parsed with
      success; `work` holds specs that wait for nothing and were not parsed
      yet; every other unparsed spec still waits for something. */
  predicate MakeLoop(deps: Deps, work: set<string>, deg: map<string, int>, kick: map<string, set<string>>,
                     done: set<string>, tried: set<string>, rank: map<string, nat>) {
    && deg.Keys == deps.Keys
    && (forall n :: n in deps ==> deg[n] == |deps[n] - done|)
    && kick == KickOf(deps) - done
    && work <= deps.Keys && work * tried == {}
    && (forall n :: n in work ==> deps[n] <= done)
    && done <= tried <= deps.Keys
    && (forall n :: n in tried ==> deps[n] <= done)
    && Ranked(deps, done, rank)
    && (forall n :: n in deps && n !in work && n !in tried ==> !(deps[n] <= done))
  }

  lemma MakeStart(deps: Deps)
    ensures MakeLoop(deps, set n | n in deps && deps[n] == {}, map n | n in deps :: |deps[n]|,
                     KickOf(deps), {}, {}, map[])
  {
  }

  /** How one answer of `parse` moves `work`, `deg` and `kick`. */
  function Advance(work: set<string>, deg: map<string, int>, kick: map<string, set<string>>, name: string,
                   ok: bool): (set<string>, map<string, int>, map<string, set<string>>) {
    if ok then
      var deg' := Subtract(deg, Dependents(kick, name));
      (work - {name} + Ready(deg', Dependents(kick, name)), deg', kick - {name})
    else (work - {name}, deg, kick)
  }

  /** A spec parsed without success: it counts as tried, nothing else
      moves. */
  lemma MakeWait(deps: Deps, work: set<string>, deg: map<string, int>, kick: map<string, set<string>>,
                 done: set<string>, tried: set<string>, rank: map<string, nat>, name: string)
    requires MakeLoop(deps, work, deg, kick, done, tried, rank) && name in work
    ensures var next := Advance(work, deg, kick, name, false);
      MakeLoop(deps, next.0, next.1, next.2, done, tried + {name}, rank)
  {
  }

  /** One answer of `parse` for a name taken from `work` keeps the
      scheduler's state. */
  lemma AdvanceStep(deps: Deps, work: set<string>, deg: map<string, int>, kick: map<string, set<string>>,
                    done: set<string>, tried: set<string>, rank: map<string, nat>, name: string, ok: bool)
    requires MakeLoop(deps, work, deg, kick, done, tried, rank) && name in work
    ensures ok ==> var next := Advance(work, deg, kick, name, ok);
      MakeLoop(deps, next.0, next.1, next.2, done + {name}, tried + {name}, rank[name := |done|])
    ensures !ok ==> var next := Advance(work, deg, kick, name, ok);
      MakeLoop(deps, next.0, next.1, next.2, done, tried + {name}, rank)
  {
    if ok {
      MakeAdvance(deps, work, deg, kick, done, tried, rank, name);
    } else {
      MakeWait(deps, work, deg, kick, done, tried, rank, name);
    }
  }

  /** The row `kick` holds for a name not yet parsed with success is the
      set of specs that refer to it. */
  lemma KickRow(deps: Deps, kick: map<string, set<string>>, done: set<string>, name: string)
    requires kick == KickOf(deps) - done && name !in done
    ensures var dependents := Dependents(kick, name);
      dependents <= deps.Keys && forall x :: x in deps ==> (x in dependents <==> name in deps[x])
  {
  }

  /** After `deg.subtract(kick[name])` each count is again the number of
      names its spec waits for. */
  lemma DegStep(deps: Deps, deg: map<string, int>, done: set<string>, name: string, dependents: set<string>)
    requires deg.Keys == deps.Keys && forall n :: n in deps ==> deg[n] == |deps[n] - done|
    requires name !in done && forall x :: x in deps ==> (x in dependents <==> name in deps[x])
    ensures forall n :: n in deps ==> Subtract(deg, dependents)[n] == |deps[n] - (done + {name})|
  {
    forall n | n in deps ensures Subtract(deg, dependents)[n] == |deps[n] - (done + {name})| {
      if name in deps[n] {
        CardStep(deps[n], done, name);
      } else {
        assert deps[n] - (done + {name}) == deps[n] - done;
      }
    }
  }

  /** The row `kick` holds for `name`: the specs still waiting for it. */
  function Dependents(kick: map<string, set<string>>, name: string): set<string> {
    if name in kick then kick[name] else {}
  }

  /** After `deg.subtract(kick[name])` each count is again the number of
      names its spec waits for. */
  lemma AdvanceDeg(deps: Deps, deg: map<string, int>, kick: map<string, set<string>>, done: set<string>, name: string)
    requires deg.Keys == deps.Keys && forall n :: n in deps ==> deg[n] == |deps[n] - done|
    requires kick == KickOf(deps) - done && name !in done
    ensures forall n :: n in deps ==> Subtract(deg, Dependents(kick, name))[n] == |deps[n] - (done + {name})|
  {
    KickRow(deps, kick, done, name);
    DegStep(deps, deg, done, name, Dependents(kick, name));
  }

  /** A spec whose count drops to zero waits for nothing and was never
      parsed, since it referred to `name`, which had not succeeded. */
  lemma ReadyFresh(deps: Deps, deg: map<string, int>, kick: map<string, set<string>>, done: set<string>,
                   tried: set<string>, name: string)
    requires deg.Keys == deps.Keys && forall n :: n in deps ==> deg[n] == |deps[n] - done|
    requires kick == KickOf(deps) - done && name !in done
    requires tried <= deps.Keys && forall n :: n in tried ==> deps[n] <= done
    ensures var ready := Ready(Subtract(deg, Dependents(kick, name)), Dependents(kick, name));
      ready <= deps.Keys && ready * tried == {} && forall n :: n in ready ==> deps[n] <= done + {name}
  {
    var dependents := Dependents(kick, name);
    var deg' := Subtract(deg, dependents);
    KickRow(deps, kick, done, name);
    AdvanceDeg(deps, deg, kick, done, name);
    forall n | n in Ready(deg', dependents) ensures n in deps && n !in tried && deps[n] <= done + {name} {
      assert deps[n] - (done + {name}) == {};
      assert name in deps[n];
    }
  }

  /** The new `work`: what stays of the old one and the specs just ready. */
  lemma AdvanceWork(deps: Deps, work: set<string>, deg: map<string, int>, kick: map<string, set<string>>,
                    done: set<string>, tried: set<string>, rank: map<string, nat>, name: string)
    requires MakeLoop(deps, work, deg, kick, done, tried, rank) && name in work
    ensures var work' := work - {name} + Ready(Subtract(deg, Dependents(kick, name)), Dependents(kick, name));
      && work' <= deps.Keys && work' * (tried + {name}) == {}
      && forall n :: n in work' ==> deps[n] <= done + {name}
  {
    ReadyFresh(deps, deg, kick, done, tried, name);
  }

  /** A spec that is neither parsed nor ready after the step still waits
      for something. */
  lemma StillWaiting(deps: Deps, work: set<string>, deg: map<string, int>, kick: map<string, set<string>>,
                     done: set<string>, tried: set<string>, name: string)
    requires deg.Keys == deps.Keys && forall n :: n in deps ==> deg[n] == |deps[n] - done|
    requires kick == KickOf(deps) - done && name !in done
    requires forall n :: n in deps && n !in work && n !in tried ==> !(deps[n] <= done)
    ensures var work' := work - {name} + Ready(Subtract(deg, Dependents(kick, name)), Dependents(kick, name));
      forall n :: n in deps && n !in work' && n !in tried + {name} ==> !(deps[n] <= done + {name})
  {
    KickRow(deps, kick, done, name);
    AdvanceDeg(deps, deg, kick, done, name);
    WaitingAfter(deps, work, Subtract(deg, Dependents(kick, name)), done, tried, name, Dependents(kick, name));
  }

  lemma WaitingAfter(deps: Deps, work: set<string>, deg': map<string, int>, done: set<string>, tried: set<string>,
                     name: string, dependents: set<string>)
    requires deg'.Keys == deps.Keys && forall n :: n in deps ==> deg'[n] == |deps[n] - (done + {name})|
    requires forall x :: x in deps ==> (x in dependents <==> name in deps[x])
    requires forall n :: n in deps && n !in work && n !in tried ==> !(deps[n] <= done)
    ensures forall n :: n in deps && n !in work - {name} + Ready(deg', dependents) && n !in tried + {name} ==>
      !(deps[n] <= done + {name})
  {
    forall n | n in deps && n !in work - {name} + Ready(deg', dependents) && n !in tried + {name}
      ensures !(deps[n] <= done + {name})
    {
      if name in deps[n] {
        assert n in dependents && deg'[n] != 0;
        assert deps[n] - (done + {name}) != {};
      } else {
        assert deps[n] - (done + {name}) == deps[n] - done;
      }
    }
  }

  /** Every name parsed so far still waits for nothing once `name` succeeds. */
  lemma TriedStep(deps: Deps, done: set<string>, tried: set<string>, name: string)
    requires name in deps && deps[name] <= done && tried <= deps.Keys && forall n :: n in tried ==> deps[n] <= done
    ensures forall n :: n in tried + {name} ==> deps[n] <= done + {name}
  {
  }

  /** The name that succeeds takes the next rank. */
  lemma RankSnoc(deps: Deps, done: set<string>, rank: map<string, nat>, name: string)
    requires Ranked(deps, done, rank) && name in deps && name !in done && deps[name] <= done
    ensures Ranked(deps, done + {name}, rank[name := |done|])
  {
    var rank' := rank[name := |done|];
    forall n, d | n in done + {name} && d in deps[n] ensures d in done + {name} && rank'[d] < rank'[n] {
      if n == name {
        assert d in done && d != name;
      } else {
        assert n in done;
      }
    }
  }

  lemma KickDrop(k: map<string, set<string>>, gone: set<string>, n: string)
    ensures k - gone - {n} == k - (gone + {n})
  {
  }

  /** A spec parsed with success: the specs that refer to it wait for one
      name fewer, those that now wait for nothing join `work`, its row
      leaves `kick`, and it takes the next rank. */
  lemma MakeAdvance(deps: Deps, work: set<string>, deg: map<string, int>, kick: map<string, set<string>>,
                    done: set<string>, tried: set<string>, rank: map<string, nat>, name: string)
    requires MakeLoop(deps, work, deg, kick, done, tried, rank) && name in work
    ensures var next := Advance(work, deg, kick, name, true);
      MakeLoop(deps, next.0, next.1, next.2, done + {name}, tried + {name}, rank[name := |done|])
  {
    assert name !in done;
    AdvanceDeg(deps, deg, kick, done, name);
    AdvanceWork(deps, work, deg, kick, done, tried, rank, name);
    StillWaiting(deps, work, deg, kick, done, tried, name);
    TriedStep(deps, done, tried, name);
    RankSnoc(deps, done, rank, name);
    KickDrop(KickOf(deps), done, name);
  }

  /** One call `parse(name, spec)` of `make`'s loop: the name, its answer,
      and the parameters before and after the call. */
  datatype Parsed = Parsed(name: string, ok: bool, before: map<string, Value>, after: map<string, Value>)

  /** The names parsed. */
  function TraceNames(trace: seq<Parsed>): set<string>
    decreases |trace|
  {
    if trace == [] then {} else TraceNames(trace[..|trace| - 1]) + {trace[|trace| - 1].name}
  }

  /** The names parsed with success. */
  function TraceDone(trace: seq<Parsed>): set<string>
    decreases |trace|
  {
    if trace == [] then {}
    else TraceDone(trace[..|trace| - 1]) + if trace[|trace| - 1].ok then {trace[|trace| - 1].name} else {}
  }

  /** No name is parsed twice. */
  predicate Once(trace: seq<Parsed>)
    decreases |trace|
  {
    trace == [] || (Once(trace[..|trace| - 1]) && trace[|trace| - 1].name !in TraceNames(trace[..|trace| - 1]))
  }

  /** Every call parses a spec whose references all succeeded in earlier
      calls. */
  predicate InOrder(deps: Deps, trace: seq<Parsed>)
    decreases |trace|
  {
    trace == [] ||
      var last := trace[|trace| - 1];
      InOrder(deps, trace[..|trace| - 1]) && last.name in deps && deps[last.name] <= TraceDone(trace[..|trace| - 1])
  }

  /** Each call starts from the parameters the one before left, the first
      from `first`, and the last leaves `last`. */
  predicate Chained(first: map<string, Value>, trace: seq<Parsed>, last: map<string, Value>)
    decreases |trace|
  {
    if trace == [] then first == last
    else Chained(first, trace[..|trace| - 1], trace[|trace| - 1].before) && trace[|trace| - 1].after == last
  }

  /** The answer `parse` gives for `spec`: false exactly when the dry
      substitution from the parameters before the call still waits for a
      reference, the parameters then being those it registered; a success
      gives the resource's name a parameter. */
  predicate Answered(spec: Value, p: Parsed) {
    var t := Traverse(spec, true, Env(p.before, Some({}), Some([])));
    && t.Ok?
    && (p.ok <==> !Waiting(t.value.1))
    && (!p.ok ==> p.after == t.value.1.params)
    && (p.ok ==> p.before.Keys + {p.name} <= p.after.Keys)
  }

  /** Every call of the trace answered as `parse` does for its spec. */
  predicate AllAnswered(specs: map<string, Value>, trace: seq<Parsed>)
    decreases |trace|
  {
    trace == [] ||
      var last := trace[|trace| - 1];
      AllAnswered(specs, trace[..|trace| - 1]) && last.name in specs && Answered(specs[last.name], last)
  }

  /** The cache records a successful call's resource with the ID its name
      took in that call. */
  predicate Recorded(cache: map<string, Entry>, p: Parsed) {
    p.ok ==> p.name in cache && p.name in p.after && Lookup(cache[p.name].input, "ID") == Some(p.after[p.name])
  }

  /** The cache records every successful call of the trace. */
  predicate AllRecorded(cache: map<string, Entry>, trace: seq<Parsed>)
    decreases |trace|
  {
    trace == [] || (AllRecorded(cache, trace[..|trace| - 1]) && Recorded(cache, trace[|trace| - 1]))
  }

  /** What `make`'s loop has done so far: `trace` lists its calls, each
      name once and after all its references succeeded, each answer as
      `parse` gives it, from the parameters `first` on to `params`; the
      cache, `cache0` before the loop, has gained exactly the names
      parsed with success, each recording the ID its name took, and keeps
      every other entry. */
  predicate Traced(deps: Deps, specs: map<string, Value>, first: map<string, Value>, cache0: map<string, Entry>,
                   trace: seq<Parsed>, params: map<string, Value>, cache: map<string, Entry>) {
    Calls(deps, specs, first, trace, params) && Cached(cache0, trace, cache)
  }

  /** The calls of the trace: each name once, after its references
      succeeded, answered as `parse` does, from `first` on to `params`. */
  predicate Calls(deps: Deps, specs: map<string, Value>, first: map<string, Value>, trace: seq<Parsed>,
                  params: map<string, Value>) {
    Once(trace) && InOrder(deps, trace) && Chained(first, trace, params) && AllAnswered(specs, trace)
  }

  /** The cache after the calls of the trace, `cache0` before them. */
  predicate Cached(cache0: map<string, Entry>, trace: seq<Parsed>, cache: map<string, Entry>) {
    && AllRecorded(cache, trace)
    && cache.Keys == cache0.Keys + TraceDone(trace)
    && (forall n :: n in cache0 && n !in TraceDone(trace) ==> cache[n] == cache0[n])
  }

  /** `clean` keeps the records of the calls of the trace when it keeps
      their names. */
  lemma {:induction false} RecordedClean(cache: map<string, Entry>, trace: seq<Parsed>, used: set<string>)
    requires AllRecorded(cache, trace) && TraceNames(trace) <= used
    ensures AllRecorded(cache - (cache.Keys - used), trace)
    decreases |trace|
  {
    if trace != [] {
      RecordedClean(cache, trace[..|trace| - 1], used);
    }
  }

  /** One call of `parse` in `make`'s loop, recorded in the trace. */
  method ParseStep(e: Engine, name: string, spec: Value) returns (r: Result<bool>, ghost p: Parsed)
    modifies e
    ensures old(e.log) <= e.log
    ensures r.Ok? ==> p.name == name && p.ok == r.value && p.before == old(e.params) && p.after == e.params
    ensures r.Ok? ==> Answered(spec, p) && Recorded(e.cache, p)
    ensures r.Ok? ==> e.cache.Keys == old(e.cache).Keys + (if r.value then {name} else {})
    ensures r.Ok? ==> forall n :: n in old(e.cache) && n != name ==> e.cache[n] == old(e.cache)[n]
    ensures r.Ok? && !r.value ==> e.cache == old(e.cache)
  {
    ghost var before := e.params;
    r := e.Parse(name, spec);
    p := Parsed(name, r.Ok? && r.value, before, e.params);
  }

  /** The records of calls for other names survive a cache change that
      touches only one name. */
  lemma {:induction false} RecordedKept(cache0: map<string, Entry>, cache: map<string, Entry>, trace: seq<Parsed>, name: string)
    requires AllRecorded(cache0, trace) && name !in TraceNames(trace)
    requires cache0.Keys <= cache.Keys && forall n :: n in cache0 && n != name ==> cache[n] == cache0[n]
    ensures AllRecorded(cache, trace)
    decreases |trace|
  {
    if trace != [] {
      RecordedKept(cache0, cache, trace[..|trace| - 1], name);
    }
  }

  /** One more call of `parse`, for a name not parsed yet whose references
      all succeeded, keeps the trace. */
  lemma TracedStep(deps: Deps, specs: map<string, Value>, first: map<string, Value>, cache0: map<string, Entry>,
                   trace: seq<Parsed>, mid: map<string, Value>, cacheMid: map<string, Entry>, p: Parsed,
                   cache: map<string, Entry>)
    requires Traced(deps, specs, first, cache0, trace, mid, cacheMid)
    requires p.name in deps && deps[p.name] <= TraceDone(trace) && p.name !in TraceNames(trace)
    requires p.before == mid && p.name in specs && Answered(specs[p.name], p) && Recorded(cache, p)
    requires cache.Keys == cacheMid.Keys + (if p.ok then {p.name} else {})
    requires forall n :: n in cacheMid && n != p.name ==> cache[n] == cacheMid[n]
    requires !p.ok ==> cache == cacheMid
    ensures Traced(deps, specs, first, cache0, trace + [p], p.after, cache)
    ensures TraceNames(trace + [p]) == TraceNames(trace) + {p.name}
    ensures p.ok ==> TraceDone(trace + [p]) == TraceDone(trace) + {p.name}
    ensures !p.ok ==> TraceDone(trace + [p]) == TraceDone(trace)
  {
    var t := trace + [p];
    assert t[..|t| - 1] == trace && t[|t| - 1] == p;
    RecordedKept(cacheMid, cache, trace, p.name);
    forall n | n in cache0 && n !in TraceDone(t) ensures cache[n] == cache0[n] {
      assert n !in TraceDone(trace) && n in cacheMid && cacheMid[n] == cache0[n];
    }
  }

  /** No two calls of a trace that parses each name once share a name. */
  lemma {:induction false} OnceEach(trace: seq<Parsed>)
    requires Once(trace)
    ensures forall i, j :: 0 <= i < j < |trace| ==> trace[i].name != trace[j].name
    decreases |trace|
  {
    if trace != [] {
      var init := trace[..|trace| - 1];
      OnceEach(init);
      TraceNamesHas(init);
      assert forall i :: 0 <= i < |init| ==> trace[i] == init[i];
    }
  }

  /** A trace that parses each name once has as many calls as names. */
  lemma {:induction false} OnceCard(trace: seq<Parsed>)
    requires Once(trace)
    ensures |TraceNames(trace)| == |trace|
    decreases |trace|
  {
    if trace != [] {
      OnceCard(trace[..|trace| - 1]);
    }
  }

  /** Each call of an ordered trace comes after all its references
      succeeded in earlier calls. */
  lemma {:induction false} InOrderEach(deps: Deps, trace: seq<Parsed>)
    requires InOrder(deps, trace)
    ensures forall i :: 0 <= i < |trace| ==> trace[i].name in deps && deps[trace[i].name] <= TraceDone(trace[..i])
    decreases |trace|
  {
    if trace != [] {
      var init := trace[..|trace| - 1];
      InOrderEach(deps, init);
      assert forall i :: 0 <= i < |init| ==> trace[i] == init[i] && trace[..i] == init[..i];
      assert trace[..|init|] == init;
    }
  }

  /** Each call of the trace answered as `parse` does for its spec. */
  lemma {:induction false} AnsweredEach(specs: map<string, Value>, trace: seq<Parsed>)
    requires AllAnswered(specs, trace)
    ensures forall i :: 0 <= i < |trace| ==> trace[i].name in specs && Answered(specs[trace[i].name], trace[i])
    decreases |trace|
  {
    if trace != [] {
      var init := trace[..|trace| - 1];
      AnsweredEach(specs, init);
      assert forall i :: 0 <= i < |init| ==> trace[i] == init[i];
    }
  }

  /** Each call's name is in the trace's names. */
  lemma {:induction false} TraceNamesHas(trace: seq<Parsed>)
    ensures forall i :: 0 <= i < |trace| ==> trace[i].name in TraceNames(trace)
    decreases |trace|
  {
    if trace != [] {
      var init := trace[..|trace| - 1];
      TraceNamesHas(init);
      assert forall i :: 0 <= i < |init| ==> trace[i] == init[i];
    }
  }

  /** The cache records each successful call of the trace. */
  lemma {:induction false} RecordedEach(cache: map<string, Entry>, trace: seq<Parsed>)
    requires AllRecorded(cache, trace)
    ensures forall i :: 0 <= i < |trace| ==> Recorded(cache, trace[i])
    decreases |trace|
  {
    if trace != [] {
      var init := trace[..|trace| - 1];
      RecordedEach(cache, init);
      assert forall i :: 0 <= i < |init| ==> trace[i] == init[i];
    }
  }

  /** A chained trace starts from `first`, ends at `last`, and each call
      starts where the one before it ended. */
  lemma {:induction false} ChainedEach(first: map<string, Value>, trace: seq<Parsed>, last: map<string, Value>)
    requires Chained(first, trace, last)
    ensures trace == [] ==> first == last
    ensures trace != [] ==> trace[0].before == first && trace[|trace| - 1].after == last
    ensures forall i :: 0 <= i < |trace| - 1 ==> trace[i].after == trace[i + 1].before
    decreases |trace|
  {
    if trace != [] {
      var init := trace[..|trace| - 1];
      ChainedEach(first, init, trace[|trace| - 1].before);
      assert forall i :: 0 <= i < |init| ==> trace[i] == init[i];
    }
  }

  /** What `make` ends with: nothing waits, or the table of the names still
      referred to and never parsed with success. */
  datatype Outcome = Done | Zombi(waiting: map<string, set<string>>)

  /** The scheduler's state after the calls of `trace`: the names tried
      are those of the trace, the names done those it parsed with success,
      and the calls themselves are traced from `first` and `cache0` on to
      `params` and `cache`. */
  predicate Progress(deps: Deps, specs: map<string, Value>, first: map<string, Value>, cache0: map<string, Entry>,
                     work: set<string>, deg: map<string, int>, kick: map<string, set<string>>,
                     rank: map<string, nat>, trace: seq<Parsed>, params: map<string, Value>,
                     cache: map<string, Entry>) {
    && MakeLoop(deps, work, deg, kick, TraceDone(trace), TraceNames(trace), rank)
    && Traced(deps, specs, first, cache0, trace, params, cache)
  }

  /** One turn of `make`'s loop keeps its state: a name taken from `work`
      and parsed, with the answer and the cache `parse` leaves. */
  lemma ProgressStep(deps: Deps, specs: map<string, Value>, first: map<string, Value>, cache0: map<string, Entry>,
                     work: set<string>, deg: map<string, int>, kick: map<string, set<string>>,
                     rank: map<string, nat>, trace: seq<Parsed>, params: map<string, Value>,
                     cacheMid: map<string, Entry>, p: Parsed, cache: map<string, Entry>)
    requires deps.Keys == specs.Keys && p.name in work
    requires Progress(deps, specs, first, cache0, work, deg, kick, rank, trace, params, cacheMid)
    requires p.before == params && Answered(specs[p.name], p) && Recorded(cache, p)
    requires cache.Keys == cacheMid.Keys + (if p.ok then {p.name} else {})
    requires forall n :: n in cacheMid && n != p.name ==> cache[n] == cacheMid[n]
    requires !p.ok ==> cache == cacheMid
    ensures TraceNames(trace + [p]) == TraceNames(trace) + {p.name}
    ensures p.ok ==> var next := Advance(work, deg, kick, p.name, p.ok);
      Progress(deps, specs, first, cache0, next.0, next.1, next.2, rank[p.name := |TraceDone(trace)|], trace + [p],
               p.after, cache)
    ensures !p.ok ==> var next := Advance(work, deg, kick, p.name, p.ok);
      Progress(deps, specs, first, cache0, next.0, next.1, next.2, rank, trace + [p], p.after, cache)
  {
    TracedStep(deps, specs, first, cache0, trace, params, cacheMid, p, cache);
    AdvanceStep(deps, work, deg, kick, TraceDone(trace), TraceNames(trace), rank, p.name, p.ok);
  }

  /** Before the first call of `make`'s loop: every spec waiting for
      nothing in `work`, the full table in `kick`, an empty trace. */
  lemma ProgressStart(deps: Deps, specs: map<string, Value>, first: map<string, Value>, cache0: map<string, Entry>)
    ensures Progress(deps, specs, first, cache0, set n | n in deps && deps[n] == {}, map n | n in deps :: |deps[n]|,
                     KickOf(deps), map[], [], first, cache0)
  {
    MakeStart(deps);
  }

  /** One turn of `make`'s loop: `parse` for a name taken from `work`,
      and the scheduler's state moved by its answer. */
  method Turn(e: Engine, deps: Deps, specs: map<string, Value>, work: set<string>, deg: map<string, int>,
              kick: map<string, set<string>>, name: string, ghost rank: map<string, nat>, ghost trace: seq<Parsed>,
              ghost first: map<string, Value>, ghost cache0: map<string, Entry>)
    returns (ok: Result<bool>, work': set<string>, deg': map<string, int>, kick': map<string, set<string>>,
             ghost rank': map<string, nat>, ghost trace': seq<Parsed>)
    requires deps.Keys == specs.Keys && name in work
    requires Progress(deps, specs, first, cache0, work, deg, kick, rank, trace, e.params, e.cache)
    modifies e
    ensures old(e.log) <= e.log
    ensures ok.Ok? ==> TraceNames(trace') == TraceNames(trace) + {name}
    ensures ok.Ok? ==> Progress(deps, specs, first, cache0, work', deg', kick', rank', trace', e.params, e.cache)
  {
    ghost var params, cacheMid := e.params, e.cache;
    ghost var p;
    ok, p := ParseStep(e, name, specs[name]);
    work', deg', kick', rank', trace' := work, deg, kick, rank, trace;
    if ok.Err? {
      return;
    }
    ProgressStep(deps, specs, first, cache0, work, deg, kick, rank, trace, params, cacheMid, p, e.cache);
    var next := Advance(work, deg, kick, name, ok.value);
    work', deg', kick', trace' := next.0, next.1, next.2, trace + [p];
    if ok.value {
      rank' := rank[name := |TraceDone(trace)|];
    }
  }

  /** `make`'s loop over the specs of a template whose dependencies are
      `deps`: each spec parsed once it waits for nothing, until no spec is
      ready. `trace` lists the calls to `parse`; `kick` ends as the table
      of the names never parsed with success, and `rank` numbers those
      parsed with success in the order they succeeded. */
  method ParseReady(e: Engine, deps: Deps, specs: map<string, Value>)
    returns (r: Result<()>, kick: map<string, set<string>>, ghost rank: map<string, nat>, ghost trace: seq<Parsed>)
    requires deps.Keys == specs.Keys
    modifies e
    ensures old(e.log) <= e.log
    ensures r.Ok? ==> kick == KickOf(deps) - TraceDone(trace)
    ensures r.Ok? ==> TraceDone(trace) <= TraceNames(trace) <= deps.Keys && |TraceNames(trace)| == |trace|
    ensures r.Ok? ==> Ranked(deps, TraceDone(trace), rank)
    ensures r.Ok? ==> forall n :: n in TraceNames(trace) ==> deps[n] <= TraceDone(trace)
    ensures r.Ok? ==> forall n :: n in deps && deps[n] <= TraceDone(trace) ==> n in TraceNames(trace)
    ensures r.Ok? ==> Traced(deps, specs, old(e.params), old(e.cache), trace, e.params, e.cache)
  {
    rank, trace := map[], [];
    kick := KickOf(deps);
    var deg := map n | n in deps :: |deps[n]|;
    var work := set n | n in deps && deps[n] == {};
    ProgressStart(deps, specs, old(e.params), old(e.cache));
    while work != {}
      invariant Progress(deps, specs, old(e.params), old(e.cache), work, deg, kick, rank, trace, e.params, e.cache)
      invariant old(e.log) <= e.log
      decreases |deps.Keys - TraceNames(trace)|
    {
      var name :| name in work;
      CardStep(deps.Keys, TraceNames(trace), name);
      var ok;
      ok, work, deg, kick, rank, trace := Turn(e, deps, specs, work, deg, kick, name, rank, trace, old(e.params), old(e.cache));
      if ok.Err? {
        return Err(ok.error), kick, rank, trace;
      }
    }
    OnceCard(trace);
    r := Ok(());
  }

  /** `make(template)` on a loaded template: the dependencies of every spec
      first, then the specs parsed in dependency order, then `clean` with
      the resource names and the names still in `kick`. */
  method Make(e: Engine, template: Config)
    returns (r: Result<Outcome>, deps: Deps, ghost rank: map<string, nat>, ghost trace: seq<Parsed>)
    modifies e
    ensures r.Ok? ==> CollectDeps(template.specs, template.params).Ok?
    ensures r.Ok? ==> deps == CollectDeps(template.specs, template.params).value.0
    ensures r.Ok? ==> TraceDone(trace) <= TraceNames(trace) <= deps.Keys && |TraceNames(trace)| == |trace|
    ensures r.Ok? ==> Ranked(deps, TraceDone(trace), rank)
    ensures r.Ok? ==> forall n :: n in deps && deps[n] <= TraceDone(trace) ==> n in TraceNames(trace)
    ensures r.Ok? ==> var waiting := KickOf(deps) - TraceDone(trace);
      && r.value == (if waiting == map[] then Done else Zombi(waiting))
      && e.cache.Keys <= deps.Keys + waiting.Keys
    ensures r.Ok? ==> Calls(deps, ToMap(template.specs), CollectDeps(template.specs, template.params).value.1, trace,
                            e.params)
    ensures r.Ok? ==> AllRecorded(e.cache, trace)
  {
    rank, trace := map[], [];
    deps := map[];
    var collected := CollectDeps(template.specs, template.params);
    if collected.Err? {
      r := Err(collected.error);
    } else {
      deps := collected.value.0;
      e.params, e.bye, e.held := collected.value.1, [], map[];
      var run, kick;
      run, kick, rank, trace := ParseReady(e, deps, ToMap(template.specs));
      if run.Err? {
        r := Err(run.error);
      } else {
        RecordedClean(e.cache, trace, deps.Keys + kick.Keys);
        var c, _ := e.Clean(deps.Keys + kick.Keys);
        r := if c.Err? then Err(c.error) else Ok(if kick == map[] then Done else Zombi(kick));
      }
    }
  }

  /** No name on a cycle of references is ever parsed with success: of
      those that did, the one ranked first would refer to one ranked
      before it. */
  lemma CycleNeverDone(deps: Deps, done: set<string>, rank: map<string, nat>, cycle: set<string>)
    requires Ranked(deps, done, rank)
    requires forall n :: n in cycle ==> n in deps && deps[n] * cycle != {}
    ensures done * cycle == {}
  {
    if m :| m in done * cycle {
      CycleBelow(deps, done, rank, cycle, rank[m] + 1);
    }
  }

  lemma {:induction false} CycleBelow(deps: Deps, done: set<string>, rank: map<string, nat>, cycle: set<string>, k: nat)
    requires Ranked(deps, done, rank)
    requires forall n :: n in cycle ==> n in deps && deps[n] * cycle != {}
    ensures forall n :: n in done * cycle ==> rank[n] >= k
  {
    if k > 0 {
      CycleBelow(deps, done, rank, cycle, k - 1);
      forall n | n in done * cycle ensures rank[n] >= k {
        var d :| d in deps[n] * cycle;
        assert rank[d] >= k - 1;
      }
    }
  }

  /** The ID the cache records for a resource: a missing cache entry and a
      cached spec without `ID` are errors. */
  function CachedId(cache: map<string, Entry>, name: string): (r: Result<Value>)
    ensures r.Ok? <==> name in cache && Lookup(cache[name].input, "ID").Some?
    ensures r.Ok? ==> Lookup(cache[name].input, "ID") == Some(r.value)
  {
    if name !in cache then Err(FileNotFound(name)) else Index(cache[name].input, "ID")
  }

  /** The first loop of `remove`: every spec and the parameter of its name
      take the ID the cache records for it, in template order; the first
      spec without one, or that is not a mapping, stops it. The specs are
      stamped once the loop is through, since an error leaves no stamped
      spec behind. */
  method AssignIds(specs: seq<Field>, params: map<string, Value>, cache: map<string, Entry>)
    returns (r: Result<(seq<Field>, map<string, Value>)>)
    ensures r.Ok? <==> forall i :: 0 <= i < |specs| ==> specs[i].val.Dict? && CachedId(cache, specs[i].key).Ok?
    ensures r.Ok? ==> |r.value.0| == |specs| && forall i :: 0 <= i < |specs| ==>
      r.value.0[i] == Field(specs[i].key, Dict(Put(specs[i].val.fields, "ID", CachedId(cache, specs[i].key).value)))
    ensures r.Ok? ==> var ps := r.value.1;
      && ps.Keys == params.Keys + KeySet(specs)
      && forall k :: k in ps ==> ps[k] == if k in KeySet(specs) then CachedId(cache, k).value else params[k]
  {
    var ps := params;
    var i := 0;
    while i < |specs|
      invariant 0 <= i <= |specs|
      invariant forall j :: 0 <= j < i ==> specs[j].val.Dict? && CachedId(cache, specs[j].key).Ok?
      invariant ps.Keys == params.Keys + KeySet(specs[..i])
      invariant forall k :: k in ps ==> ps[k] == if k in KeySet(specs[..i]) then CachedId(cache, k).value else params[k]
    {
      var spec := specs[i];
      var id := CachedId(cache, spec.key);
      if id.Err? || !spec.val.Dict? {
        return if id.Err? then Err(id.error) else Err(TypeError);
      }
      assert KeySet(specs[..i + 1]) == KeySet(specs[..i]) + {spec.key} by {
        KeySetSnoc(specs[..i + 1]);
        assert specs[..i + 1][..i] == specs[..i];
      }
      ps := ps[spec.key := id.value];
      i := i + 1;
    }
    assert specs[..i] == specs;
    var out := seq(|specs|, j requires 0 <= j < |specs| =>
      Field(specs[j].key, Dict(Put(specs[j].val.fields, "ID", CachedId(cache, specs[j].key).value))));
    r := Ok((out, ps));
  }

  /** `rev` reads `deps` backwards: it has a row for every spec and for
      every name a spec refers to (a non-empty one for the latter), and `n`
      is in the row of `x` exactly when spec `n` refers to `x`. */
  predicate Reverses(deps: Deps, rev: Deps) {
    && deps.Keys <= rev.Keys
    && (forall x :: x in rev && x !in deps ==> rev[x] != {})
    && (forall x, n :: n in deps && x in deps[n] ==> x in rev && n in rev[x])
    && (forall x, n :: x in rev && n in rev[x] ==> n in deps && x in deps[n])
  }

  /** Every name a spec refers to, and every spec, with the specs that
      refer to it: `remove`'s view of `kick`, read backwards. */
  function Referrers(deps: Deps): (r: Deps)
    ensures Reverses(deps, r)
  {
    var r := map x | x in deps.Keys + Targets(deps) :: set n | n in deps && x in deps[n];
    assert forall x :: x in r && x !in deps ==> r[x] != {} by {
      forall x | x in r && x !in deps
        ensures r[x] != {}
      {
        var n :| n in deps && x in deps[n];
        assert n in r[x];
      }
    }
    r
  }

  /** `Counter`'s reading of a count: zero for a name it does not hold. */
  function Count(deg: map<string, int>, x: string): int {
    if x in deg then deg[x] else 0
  }

  /** The state of `remove`'s loop. `gone` are the specs deleted so far,
      numbered by `rank` in the order they went; every name's count is the
      number of specs still referring to it; `work` holds names nothing
      refers to any more that were not deleted yet; any other name not
      deleted is still referred to. */
  predicate RemoveLoop(deps: Deps, rev: Deps, work: set<string>, deg: map<string, int>,
                       gone: set<string>, rank: map<string, nat>) {
    && deg.Keys <= rev.Keys
    && (forall x :: x in rev ==> Count(deg, x) == |rev[x] - gone|)
    && work <= rev.Keys && work * gone == {}
    && (forall x :: x in work ==> rev[x] <= gone)
    && gone <= deps.Keys
    && Ranked(rev, gone, rank)
    && (forall x :: x in rev && x !in work && x !in gone ==> !(rev[x] <= gone))
  }

  /** `Counter(x for xs in kick.values() for x in xs)`: the number of specs
      referring to each name referred to. */
  function Tally(rev: Deps): (deg: map<string, int>)
    ensures deg.Keys <= rev.Keys
    ensures forall x :: x in rev ==> Count(deg, x) == |rev[x]|
  {
    map x | x in rev && rev[x] != {} :: |rev[x]|
  }

  lemma RemoveStart(deps: Deps, rev: Deps)
    requires deps.Keys <= rev.Keys && forall x :: x in rev && x !in deps ==> rev[x] != {}
    ensures RemoveLoop(deps, rev, deps.Keys - Tally(rev).Keys, Tally(rev), {}, map[])
  {
    TallyCounts(rev);
    TallyWork(deps, rev);
  }

  lemma TallyCounts(rev: Deps)
    ensures forall x :: x in rev ==> Count(Tally(rev), x) == |rev[x] - {}|
  {
    forall x | x in rev ensures Count(Tally(rev), x) == |rev[x] - {}| {
      assert rev[x] - {} == rev[x];
    }
  }

  /** At the start `work` holds the specs nothing refers to. */
  lemma TallyWork(deps: Deps, rev: Deps)
    requires deps.Keys <= rev.Keys && forall x :: x in rev && x !in deps ==> rev[x] != {}
    ensures var work := deps.Keys - Tally(rev).Keys;
      && (forall x :: x in work ==> rev[x] <= {})
      && forall x :: x in rev && x !in work && x !in {} ==> !(rev[x] <= {})
  {
    var work := deps.Keys - Tally(rev).Keys;
    forall x | x in work ensures rev[x] <= {} {
      assert rev[x] == {};
    }
    forall x | x in rev && x !in work && x !in {} ensures !(rev[x] <= {}) {
      assert rev[x] != {};
    }
  }

  /** After `deg.subtract(kick[name])` each count is again the number of
      specs still referring to its name. */
  lemma RemoveDeg(deps: Deps, rev: Deps, deg: map<string, int>, gone: set<string>, name: string)
    requires name in deps && name !in gone
    requires forall x :: x in rev ==> (name in rev[x] <==> x in deps[name])
    requires deps[name] <= rev.Keys
    requires deg.Keys <= rev.Keys && forall x :: x in rev ==> Count(deg, x) == |rev[x] - gone|
    ensures deps[name] <= deg.Keys && deps[name] <= Subtract(deg, deps[name]).Keys
    ensures forall x :: x in rev ==> Count(Subtract(deg, deps[name]), x) == |rev[x] - (gone + {name})|
  {
    forall x | x in deps[name] ensures x in deg {
      assert name in rev[x] - gone;
    }
    forall x | x in rev ensures Count(Subtract(deg, deps[name]), x) == |rev[x] - (gone + {name})| {
      if x in deps[name] {
        CardStep(rev[x], gone, name);
      } else {
        assert rev[x] - (gone + {name}) == rev[x] - gone;
      }
    }
  }

  lemma RankedClosed(deps: Deps, done: set<string>, rank: map<string, nat>, n: string, d: string)
    requires Ranked(deps, done, rank) && n in done && d in deps[n]
    ensures d in done
  {
  }

  /** A name whose count drops to zero is referred to by nothing left and
      was not deleted yet, since `name`, which refers to it, was not. */
  lemma ReadyAfterDelete(rev: Deps, deg': map<string, int>, gone: set<string>, rank: map<string, nat>,
                         name: string, targets: set<string>)
    requires name in rev && name !in gone && rev[name] <= gone && Ranked(rev, gone, rank)
    requires forall x :: x in rev ==> (name in rev[x] <==> x in targets)
    requires targets <= rev.Keys && forall x :: x in rev ==> Count(deg', x) == |rev[x] - (gone + {name})|
    ensures forall x :: x in Ready(deg', targets) ==> x in rev && x !in gone + {name} && rev[x] <= gone + {name}
  {
    forall x | x in Ready(deg', targets) ensures x in rev && x !in gone + {name} && rev[x] <= gone + {name} {
      assert rev[x] - (gone + {name}) == {};
      assert name in rev[x];
      if x in gone {
        RankedClosed(rev, gone, rank, x, name);
      }
    }
  }

  /** The new `work` of `remove`: what stays of the old one and the names
      whose last referring spec just went. */
  lemma WorkAfterDelete(rev: Deps, work: set<string>, deg': map<string, int>, gone: set<string>,
                        name: string, targets: set<string>)
    requires work <= rev.Keys && work * gone == {} && forall x :: x in work ==> rev[x] <= gone
    requires forall x :: x in Ready(deg', targets) ==> x in rev && x !in gone + {name} && rev[x] <= gone + {name}
    ensures var work' := work - {name} + Ready(deg', targets);
      && work' <= rev.Keys && work' * (gone + {name}) == {}
      && forall x :: x in work' ==> rev[x] <= gone + {name}
  {
  }

  /** A name neither deleted nor ready after the step is still referred to. */
  lemma WaitingAfterDelete(rev: Deps, work: set<string>, deg': map<string, int>, gone: set<string>,
                           name: string, targets: set<string>)
    requires forall x :: x in rev ==> (name in rev[x] <==> x in targets)
    requires targets <= deg'.Keys && forall x :: x in rev ==> Count(deg', x) == |rev[x] - (gone + {name})|
    requires forall x :: x in rev && x !in work && x !in gone ==> !(rev[x] <= gone)
    ensures forall x :: x in rev && x !in work - {name} + Ready(deg', targets) && x !in gone + {name} ==>
      !(rev[x] <= gone + {name})
  {
    forall x | x in rev && x !in work - {name} + Ready(deg', targets) && x !in gone + {name}
      ensures !(rev[x] <= gone + {name})
    {
      if x in targets {
        assert Count(deg', x) != 0;
        assert rev[x] - (gone + {name}) != {};
      } else {
        assert name !in rev[x];
        assert rev[x] - (gone + {name}) == rev[x] - gone;
      }
    }
  }

  /** The row of `Referrers` for a spec's own name: whatever it refers to. */
  lemma ReferrersRow(deps: Deps, rev: Deps, name: string)
    requires Reverses(deps, rev) && name in deps
    ensures deps[name] <= rev.Keys && forall x :: x in rev ==> (name in rev[x] <==> x in deps[name])
  {
  }

  /** A spec deleted: the names it refers to have one referrer fewer, those
      left with none join `work`, and it takes the next rank. */
  lemma RemoveAdvance(deps: Deps, rev: Deps, work: set<string>, deg: map<string, int>,
                      gone: set<string>, rank: map<string, nat>, name: string)
    requires RemoveLoop(deps, rev, work, deg, gone, rank) && name in work && name in deps
    requires deps[name] <= rev.Keys && forall x :: x in rev ==> (name in rev[x] <==> x in deps[name])
    ensures var deg' := Subtract(deg, deps[name]);
      RemoveLoop(deps, rev, work - {name} + Ready(deg', deps[name]), deg', gone + {name}, rank[name := |gone|])
  {
    RemoveDeg(deps, rev, deg, gone, name);
    ReadyAfterDelete(rev, Subtract(deg, deps[name]), gone, rank, name, deps[name]);
    WorkAfterDelete(rev, work, Subtract(deg, deps[name]), gone, name, deps[name]);
    WaitingAfterDelete(rev, work, Subtract(deg, deps[name]), gone, name, deps[name]);
    RankSnoc(rev, gone, rank, name);
  }

  /** What `remove` ends with: every count back to zero, or the names some
      spec that could not go still refers to. */
  datatype Removal = Removed | Stuck(waiting: set<string>)

  /** `remove`'s loop over specs whose dependencies are `deps`, stamped
      with their IDs: each spec deleted once nothing refers to it any more,
      until no name is ready; a ready name that is not a spec stops it.
      `gone` are the specs deleted, numbered by `rank` in the order they
      went. */
  method DeleteReady(e: Engine, deps: Deps, rev: Deps, specs: map<string, Value>, params: map<string, Value>)
    returns (r: Result<Removal>, ghost gone: set<string>, ghost rank: map<string, nat>)
    requires Reverses(deps, rev) && deps.Keys == specs.Keys
    modifies e
    ensures r.Ok? ==> gone <= deps.Keys && Ranked(rev, gone, rank)
    ensures r.Ok? ==> forall x :: x in rev && x !in gone ==> !(rev[x] <= gone)
    ensures r.Ok? ==> r.value == if Referred(rev, gone) == {} then Removed else Stuck(Referred(rev, gone))
    ensures r.Ok? ==> e.cache == old(e.cache) - gone
  {
    gone, rank := {}, map[];
    var deg := Tally(rev);
    var work := deps.Keys - deg.Keys;
    RemoveStart(deps, rev);
    while work != {}
      invariant RemoveLoop(deps, rev, work, deg, gone, rank)
      invariant e.cache == old(e.cache) - gone
      decreases |deps.Keys - gone|
    {
      var name :| name in work;
      if name !in specs {
        return Err(KeyError(name)), gone, rank;
      }
      CardStep(deps.Keys, gone, name);
      var del := DeleteSpec(e, name, specs[name], params);
      if del.Err? {
        return Err(del.error), gone, rank;
      }
      DropOne(old(e.cache), gone, name);
      ReferrersRow(deps, rev, name);
      RemoveAdvance(deps, rev, work, deg, gone, rank, name);
      deg := Subtract(deg, deps[name]);
      work := work - {name} + Ready(deg, deps[name]);
      gone, rank := gone + {name}, rank[name := |gone|];
    }
    var waiting := Positive(deg);
    StillReferred(rev, deg, gone);
    r := Ok(if waiting == {} then Removed else Stuck(waiting));
  }

  /** One pass of `remove`'s loop for `name`: its spec resolved with
      `_sub_` alone, then deleted and its cache entry dropped. */
  method DeleteSpec(e: Engine, name: string, spec: Value, params: map<string, Value>) returns (r: Result<()>)
    modifies e
    ensures e.params == old(e.params) && e.bye == old(e.bye) && e.held == old(e.held)
    ensures old(e.log) <= e.log
    ensures r.Ok? ==> e.cache == old(e.cache) - {name}
    ensures r.Err? ==> e.cache == old(e.cache)
  {
    var conf := ResolveForDelete(spec, params);
    if conf.Err? {
      return Err(conf.error);
    }
    if !conf.value.Dict? {
      return Err(TypeError);
    }
    r := e.DeleteResource(conf.value.fields, Some(name));
  }

  /** `set(deg.elements())`: the names `Counter` holds a positive count for. */
  function Positive(deg: map<string, int>): (r: set<string>)
    ensures forall x :: x in r <==> x in deg && deg[x] > 0
  {
    set x | x in deg && deg[x] > 0
  }

  /** The names some spec not yet deleted still refers to. */
  function Referred(rev: Deps, gone: set<string>): (r: set<string>)
    ensures forall x :: x in r <==> x in rev && !(rev[x] <= gone)
  {
    set x | x in rev && !(rev[x] <= gone)
  }

  /** The names `Counter` holds a positive count for are those some spec
      not deleted still refers to. */
  lemma StillReferred(rev: Deps, deg: map<string, int>, gone: set<string>)
    requires deg.Keys <= rev.Keys && forall x :: x in rev ==> Count(deg, x) == |rev[x] - gone|
    ensures Positive(deg) == Referred(rev, gone)
  {
    forall x | x in rev ensures (x in deg && deg[x] > 0) <==> !(rev[x] <= gone) {
      if !(rev[x] <= gone) {
        var y :| y in rev[x] && y !in gone;
        assert y in rev[x] - gone;
      } else {
        assert rev[x] - gone == {};
      }
    }
  }

  /** `remove(template)` on a loaded template: the dependencies of every
      spec, then every spec and the parameter of its name take the ID the
      cache records, then the specs deleted so that each goes only after
      every spec referring to it. */
  method Remove(e: Engine, template: Config) returns (r: Result<Removal>, deps: Deps,
                                                      ghost gone: set<string>, ghost rank: map<string, nat>)
    modifies e
    ensures r.Ok? ==> CollectDeps(template.specs, template.params).Ok?
    ensures r.Ok? ==> deps == CollectDeps(template.specs, template.params).value.0
    ensures r.Ok? ==> var rev := Referrers(deps);
      && gone <= deps.Keys && Ranked(rev, gone, rank)
      && (forall x :: x in rev && x !in gone ==> !(rev[x] <= gone))
      && r.value == (if Referred(rev, gone) == {} then Removed else Stuck(Referred(rev, gone)))
    ensures r.Ok? ==> e.cache == old(e.cache) - gone
  {
    gone, rank := {}, map[];
    deps := map[];
    var collected := CollectDeps(template.specs, template.params);
    if collected.Err? {
      return Err(collected.error), deps, gone, rank;
    }
    deps := collected.value.0;
    r, gone, rank := DeleteAll(e, deps, template.specs, collected.value.1);
  }

  /** The IDs from the cache, then the deletions. */
  method DeleteAll(e: Engine, deps: Deps, specs: seq<Field>, params: map<string, Value>)
    returns (r: Result<Removal>, ghost gone: set<string>, ghost rank: map<string, nat>)
    requires deps.Keys == KeySet(specs)
    modifies e
    ensures r.Ok? ==> var rev := Referrers(deps);
      && gone <= deps.Keys && Ranked(rev, gone, rank)
      && (forall x :: x in rev && x !in gone ==> !(rev[x] <= gone))
      && r.value == (if Referred(rev, gone) == {} then Removed else Stuck(Referred(rev, gone)))
    ensures r.Ok? ==> e.cache == old(e.cache) - gone
  {
    gone, rank := {}, map[];
    var stamped := AssignIds(specs, params, e.cache);
    if stamped.Err? {
      return Err(stamped.error), gone, rank;
    }
    var (confs, ps) := stamped.value;
    KeySetPointwise(confs, specs);
    r, gone, rank := DeleteReady(e, deps, Referrers(deps), ToMap(confs), ps);
  }

  /** Two field lists with the same keys at every position have the same
      key set. */
  lemma KeySetPointwise(a: seq<Field>, b: seq<Field>)
    requires |a| == |b| && forall i :: 0 <= i < |a| ==> a[i].key == b[i].key
    ensures KeySet(a) == KeySet(b)
  {
    forall k | k in KeySet(a) ensures k in KeySet(b) {
      var i :| 0 <= i < |a| && a[i].key == k;
      assert b[i].key == k;
    }
    forall k | k in KeySet(b) ensures k in KeySet(a) {
      var i :| 0 <= i < |b| && b[i].key == k;
      assert a[i].key == k;
    }
  }
}
