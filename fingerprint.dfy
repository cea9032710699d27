/** The fingerprint of a resolved spec: `flatten` into `(path, text)`
    pairs and the two SHA-256 pre-images of `makeHash` (gcputil.py,
    `flatten`, `makeHash`). The hash function itself is a parameter. */
module Fingerprint {
  import opened Values
  import opened Order
  import opened Invoke

  type Pair = (string, string)

  /** `flatten(el, key)`: a dictionary extends the path with `.k` for each
      of its keys, a list with `[]` shared by all its elements, and every
      other value is one pair of its path and `str(value)`. */
  function Flatten(el: Value, key: string): seq<Pair> {
    match el
    case Dict(fs) => FlattenFields(fs, key)
    case List(xs) => FlattenItems(xs, key + "[]")
    case _ => [(key, Show(el))]
  }

  function FlattenFields(fs: seq<Field>, key: string): seq<Pair> {
    if fs == [] then [] else Flatten(fs[0].val, key + "." + fs[0].key) + FlattenFields(fs[1..], key)
  }

  function FlattenItems(xs: seq<Value>, key: string): seq<Pair> {
    if xs == [] then [] else Flatten(xs[0], key) + FlattenItems(xs[1..], key)
  }

  /** The scalars of a document: everything that is not a list or a dictionary. */
  function Leaves(el: Value): nat {
    match el
    case Dict(fs) => FieldLeaves(fs)
    case List(xs) => ItemLeaves(xs)
    case _ => 1
  }

  function FieldLeaves(fs: seq<Field>): nat {
    if fs == [] then 0 else Leaves(fs[0].val) + FieldLeaves(fs[1..])
  }

  function ItemLeaves(xs: seq<Value>): nat {
    if xs == [] then 0 else Leaves(xs[0]) + ItemLeaves(xs[1..])
  }

  /** Each scalar yields exactly one pair. */
  lemma {:induction false} FlattenCount(el: Value, key: string)
    ensures |Flatten(el, key)| == Leaves(el)
  {
    match el
    case Dict(fs) => FlattenFieldsCount(fs, key);
    case List(xs) => FlattenItemsCount(xs, key + "[]");
    case _ =>
  }

  lemma {:induction false} FlattenFieldsCount(fs: seq<Field>, key: string)
    ensures |FlattenFields(fs, key)| == FieldLeaves(fs)
  {
    if fs != [] {
      FlattenCount(fs[0].val, key + "." + fs[0].key);
      FlattenFieldsCount(fs[1..], key);
    }
  }

  lemma {:induction false} FlattenItemsCount(xs: seq<Value>, key: string)
    ensures |FlattenItems(xs, key)| == ItemLeaves(xs)
  {
    if xs != [] {
      FlattenCount(xs[0], key);
      FlattenItemsCount(xs[1..], key);
    }
  }

  /** The pairs of `ps` with `prefix` put in front of every path. */
  function Under(prefix: string, ps: seq<Pair>): (r: seq<Pair>)
    ensures |r| == |ps| && forall i :: 0 <= i < |ps| ==> r[i] == (prefix + ps[i].0, ps[i].1)
  {
    if ps == [] then [] else [(prefix + ps[0].0, ps[0].1)] + Under(prefix, ps[1..])
  }

  lemma UnderConcat(prefix: string, a: seq<Pair>, b: seq<Pair>)
    ensures Under(prefix, a + b) == Under(prefix, a) + Under(prefix, b)
  {
  }

  lemma UnderUnder(p: string, q: string, ps: seq<Pair>)
    ensures Under(p, Under(q, ps)) == Under(p + q, ps)
  {
    forall i | 0 <= i < |ps| ensures Under(p, Under(q, ps))[i] == Under(p + q, ps)[i] {
      assert p + (q + ps[i].0) == (p + q) + ps[i].0;
    }
  }

  /** Every path `flatten` yields starts with the path it was given. */
  lemma FlattenPathsExtend(el: Value, key: string)
    ensures forall i :: 0 <= i < |Flatten(el, key)| ==> key <= Flatten(el, key)[i].0
  {
    FlattenUnder(el, key);
  }

  /** The path argument is only a prefix: flattening under `key` is
      flattening under the empty path with `key` put in front of every path. */
  lemma {:induction false} FlattenUnder(el: Value, key: string)
    ensures Flatten(el, key) == Under(key, Flatten(el, ""))
  {
    match el
    case Dict(fs) => FlattenFieldsUnder(fs, key);
    case List(xs) => FlattenItemsUnder(xs, key);
    case _ => assert key + "" == key;
  }

  lemma {:induction false} FlattenFieldsUnder(fs: seq<Field>, key: string)
    ensures FlattenFields(fs, key) == Under(key, FlattenFields(fs, ""))
  {
    if fs != [] {
      var k := fs[0].key;
      calc {
        FlattenFields(fs, key);
        Flatten(fs[0].val, key + "." + k) + FlattenFields(fs[1..], key);
        { FlattenUnder(fs[0].val, key + "." + k); FlattenFieldsUnder(fs[1..], key); }
        Under(key + "." + k, Flatten(fs[0].val, "")) + Under(key, FlattenFields(fs[1..], ""));
        { assert key + "." + k == key + ("" + "." + k); UnderUnder(key, "" + "." + k, Flatten(fs[0].val, "")); }
        Under(key, Under("" + "." + k, Flatten(fs[0].val, ""))) + Under(key, FlattenFields(fs[1..], ""));
        { FlattenUnder(fs[0].val, "" + "." + k); }
        Under(key, Flatten(fs[0].val, "" + "." + k)) + Under(key, FlattenFields(fs[1..], ""));
        { UnderConcat(key, Flatten(fs[0].val, "" + "." + k), FlattenFields(fs[1..], "")); }
        Under(key, FlattenFields(fs, ""));
      }
    }
  }

  lemma {:induction false} FlattenItemsUnder(xs: seq<Value>, key: string)
    ensures FlattenItems(xs, key + "[]") == Under(key, FlattenItems(xs, "" + "[]"))
  {
    if xs != [] {
      calc {
        FlattenItems(xs, key + "[]");
        Flatten(xs[0], key + "[]") + FlattenItems(xs[1..], key + "[]");
        { FlattenUnder(xs[0], key + "[]"); FlattenItemsUnder(xs[1..], key); }
        Under(key + "[]", Flatten(xs[0], "")) + Under(key, FlattenItems(xs[1..], "" + "[]"));
        { assert key + "[]" == key + ("" + "[]"); UnderUnder(key, "" + "[]", Flatten(xs[0], "")); }
        Under(key, Under("" + "[]", Flatten(xs[0], ""))) + Under(key, FlattenItems(xs[1..], "" + "[]"));
        { FlattenUnder(xs[0], "" + "[]"); }
        Under(key, Flatten(xs[0], "" + "[]")) + Under(key, FlattenItems(xs[1..], "" + "[]"));
        { UnderConcat(key, Flatten(xs[0], "" + "[]"), FlattenItems(xs[1..], "" + "[]")); }
        Under(key, FlattenItems(xs, "" + "[]"));
      }
    }
  }

  /** A dictionary entry `k: v` contributes the pairs of `v` under `.k`, and a
      list's elements all sit under `[]`. */
  lemma FlattenPaths(k: string, v: Value, xs: seq<Value>, key: string)
    ensures Flatten(Dict([Field(k, v)]), key) == Under(key + "." + k, Flatten(v, ""))
    ensures Flatten(List(xs), key) == Under(key + "[]", FlattenItems(xs, ""))
  {
    assert [Field(k, v)][1..] == [];
    assert FlattenFields([Field(k, v)], key) == Flatten(v, key + "." + k) + FlattenFields([], key);
    FlattenUnder(v, key + "." + k);
    assert Flatten(List(xs), key) == FlattenItems(xs, key + "[]");
    FlattenItemsShift(xs, key + "[]");
  }

  lemma {:induction false} FlattenItemsShift(xs: seq<Value>, key: string)
    ensures FlattenItems(xs, key) == Under(key, FlattenItems(xs, ""))
  {
    if xs != [] {
      FlattenUnder(xs[0], key);
      FlattenItemsShift(xs[1..], key);
      UnderConcat(key, Flatten(xs[0], ""), FlattenItems(xs[1..], ""));
    }
  }

  lemma {:induction false} FlattenFieldsSplit(fs: seq<Field>, j: int, key: string)
    requires 0 <= j < |fs|
    ensures multiset(FlattenFields(fs, key)) ==
      multiset(Flatten(fs[j].val, key + "." + fs[j].key)) + multiset(FlattenFields(fs[..j] + fs[j + 1..], key))
  {
    if j > 0 {
      var rest := fs[1..];
      var others := fs[..j] + fs[j + 1..];
      FlattenFieldsSplit(rest, j - 1, key);
      assert rest[j - 1] == fs[j];
      assert others[0] == fs[0] && others[1..] == rest[..j - 1] + rest[j..];
      var head := Flatten(fs[0].val, key + "." + fs[0].key);
      assert FlattenFields(fs, key) == head + FlattenFields(rest, key);
      assert FlattenFields(others, key) == head + FlattenFields(others[1..], key);
    } else {
      assert fs[..j] + fs[j + 1..] == fs[1..];
    }
  }

  /** Reordering the entries of a dictionary does not change the multiset of
      its pairs. */
  lemma {:induction false} FlattenFieldsPermutation(fs: seq<Field>, gs: seq<Field>, key: string)
    requires multiset(fs) == multiset(gs)
    ensures multiset(FlattenFields(fs, key)) == multiset(FlattenFields(gs, key))
    decreases |fs|
  {
    if fs != [] {
      assert fs[0] in multiset(gs);
      var j :| 0 <= j < |gs| && gs[j] == fs[0];
      var gs' := gs[..j] + gs[j + 1..];
      assert gs == gs[..j] + [gs[j]] + gs[j + 1..];
      assert fs == [fs[0]] + fs[1..];
      assert multiset(gs) == multiset(gs[..j]) + multiset{gs[j]} + multiset(gs[j + 1..]);
      assert multiset(fs) == multiset{fs[0]} + multiset(fs[1..]);
      assert multiset(gs') == multiset(gs[..j]) + multiset(gs[j + 1..]);
      calc {
        multiset(fs[1..]);
        multiset(fs) - multiset{fs[0]};
        multiset(gs) - multiset{gs[j]};
        multiset(gs');
      }
      FlattenFieldsPermutation(fs[1..], gs', key);
      FlattenFieldsSplit(gs, j, key);
    } else {
      assert gs == [];
    }
  }

  type byte = b: int | 0 <= b < 256

  /** `str.encode('utf8')`. */
  function Utf8Char(c: char): (r: seq<byte>)
    ensures 1 <= |r| <= 4
    ensures (c as int < 128) <==> |r| == 1
    ensures c as int < 128 ==> r == [c as int]
  {
    var n := c as int;
    if n < 0x80 then [n]
    else if n < 0x800 then [0xC0 + n / 64, 0x80 + n % 64]
    else if n < 0x10000 then [0xE0 + n / 4096, 0x80 + (n / 64) % 64, 0x80 + n % 64]
    else [0xF0 + n / 262144, 0x80 + (n / 4096) % 64, 0x80 + (n / 64) % 64, 0x80 + n % 64]
  }

  function Utf8(s: string): seq<byte> {
    if s == [] then [] else Utf8Char(s[0]) + Utf8(s[1..])
  }

  lemma {:induction false} Utf8Concat(a: string, b: string)
    ensures Utf8(a + b) == Utf8(a) + Utf8(b)
  {
    if a == [] {
      assert a + b == b;
    } else {
      assert (a + b)[0] == a[0] && (a + b)[1..] == a[1..] + b;
      Utf8Concat(a[1..], b);
      calc {
        Utf8(a + b);
        Utf8Char(a[0]) + Utf8(a[1..] + b);
        Utf8Char(a[0]) + (Utf8(a[1..]) + Utf8(b));
        (Utf8Char(a[0]) + Utf8(a[1..])) + Utf8(b);
        Utf8(a) + Utf8(b);
      }
    }
  }

  /** `str.encode('ascii')`: fails on any character outside ASCII. */
  function Ascii(s: string): (r: Result<seq<byte>>)
    ensures r.Ok? <==> forall i :: 0 <= i < |s| ==> s[i] as int < 128
    ensures r.Ok? ==> |r.value| == |s| && forall i :: 0 <= i < |s| ==> r.value[i] == s[i] as int
  {
    if s == [] then Ok([])
    else if s[0] as int >= 128 then Err(EncodeError)
    else
      var rest := Ascii(s[1..]);
      assert forall i :: 1 <= i < |s| ==> s[i] == s[1..][i - 1];
      if rest.Err? then rest else Ok([s[0] as int] + rest.value)
  }

  /** On ASCII text the two encodings agree. */
  lemma {:induction false} AsciiIsUtf8(s: string)
    requires Ascii(s).Ok?
    ensures Utf8(s) == Ascii(s).value
  {
    if s != [] {
      assert forall i :: 0 <= i < |s[1..]| ==> s[1..][i] == s[i + 1];
      AsciiIsUtf8(s[1..]);
    }
  }

  /** `f"{x}{k}:{v}"` for every pair, sorted, of each of the sections `xs`
      (an absent section is `[]`, which has no pairs). */
  function SectionItems(conf: seq<Field>, xs: seq<string>): seq<string> {
    if xs == [] then []
    else
      var ps := Sort(Flatten(GetOr(conf, xs[0], List([])), ""), PairLe);
      Labelled(xs[0], ps) + SectionItems(conf, xs[1..])
  }

  function Labelled(x: string, ps: seq<Pair>): (r: seq<string>)
    ensures |r| == |ps| && forall i :: 0 <= i < |ps| ==> r[i] == x + ps[i].0 + ":" + ps[i].1
  {
    if ps == [] then [] else [x + ps[0].0 + ":" + ps[0].1] + Labelled(x, ps[1..])
  }

  /** The section text of a pre-image: the items joined with `|`. */
  function SectionText(conf: seq<Field>, xs: seq<string>): string {
    Join(SectionItems(conf, xs), "|")
  }

  /** The sections of the two digests. */
  const IdentitySections: seq<string> := ["Parent", "Create"]
  const UpdateSections: seq<string> := ["Update", "Flag", "Tag"]

  /** `|file.<path>:` and the file's bytes, for every file in sorted order. */
  function FileBytes(paths: seq<string>, disk: string -> seq<byte>): seq<byte> {
    if paths == [] then [] else Utf8("|file." + paths[0] + ":") + disk(paths[0]) + FileBytes(paths[1..], disk)
  }

  /** `'/'.join(conf['Type'] + [conf['ID']])`. */
  function TypeIdPath(conf: seq<Field>): Result<string> {
    var types :- Types(conf);
    var id :- Id(conf);
    Ok(Join(types + [id], "/"))
  }

  /** The bytes fed into the two SHA-256 objects of `makeHash`. `files` holds
      each path once. The file bytes go to digest 1 for `functions` and to
      digest 0 otherwise; the `Type/ID` path always goes last into digest 0. */
  function Preimages(conf: seq<Field>, files: seq<string>, disk: string -> seq<byte>): (r: Result<(seq<byte>, seq<byte>)>)
    ensures r.Ok? <==> Kind(conf).Ok? && TypeIdPath(conf).Ok? && Ascii(TypeIdPath(conf).value).Ok?
  {
    var kind :- Kind(conf);
    var path :- TypeIdPath(conf);
    var tail :- Ascii(path);
    Ok(Assemble(kind == FixMode, SectionText(conf, IdentitySections), SectionText(conf, UpdateSections),
                FileBytes(Sort(files, StrLe), disk), tail))
  }

  function Assemble(functions: bool, text0: string, text1: string, fb: seq<byte>, tail: seq<byte>): (seq<byte>, seq<byte>) {
    (Utf8(text0) + (if functions then [] else fb) + tail, Utf8(text1) + (if functions then fb else []))
  }

  /** A SHA-256 `hexdigest()`: 64 characters. */
  type Digest = s: string | |s| == 64
    witness "0000000000000000000000000000000000000000000000000000000000000000"

  /** `makeHash(conf, files)`: exactly two digests. */
  function MakeHash(conf: seq<Field>, files: seq<string>, disk: string -> seq<byte>, sha: seq<byte> -> Digest): (r: Result<seq<Digest>>)
    ensures r.Ok? <==> Preimages(conf, files, disk).Ok?
    ensures r.Ok? ==> |r.value| == 2
    ensures r.Ok? ==> r.value[0] == sha(Preimages(conf, files, disk).value.0) && r.value[1] == sha(Preimages(conf, files, disk).value.1)
  {
    var (b0, b1) :- Preimages(conf, files, disk);
    Ok([sha(b0), sha(b1)])
  }

  /** Digest 1 reads the Update, Flag and Tag sections, the kind, and (for
      functions) the files: `Type`, `ID`, Parent and Create do not feed it. */
  lemma Digest1Inputs(c1: seq<Field>, c2: seq<Field>, files: seq<string>, disk: string -> seq<byte>)
    requires Preimages(c1, files, disk).Ok? && Preimages(c2, files, disk).Ok?
    requires forall x :: x in UpdateSections ==> Lookup(c1, x) == Lookup(c2, x)
    requires (Kind(c1).value == FixMode) == (Kind(c2).value == FixMode)
    ensures Preimages(c1, files, disk).value.1 == Preimages(c2, files, disk).value.1
  {
    PreimageLayout(c1, files, disk);
    PreimageLayout(c2, files, disk);
    SectionItemsDepend(c1, c2, UpdateSections);
  }

  /** Digest 0 reads the Parent and Create sections, `Type` and `ID`, and
      (except for functions) the files: the Update, Flag and Tag sections do
      not feed it. */
  lemma Digest0Inputs(c1: seq<Field>, c2: seq<Field>, files: seq<string>, disk: string -> seq<byte>)
    requires Preimages(c1, files, disk).Ok? && Preimages(c2, files, disk).Ok?
    requires forall x :: x in IdentitySections ==> Lookup(c1, x) == Lookup(c2, x)
    requires Lookup(c1, "Type") == Lookup(c2, "Type") && Lookup(c1, "ID") == Lookup(c2, "ID")
    ensures Preimages(c1, files, disk).value.0 == Preimages(c2, files, disk).value.0
  {
    var fb := FileBytes(Sort(files, StrLe), disk);
    assert Kind(c1) == Kind(c2) && TypeIdPath(c1) == TypeIdPath(c2);
    SectionItemsDepend(c1, c2, IdentitySections);
    var functions, t0, tail := Kind(c1).value == FixMode, SectionText(c1, IdentitySections), Ascii(TypeIdPath(c1).value).value;
    assert Preimages(c1, files, disk).value == Assemble(functions, t0, SectionText(c1, UpdateSections), fb, tail);
    assert Preimages(c2, files, disk).value == Assemble(functions, t0, SectionText(c2, UpdateSections), fb, tail);
  }

  /** The identity pre-image ends with the ASCII `Type/ID` path, and the
      file bytes sit in exactly one of the two pre-images. */
  lemma PreimageLayout(conf: seq<Field>, files: seq<string>, disk: string -> seq<byte>)
    requires Preimages(conf, files, disk).Ok?
    ensures var (b0, b1) := Preimages(conf, files, disk).value;
      var fb := FileBytes(Sort(files, StrLe), disk);
      var tail := Ascii(TypeIdPath(conf).value).value;
      && |b0| >= |tail| && b0[|b0| - |tail|..] == tail
      && (Kind(conf).value == FixMode ==>
            b1 == Utf8(SectionText(conf, UpdateSections)) + fb && b0 == Utf8(SectionText(conf, IdentitySections)) + tail)
      && (Kind(conf).value != FixMode ==>
            b0 == Utf8(SectionText(conf, IdentitySections)) + fb + tail && b1 == Utf8(SectionText(conf, UpdateSections)))
  {
    var tail := Ascii(TypeIdPath(conf).value).value;
    var fb := FileBytes(Sort(files, StrLe), disk);
    var t0, t1 := SectionText(conf, IdentitySections), SectionText(conf, UpdateSections);
    assert Preimages(conf, files, disk).value == Assemble(Kind(conf).value == FixMode, t0, t1, fb, tail);
    AssembleLayout(Kind(conf).value == FixMode, t0, t1, fb, tail);
  }

  lemma AssembleLayout(functions: bool, text0: string, text1: string, fb: seq<byte>, tail: seq<byte>)
    ensures var (b0, b1) := Assemble(functions, text0, text1, fb, tail);
      && |b0| >= |tail| && b0[|b0| - |tail|..] == tail
      && (functions ==> b1 == Utf8(text1) + fb && b0 == Utf8(text0) + tail)
      && (!functions ==> b0 == Utf8(text0) + fb + tail && b1 == Utf8(text1))
  {
  }

  lemma {:induction false} SectionItemsDepend(c1: seq<Field>, c2: seq<Field>, xs: seq<string>)
    requires forall x :: x in xs ==> Lookup(c1, x) == Lookup(c2, x)
    ensures SectionItems(c1, xs) == SectionItems(c2, xs)
  {
    if xs != [] {
      assert GetOr(c1, xs[0], List([])) == GetOr(c2, xs[0], List([]));
      SectionItemsDepend(c1, c2, xs[1..]);
    }
  }

  /** The pre-images do not depend on the order of the data: sections whose
      pairs agree as multisets, and file sets listed in any order, give the
      same bytes. */
  lemma PreimagesOrderFree(c1: seq<Field>, c2: seq<Field>, f1: seq<string>, f2: seq<string>, disk: string -> seq<byte>)
    requires Preimages(c1, f1, disk).Ok?
    requires Lookup(c1, "Type") == Lookup(c2, "Type") && Lookup(c1, "ID") == Lookup(c2, "ID")
    requires forall x :: x in IdentitySections ==>
      multiset(Flatten(GetOr(c1, x, List([])), "")) == multiset(Flatten(GetOr(c2, x, List([])), ""))
    requires forall x :: x in UpdateSections ==>
      multiset(Flatten(GetOr(c1, x, List([])), "")) == multiset(Flatten(GetOr(c2, x, List([])), ""))
    requires multiset(f1) == multiset(f2)
    ensures Preimages(c2, f2, disk) == Preimages(c1, f1, disk)
  {
    assert SectionText(c1, IdentitySections) == SectionText(c2, IdentitySections) by {
      SectionItemsOrderFree(c1, c2, IdentitySections);
    }
    assert SectionText(c1, UpdateSections) == SectionText(c2, UpdateSections) by {
      SectionItemsOrderFree(c1, c2, UpdateSections);
    }
    assert FileBytes(Sort(f1, StrLe), disk) == FileBytes(Sort(f2, StrLe), disk) by {
      StrLeIsTotalOrder();
      SortDependsOnlyOnMultiset(f1, f2, StrLe);
    }
    assert Types(c1) == Types(c2) && Id(c1) == Id(c2);
    PreimagesCongruent(c1, c2, f1, f2, disk);
  }

  lemma PreimagesCongruent(c1: seq<Field>, c2: seq<Field>, f1: seq<string>, f2: seq<string>, disk: string -> seq<byte>)
    requires Types(c1) == Types(c2) && Id(c1) == Id(c2)
    requires SectionText(c1, IdentitySections) == SectionText(c2, IdentitySections)
    requires SectionText(c1, UpdateSections) == SectionText(c2, UpdateSections)
    requires FileBytes(Sort(f1, StrLe), disk) == FileBytes(Sort(f2, StrLe), disk)
    ensures Preimages(c2, f2, disk) == Preimages(c1, f1, disk)
  {
    assert Kind(c1) == Kind(c2);
    assert TypeIdPath(c1) == TypeIdPath(c2);
  }

  lemma {:induction false} SectionItemsOrderFree(c1: seq<Field>, c2: seq<Field>, xs: seq<string>)
    requires forall x :: x in xs ==>
      multiset(Flatten(GetOr(c1, x, List([])), "")) == multiset(Flatten(GetOr(c2, x, List([])), ""))
    ensures SectionItems(c1, xs) == SectionItems(c2, xs)
  {
    if xs != [] {
      PairLeIsTotalOrder();
      SortDependsOnlyOnMultiset(Flatten(GetOr(c1, xs[0], List([])), ""), Flatten(GetOr(c2, xs[0], List([])), ""), PairLe);
      SectionItemsOrderFree(c1, c2, xs[1..]);
    }
  }

  /** Reordering the keys of a section leaves the fingerprint unchanged. */
  lemma SectionReorderKeepsPairs(fs: seq<Field>, gs: seq<Field>)
    requires multiset(fs) == multiset(gs)
    ensures multiset(Flatten(Dict(fs), "")) == multiset(Flatten(Dict(gs), ""))
  {
    FlattenFieldsPermutation(fs, gs, "");
  }
}
