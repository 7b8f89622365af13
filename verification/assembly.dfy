/** Classification of dequeued definitions and the two accumulators `create_json`
    fills from them: the `included` resources and the relationship buckets of
    `{type, id}` stubs keyed by plural type name.  Both are defined here over the
    whole stream of dequeued definitions, in dequeue order. */
module Assembly {
  import opened Wrappers
  import opened Analysis
  import opened Api

  /** A recognised kind: the resource type and the bucket its stubs go to. */
  datatype Class = Class(ty: string, key: string)

  const ModuleClass := Class("module", "modules")
  const StructClass := Class("struct", "structs")

  /** The only bucket names the generator ever creates. */
  const BucketKeys: set<string> := {ModuleClass.key, StructClass.key}

  /** Modules and structs are documented; every other kind is skipped. */
  function Classify(kind: DefKind): (r: Option<Class>)
    ensures r.Some? <==> kind == Mod || kind == Struct
    ensures kind == Mod ==> r == Some(ModuleClass) && r.value == Class("module", "modules")
    ensures kind == Struct ==> r == Some(StructClass) && r.value == Class("struct", "structs")
    ensures r.Some? ==> r.value.key == r.value.ty + "s" && r.value.key in BucketKeys
    ensures r.Some? ==> r.value.ty != "crate"
  {
    match kind
    case Mod => Some(ModuleClass)
    case Struct => Some(StructClass)
    case _ => None
  }

  /** The `included` resource for a classified definition. */
  function Resource(d: Def, c: Class): Document
  {
    Document(c.ty, d.qualname, map["name" := d.name, "docs" := d.docs], map[])
  }

  /** The relationship stub for a classified definition. */
  function Stub(d: Def, c: Class): Data
  {
    Data(c.ty, d.qualname)
  }

  /** The resources of the classified definitions of `defs`, in order. */
  function Included(defs: seq<Def>): (r: seq<Document>)
    ensures |r| <= |defs|
    ensures forall i :: 0 <= i < |r| ==> r[i].ty == ModuleClass.ty || r[i].ty == StructClass.ty
  {
    if defs == [] then []
    else
      match Classify(defs[0].kind)
      case Some(c) => [Resource(defs[0], c)] + Included(defs[1..])
      case None => Included(defs[1..])
  }

  /** The stubs of the definitions of `defs` classified into bucket `key`, in order. */
  function Bucket(defs: seq<Def>, key: string): seq<Data>
  {
    if defs == [] then []
    else
      match Classify(defs[0].kind)
      case Some(c) =>
        if c.key == key then [Stub(defs[0], c)] + Bucket(defs[1..], key)
        else Bucket(defs[1..], key)
      case None => Bucket(defs[1..], key)
  }

  /** `m` with bucket `key` set to `stubs`, unless there are none: a bucket is
      only ever created to receive a stub. */
  function WithBucket(m: map<string, seq<Data>>, key: string, stubs: seq<Data>): map<string, seq<Data>>
  {
    if stubs == [] then m else m[key := stubs]
  }

  /** The bucket map holding the given "modules" and "structs" stubs. */
  function Buckets(modules: seq<Data>, structs: seq<Data>): map<string, seq<Data>>
  {
    WithBucket(WithBucket(map[], ModuleClass.key, modules), StructClass.key, structs)
  }

  /** The bucket map: one entry per bucket that received at least one stub. */
  function Relationships(defs: seq<Def>): map<string, seq<Data>>
  {
    Buckets(Bucket(defs, ModuleClass.key), Bucket(defs, StructClass.key))
  }

  /** The `{type, id}` of each document of `docs` whose type is `ty`, in order. */
  function StubsOfType(docs: seq<Document>, ty: string): seq<Data>
  {
    if docs == [] then []
    else if docs[0].ty == ty then [Data(docs[0].ty, docs[0].id)] + StubsOfType(docs[1..], ty)
    else StubsOfType(docs[1..], ty)
  }

  lemma {:induction false} IncludedAppend(a: seq<Def>, b: seq<Def>)
    ensures Included(a + b) == Included(a) + Included(b)
    decreases |a|
  {
    if a == [] {
      assert a + b == b;
    } else {
      assert (a + b)[0] == a[0];
      assert (a + b)[1..] == a[1..] + b;
      IncludedAppend(a[1..], b);
    }
  }

  lemma {:induction false} BucketAppend(a: seq<Def>, b: seq<Def>, key: string)
    ensures Bucket(a + b, key) == Bucket(a, key) + Bucket(b, key)
    decreases |a|
  {
    if a == [] {
      assert a + b == b;
    } else {
      assert (a + b)[0] == a[0];
      assert (a + b)[1..] == a[1..] + b;
      BucketAppend(a[1..], b, key);
    }
  }

  /** The stubs a single definition contributes to bucket `key`. */
  lemma BucketOfOne(d: Def, key: string)
    ensures Classify(d.kind).None? ==> Bucket([d], key) == []
    ensures Classify(d.kind).Some? ==>
      Bucket([d], key) == if Classify(d.kind).value.key == key then [Stub(d, Classify(d.kind).value)] else []
  {
    assert [d][1..] == [];
  }

  /** A bucket is present exactly when it holds stubs, and then holds those;
      no other key is present. */
  lemma BucketsContents(modules: seq<Data>, structs: seq<Data>)
    ensures var m := Buckets(modules, structs);
      && m.Keys <= BucketKeys
      && (ModuleClass.key in m <==> modules != [])
      && (StructClass.key in m <==> structs != [])
      && (ModuleClass.key in m ==> m[ModuleClass.key] == modules)
      && (StructClass.key in m ==> m[StructClass.key] == structs)
  {
    assert ModuleClass.key != StructClass.key by { assert ModuleClass.key[0] != StructClass.key[0]; }
  }

  /** Appending a stub to one bucket of the map updates that bucket only. */
  lemma BucketsPush(modules: seq<Data>, structs: seq<Data>, stub: Data)
    ensures Buckets(modules + [stub], structs) == Buckets(modules, structs)[ModuleClass.key := modules + [stub]]
    ensures Buckets(modules, structs + [stub]) == Buckets(modules, structs)[StructClass.key := structs + [stub]]
  {
    assert ModuleClass.key != StructClass.key by { assert ModuleClass.key[0] != StructClass.key[0]; }
  }

  /** One step of the loop body: a skipped definition leaves the buckets alone;
      a classified one appends its stub to its own bucket, creating the bucket if
      this is its first stub, and changes no other bucket. */
  lemma RelationshipsStep(defs: seq<Def>, d: Def)
    ensures Classify(d.kind).None? ==> Relationships(defs + [d]) == Relationships(defs)
    ensures Classify(d.kind).Some? ==>
      var c := Classify(d.kind).value;
      Relationships(defs + [d]) == Relationships(defs)[c.key := Bucket(defs, c.key) + [Stub(d, c)]]
  {
    var mk, sk := ModuleClass.key, StructClass.key;
    BucketAppend(defs, [d], mk);
    BucketAppend(defs, [d], sk);
    BucketOfOne(d, mk);
    BucketOfOne(d, sk);
    var modules, structs := Bucket(defs, mk), Bucket(defs, sk);
    match d.kind
    case Mod =>
      assert Bucket(defs + [d], mk) == modules + [Stub(d, ModuleClass)];
      assert Bucket(defs + [d], sk) == structs;
      BucketsPush(modules, structs, Stub(d, ModuleClass));
    case Struct =>
      assert Bucket(defs + [d], mk) == modules;
      assert Bucket(defs + [d], sk) == structs + [Stub(d, StructClass)];
      BucketsPush(modules, structs, Stub(d, StructClass));
    case _ =>
      assert Bucket(defs + [d], mk) == modules;
      assert Bucket(defs + [d], sk) == structs;
  }

  /** The loop body's bookkeeping for one dequeued definition: a classified one
      gets its resource appended to `included` and its stub appended to its
      bucket, the bucket being created empty on first use. */
  function Record(included: seq<Document>, relationships: map<string, seq<Data>>, d: Def)
    : (seq<Document>, map<string, seq<Data>>)
  {
    match Classify(d.kind)
    case None => (included, relationships)
    case Some(c) =>
      var bucket := if c.key in relationships then relationships[c.key] else [];
      (included + [Resource(d, c)], relationships[c.key := bucket + [Stub(d, c)]])
  }

  /** Recording definitions one at a time builds exactly the accumulators of the
      whole stream. */
  lemma RecordStep(visited: seq<Def>, d: Def)
    ensures Record(Included(visited), Relationships(visited), d)
         == (Included(visited + [d]), Relationships(visited + [d]))
  {
    IncludedAppend(visited, [d]);
    RelationshipsStep(visited, d);
    assert [d][1..] == [];
    var modules, structs := Bucket(visited, ModuleClass.key), Bucket(visited, StructClass.key);
    BucketsContents(modules, structs);
    var rel := Relationships(visited);
    match d.kind
    case Mod =>
      assert Included([d]) == [Resource(d, ModuleClass)];
      assert (if ModuleClass.key in rel then rel[ModuleClass.key] else []) == modules;
    case Struct =>
      assert Included([d]) == [Resource(d, StructClass)];
      assert (if StructClass.key in rel then rel[StructClass.key] else []) == structs;
    case _ =>
      assert Included([d]) == [];
      assert Included(visited) + [] == Included(visited);
  }

  /** Every classified definition of `defs` has its resource in `included`, and
      every resource in `included` comes from a classified definition of `defs`. */
  lemma {:induction false} IncludedMembers(defs: seq<Def>)
    ensures forall i :: 0 <= i < |defs| && Classify(defs[i].kind).Some? ==>
      Resource(defs[i], Classify(defs[i].kind).value) in Included(defs)
    ensures forall e :: e in Included(defs) ==>
      exists i :: 0 <= i < |defs| && Classify(defs[i].kind).Some? &&
        e == Resource(defs[i], Classify(defs[i].kind).value)
  {
    if defs != [] {
      IncludedMembers(defs[1..]);
      forall i | 0 <= i < |defs| && Classify(defs[i].kind).Some?
        ensures Resource(defs[i], Classify(defs[i].kind).value) in Included(defs)
      {
        if i > 0 {
          assert defs[i] == defs[1..][i - 1];
        }
      }
      forall e | e in Included(defs)
        ensures (exists i :: 0 <= i < |defs| && Classify(defs[i].kind).Some? &&
                  e == Resource(defs[i], Classify(defs[i].kind).value))
      {
        if e !in Included(defs[1..]) {
          assert Classify(defs[0].kind).Some? && e == Resource(defs[0], Classify(defs[0].kind).value);
        } else {
          var j :| 0 <= j < |defs[1..]| && Classify(defs[1..][j].kind).Some? &&
            e == Resource(defs[1..][j], Classify(defs[1..][j].kind).value);
          assert defs[j + 1] == defs[1..][j];
        }
      }
    }
  }

  /** Reordering the definitions reorders `included` and nothing else: each
      resource occurs as often as before. */
  lemma {:induction false} IncludedPermutation(a: seq<Def>, b: seq<Def>)
    requires multiset(a) == multiset(b)
    ensures multiset(Included(a)) == multiset(Included(b))
    decreases |a|
  {
    if a == [] {
      assert |b| == |multiset(b)| == 0;
      assert b == [];
    } else {
      var x := a[0];
      assert x in multiset(b);
      var k :| 0 <= k < |b| && b[k] == x;
      var b1, b2 := b[..k], b[k + 1..];
      assert b == b1 + [x] + b2;
      assert a == [x] + a[1..];
      assert multiset(a) == multiset([x]) + multiset(a[1..]);
      assert multiset(b) == multiset(b1) + multiset([x]) + multiset(b2);
      assert multiset(b1 + b2) == multiset(b1) + multiset(b2);
      assert multiset(a[1..]) == multiset(a) - multiset([x]);
      assert multiset(b1 + b2) == multiset(b) - multiset([x]);
      IncludedPermutation(a[1..], b1 + b2);
      IncludedAppend(b1, b2);
      IncludedAppend(b1 + [x], b2);
      IncludedAppend(b1, [x]);
      IncludedAppend([x], a[1..]);
    }
  }

  /** Conservation: there are exactly as many stubs across the buckets as there
      are resources in `included`. */
  lemma {:induction false} Conservation(defs: seq<Def>)
    ensures |Included(defs)| == |Bucket(defs, ModuleClass.key)| + |Bucket(defs, StructClass.key)|
  {
    if defs != [] {
      Conservation(defs[1..]);
    }
  }

  /** Each bucket holds exactly the `{type, id}` of the `included` resources of
      its type, in the same order. */
  lemma {:induction false} BucketMatchesIncluded(defs: seq<Def>, c: Class)
    requires c == ModuleClass || c == StructClass
    ensures Bucket(defs, c.key) == StubsOfType(Included(defs), c.ty)
  {
    if defs != [] {
      BucketMatchesIncluded(defs[1..], c);
      match Classify(defs[0].kind)
      case None =>
      case Some(c0) =>
        var r := Resource(defs[0], c0);
        assert ([r] + Included(defs[1..]))[0] == r;
        assert ([r] + Included(defs[1..]))[1..] == Included(defs[1..]);
    }
  }

  /** A type has a bucket exactly when `included` holds a resource of that type. */
  lemma {:induction false} StubsOfTypeEmpty(docs: seq<Document>, ty: string)
    ensures StubsOfType(docs, ty) == [] <==> forall i :: 0 <= i < |docs| ==> docs[i].ty != ty
  {
    if docs != [] {
      StubsOfTypeEmpty(docs[1..], ty);
      assert forall i :: 1 <= i < |docs| ==> docs[i] == docs[1..][i - 1];
    }
  }
}
