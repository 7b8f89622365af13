/** `create_json`: find the crate among the host's roots, walk its definitions
    with a work queue, and assemble the crate document and its `included`
    resources.  `Envelope` states the result as a composition of the walk and
    the accumulators; `CreateJson` is the single loop that interleaves them. */
module Json {
  import opened Wrappers
  import opened Analysis
  import opened Api
  import opened Traversal
  import opened Assembly

  /** `CrateErr`: no root of the analysis host carries the requested name. */
  datatype Error = CrateErr(crate: string)

  /** The root of the requested crate: the first root bearing its name, as
      `Iterator::find` picks it. */
  function CrateRoot(host: Host, crateName: string): (n: Node)
    requires FindRoot(host.roots, crateName).Some?
    ensures exists i :: (0 <= i < |host.roots| && host.roots[i].name == crateName && host.roots[i].tree == n &&
                         forall j :: 0 <= j < i ==> host.roots[j].name != crateName)
  {
    host.roots[FindRoot(host.roots, crateName).value].tree
  }

  /** The envelope for a crate whose root definition is `rootDef` and whose
      walk dequeued `visited`. */
  function Assemble(crateName: string, rootDef: Def, visited: seq<Def>): Documentation
  {
    var data := Document("crate", crateName, map["docs" := rootDef.docs], Relationships(visited));
    Documentation(data, Included(visited))
  }

  /** The result of `create_json`, before rendering to text. */
  function Envelope(host: Host, crateName: string): (r: Result<Documentation, Error>)
    ensures r.Failure? <==> forall i :: 0 <= i < |host.roots| ==> host.roots[i].name != crateName
    ensures r.Failure? ==> r.error == CrateErr(crateName)
    ensures r.Success? ==>
      && r.value.data.ty == "crate"
      && r.value.data.id == crateName
      && r.value.data.attributes == map["docs" := CrateRoot(host, crateName).def.docs]
      && r.value.data !in r.value.included
  {
    match FindRoot(host.roots, crateName)
    case None => Failure(CrateErr(crateName))
    case Some(_) =>
      var root := CrateRoot(host, crateName);
      Success(Assemble(crateName, root.def, Dequeued(root.children)))
  }

  /** Dequeuing the head moves its definition from the queue's future to the
      walk's past, leaving the whole walk unchanged. */
  lemma WalkStep(visited: seq<Def>, queue: seq<Node>)
    requires queue != []
    ensures (visited + [queue[0].def]) + Dequeued(queue[1..] + queue[0].children) == visited + Dequeued(queue)
    ensures Total(queue[1..] + queue[0].children) < Total(queue)
  {
    DequeueStep(queue);
  }

  /** The loop of `create_json`: dequeue a node, enqueue its children, then
      `Record` its definition, until the queue is empty. */
  method Walk(start: seq<Node>) returns (included: seq<Document>, relationships: map<string, seq<Data>>)
    ensures included == Included(Dequeued(start))
    ensures relationships == Relationships(Dequeued(start))
  {
    var queue := start;
    included, relationships := [], map[];
    ghost var visited: seq<Def> := [];
    while queue != []
      invariant visited + Dequeued(queue) == Dequeued(start)
      invariant included == Included(visited)
      invariant relationships == Relationships(visited)
      decreases Total(queue)
    {
      var node := queue[0];
      WalkStep(visited, queue);
      RecordStep(visited, node.def);
      queue := queue[1..] + node.children;
      visited := visited + [node.def];
      var recorded := Record(included, relationships, node.def);
      included, relationships := recorded.0, recorded.1;
    }
    assert visited == Dequeued(start);
  }

  /** `create_json`: find the crate's root, walk its children and wrap the
      accumulators in the crate document. */
  method CreateJson(host: Host, crateName: string) returns (r: Result<Documentation, Error>)
    ensures r == Envelope(host, crateName)
  {
    var found := FindRoot(host.roots, crateName);
    if found.None? {
      return Failure(CrateErr(crateName));
    }
    var root := host.roots[found.value].tree;
    var included, relationships := Walk(root.children);
    var data := Document("crate", crateName, map["docs" := root.def.docs], relationships);
    r := Success(Documentation(data, included));
  }

  /** The total number of stubs across the buckets of a relationships map whose
      keys are bucket names. */
  function StubCount(relationships: map<string, seq<Data>>): nat
  {
    (if ModuleClass.key in relationships then |relationships[ModuleClass.key]| else 0)
    + (if StructClass.key in relationships then |relationships[StructClass.key]| else 0)
  }

  /** `included` and every bucket list the classified descendants of the crate
      root in breadth-first order. */
  lemma EnvelopeBreadthFirst(host: Host, crateName: string)
    requires Envelope(host, crateName).Success?
    ensures var doc := Envelope(host, crateName).value;
      var level := CrateRoot(host, crateName).children;
      && doc.included == Included(LevelOrder(level))
      && doc.data.relationships == Relationships(LevelOrder(level))
  {
    DequeuedIsLevelOrder(CrateRoot(host, crateName).children);
  }

  /** Every classified descendant of the crate root, whatever the kinds of its
      ancestors, has its resource in `included` exactly as often as it occurs in
      the tree; `included` holds nothing else. */
  lemma EnvelopeCoversDescendants(host: Host, crateName: string)
    requires Envelope(host, crateName).Success?
    ensures var doc := Envelope(host, crateName).value;
      var all := Forest(CrateRoot(host, crateName).children);
      && multiset(doc.included) == multiset(Included(all))
      && (forall i :: 0 <= i < |all| && Classify(all[i].kind).Some? ==>
            Resource(all[i], Classify(all[i].kind).value) in doc.included)
      && (forall e :: e in doc.included ==>
            exists i :: 0 <= i < |all| && Classify(all[i].kind).Some? &&
              e == Resource(all[i], Classify(all[i].kind).value))
  {
    var children := CrateRoot(host, crateName).children;
    var all := Forest(children);
    var visited := Dequeued(children);
    DequeuedExactlyOnce(children);
    IncludedPermutation(visited, all);
    IncludedMembers(all);
    var doc := Envelope(host, crateName).value;
    assert doc.included == Included(visited);
    forall e | e in doc.included
      ensures e in Included(all)
    {
      assert e in multiset(Included(all));
    }
    forall i | 0 <= i < |all| && Classify(all[i].kind).Some?
      ensures Resource(all[i], Classify(all[i].kind).value) in doc.included
    {
      assert Resource(all[i], Classify(all[i].kind).value) in multiset(doc.included);
    }
  }

  /** The buckets and `included` are two views of the same resources: bucket
      names are only "modules" and "structs", a bucket exists exactly when
      `included` holds a resource of its type, it holds that resource's
      `{type, id}` in `included` order, and the stub count equals the number of
      resources. */
  lemma EnvelopeConservation(host: Host, crateName: string)
    requires Envelope(host, crateName).Success?
    ensures var doc := Envelope(host, crateName).value;
      var rel := doc.data.relationships;
      && rel.Keys <= BucketKeys
      && |doc.included| == StubCount(rel)
      && (forall c :: c in {ModuleClass, StructClass} ==>
            && (c.key in rel <==> exists i :: 0 <= i < |doc.included| && doc.included[i].ty == c.ty)
            && (c.key in rel ==> rel[c.key] == StubsOfType(doc.included, c.ty)))
  {
    var visited := Dequeued(CrateRoot(host, crateName).children);
    var included := Included(visited);
    Conservation(visited);
    forall c | c in {ModuleClass, StructClass}
      ensures Bucket(visited, c.key) == StubsOfType(included, c.ty)
      ensures StubsOfType(included, c.ty) == [] <==>
        forall i :: 0 <= i < |included| ==> included[i].ty != c.ty
    {
      BucketMatchesIncluded(visited, c);
      StubsOfTypeEmpty(included, c.ty);
    }
  }
}
