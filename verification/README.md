# rustdoc `create_json`, modelled in Dafny

This project models the JSON generator of rustdoc (`create_json` in
`src/json/mod.rs`). It takes a crate's definition graph from the analysis host
and produces a JSON-API envelope:

- a `"crate"` document whose id is the crate name, whose `docs` attribute is the
  root definition's docs, and whose relationships are buckets of `{type, id}`
  stubs keyed by plural type name;
- an `included` list with one resource per module or struct reachable from the
  crate root.

The generator first finds the crate among the host's roots and fails with
`CrateErr` if none matches. It then runs a FIFO work queue seeded with the
root's children. Each step dequeues a definition, enqueues all of its children
whatever its kind, and classifies it: `Mod` becomes `module`/`modules`,
`Struct` becomes `struct`/`structs`, and every other kind is skipped.

Files, one module each:

- `wrappers.dfy` (`Wrappers`): `Option` and `Result`.
- `analysis.dfy` (`Analysis`): the analysis host. It holds the kinds, the
  definitions, a tree of definitions per named root, tree sizes and the root
  lookup.
- `api.dfy` (`Api`): the `Data`, `Document` and `Documentation` records.
- `traversal.dfy` (`Traversal`): the order in which the work queue dequeues
  definitions (`Dequeued`). It is checked against two independent definitions:
  a level-by-level breadth-first order (`LevelOrder`) and the plain list of all
  definitions in the trees (`Forest`).
- `assembly.dfy` (`Assembly`): the classifier and the two accumulators. Both
  are defined over the stream of dequeued definitions: `Included` and the
  bucket map `Relationships`.
- `json.dfy` (`Json`): `Envelope` is the result as a composition of the walk
  and the accumulators. `CreateJson` is the source's single interleaved loop,
  proved equal to `Envelope`. The module also holds end-to-end lemmas about
  the envelope.
- `scenarios.dfy` (`Scenarios`): worked examples. One is a small crate. One is
  a struct nested under an enum. One is a missing crate.

## Model

| member | source | states |
|---|---|---|
| Analysis.FindRoot | src/json/mod.rs:27-31 | Returns nothing exactly when no root carries the crate name. Otherwise it returns the position of the first root that does. |
| Traversal.Dequeued | src/json/mod.rs:37-62 | The work queue, run until it is empty, dequeues one definition per node of the trees it started with. |
| Traversal.DequeuedSplit | src/json/mod.rs:46-62 | FIFO discipline: the nodes already queued come out first and in order. Then come the nodes behind them, followed by the children of the first ones. |
| Traversal.DequeuedIsLevelOrder | src/json/mod.rs:37-62 | The work queue visits the root's descendants in breadth-first order. This is the level-by-level definition, which uses no queue. |
| Traversal.DequeuedExactlyOnce | src/json/mod.rs:48-62 | Every descendant of the crate root is dequeued exactly once per occurrence in the tree. The root itself is not dequeued. |
| Assembly.Classify | src/json/mod.rs:70-74 | `Mod` maps to ("module", "modules"), `Struct` maps to ("struct", "structs"), and every other kind is skipped. Each bucket name is its type name plus "s". No classified type is "crate". |
| Assembly.Included | src/json/mod.rs:78-84 | `included` has at most one entry per dequeued definition, and every entry has type "module" or "struct". |
| Assembly.IncludedAppend | src/json/mod.rs:78-84 | Resources are appended in dequeue order. The resources of a concatenated stream are the concatenation of the parts' resources. |
| Assembly.BucketAppend | src/json/mod.rs:86-89 | Stubs are appended to their bucket in dequeue order. |
| Assembly.RelationshipsStep | src/json/mod.rs:70-89 | A skipped definition leaves the bucket map unchanged. A classified one appends its stub to its own bucket, creating the bucket if this is its first stub, and changes no other bucket. |
| Assembly.BucketsContents | src/json/mod.rs:86-89 | A bucket key is present exactly when the bucket holds stubs, and then maps to those stubs. The only keys are "modules" and "structs". |
| Assembly.RecordStep | src/json/mod.rs:70-89 | `Record` is the loop body for one dequeued definition. Recording the dequeued definitions one at a time with `Record` builds exactly the resources and buckets defined over the whole stream. This covers skipping, appending and bucket creation via `entry().or_insert_with`. |
| Assembly.IncludedMembers | src/json/mod.rs:70-84 | Every classified definition has its resource (type, id = qualname, attributes `name` and `docs`) in `included`. Every resource in `included` comes from a classified definition. |
| Assembly.IncludedPermutation | src/json/mod.rs:78-84 | Reordering the definition stream only reorders `included`; each resource keeps its multiplicity. |
| Assembly.Conservation | src/json/mod.rs:78-89 | The "modules" and "structs" buckets together hold exactly as many stubs as `included` holds resources. |
| Assembly.BucketMatchesIncluded | src/json/mod.rs:78-89 | Each bucket holds exactly the `{type, id}` of the `included` resources of its type, in `included` order. |
| Assembly.StubsOfTypeEmpty | src/json/mod.rs:86-88 | The stubs of a type are empty exactly when no resource of that type is present. |
| Json.CrateRoot | src/json/mod.rs:27-33 | The selected root carries the requested name, and no earlier root does: it is the first match, as `find` returns it. |
| Json.Envelope | src/json/mod.rs:16-100 | The success value is `Assemble`, which builds the crate document of lines 92-100 around the accumulators. The result is `CrateErr(crate_name)` exactly when no root has that name. On success the data document has type "crate", id = crate name and `docs` = the root definition's docs, and it never appears in `included`. |
| Json.Walk | src/json/mod.rs:46-90 | The single loop interleaves enqueueing, classifying and accumulating until the queue is empty. It yields the resources and buckets of the full breadth-first walk. |
| Json.CreateJson | src/json/mod.rs:25-100 | Root lookup, the loop and the crate document together return exactly `Envelope`. |
| Json.EnvelopeBreadthFirst | src/json/mod.rs:37-89 | `included` and every bucket follow the breadth-first order of the crate's descendants. |
| Json.EnvelopeCoversDescendants | src/json/mod.rs:58-84 | Every classified descendant has its resource in `included`, whatever its ancestors' kinds, and as often as it occurs in the tree. `included` holds nothing else. |
| Json.EnvelopeConservation | src/json/mod.rs:78-100 | Bucket names are only "modules" and "structs". A bucket exists exactly when `included` has a resource of its type, and it holds those resources' `{type, id}` in order. The total stub count equals the size of `included`. |
| Scenarios.DemoScenario | src/json/mod.rs:37-100 | A crate with module `a` (holding struct `a::Y`) and struct `a::X` gives three resources in the order `a`, `a::X`, `a::Y`. The "structs" bucket lists `a::X` before `a::Y`. |
| Scenarios.SkippedParentScenario | src/json/mod.rs:58-74 | An enum gets no resource and no stub, but the struct under it is documented. |
| Scenarios.MissingCrateScenario | src/json/mod.rs:27-31 | An unknown crate name gives `CrateErr` carrying that name. |

## Left out

- Host failures are not modelled. The host is a tree whose lookups are total,
  so `def_roots()?` and `get_def(root_id)?` (lines 25 and 33) cannot fail.
  Neither can `for_each_child_def(...)?` inside the loop (line 62). The panics
  of `.unwrap()` on the root's child enumeration (line 39) and of
  `get_def(id).unwrap()` (line 68) cannot occur either.
- Graphs that are not trees are not modelled. The source keeps no visited set,
  so a definition reachable from two parents would be documented twice, and a
  cycle would never terminate. The tree datatype rules out both.
- Node identifiers are not modelled. A node is its definition plus its
  children, and the output depends only on definitions.
- Rendering to text with `serde_json::to_string` (lines 102-106) is left out.
  It is an external library, so the model stops at the envelope value.
- The `mpsc` channel (line 46) is modelled as a plain sequence used as a FIFO.
  It has one producer and one consumer on the same thread.
- The iteration order of the relationships `HashMap` (line 98) is left out.
  The code does not fix that order, so the model does not either: it uses a
  Dafny `map`, which has no order. `METADATA_SIZE` only sets
  the map's capacity.
- `src/json/api.rs` is not part of this model. `Document` and `Data` are plain
  records shaped after the builder calls at lines 78-83, 89 and 92-95. The
  model assumes that `attributes` and `relationships` insert into maps, and that
  a resource built with `Document::new()` has no relationships.
- The `DefKind` vocabulary comes from the analysis crate, which is not part of
  this model. Only `Mod` and `Struct` matter; the other kinds stand in for the
  rest of that crate's enumeration.
- `src/main.rs` is left out: command-line parsing, configuration and the
  build, open, serve and watch dispatch are I/O plumbing around `create_json`.
