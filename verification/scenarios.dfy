/** Three concrete crates, worked through `Envelope`. */
module Scenarios {
  import opened Wrappers
  import opened Analysis
  import opened Api
  import opened Traversal
  import opened Assembly
  import opened Json

  /** Crate "demo": module `a` holding struct `a::Y`, and struct `a::X`, at the top. */
  function DemoHost(): Host
  {
    Host([Root("demo", Node(Def(Mod, "demo", "demo", "crate docs"), [DemoA(), DemoX()]))])
  }

  function DemoY(): Node { Node(Def(Struct, "a::Y", "Y", "y docs"), []) }
  function DemoA(): Node { Node(Def(Mod, "a", "a", "a docs"), [DemoY()]) }
  function DemoX(): Node { Node(Def(Struct, "a::X", "X", "x docs"), []) }

  /** The walk of "demo": both top-level items, then the struct inside `a`. */
  lemma DemoWalk()
    ensures Dequeued([DemoA(), DemoX()]) == [DemoA().def, DemoX().def, DemoY().def]
  {
    var y, a, x := DemoY(), DemoA(), DemoX();
    assert Dequeued([y]) == [y.def] + Dequeued([]);
    assert Dequeued([x, y]) == [x.def] + Dequeued([y]);
    assert Dequeued([a, x]) == [a.def] + Dequeued([x, y]);
  }

  /** The accumulators of "demo"'s walk. */
  lemma DemoAccumulators()
    ensures var visited := [DemoA().def, DemoX().def, DemoY().def];
      && Included(visited) == [
           Document("module", "a", map["name" := "a", "docs" := "a docs"], map[]),
           Document("struct", "a::X", map["name" := "X", "docs" := "x docs"], map[]),
           Document("struct", "a::Y", map["name" := "Y", "docs" := "y docs"], map[])]
      && Relationships(visited) == map[
           "modules" := [Data("module", "a")],
           "structs" := [Data("struct", "a::X"), Data("struct", "a::Y")]]
  {
    var a, x, y := DemoA().def, DemoX().def, DemoY().def;
    var visited := [a, x, y];
    assert visited[1..] == [x, y] && [x, y][1..] == [y] && [y][1..] == [];
    assert Included([y]) == [Resource(y, StructClass)];
    assert Included([x, y]) == [Resource(x, StructClass), Resource(y, StructClass)];
    assert Bucket([y], "modules") == [];
    assert Bucket([x, y], "modules") == Bucket([y], "modules");
    assert Bucket(visited, "modules") == [Data("module", "a")];
    assert Bucket([y], "structs") == [Data("struct", "a::Y")];
    assert Bucket(visited, "structs") == [Data("struct", "a::X"), Data("struct", "a::Y")];
  }

  /** Top-level items come before nested ones, so `a::X` precedes `a::Y` in both
      `included` and the "structs" bucket. */
  lemma DemoScenario()
    ensures Envelope(DemoHost(), "demo") == Success(Documentation(
      Document("crate", "demo", map["docs" := "crate docs"], map[
        "modules" := [Data("module", "a")],
        "structs" := [Data("struct", "a::X"), Data("struct", "a::Y")]]),
      [ Document("module", "a", map["name" := "a", "docs" := "a docs"], map[]),
        Document("struct", "a::X", map["name" := "X", "docs" := "x docs"], map[]),
        Document("struct", "a::Y", map["name" := "Y", "docs" := "y docs"], map[]) ]))
  {
    assert FindRoot(DemoHost().roots, "demo") == Some(0);
    DemoWalk();
    DemoAccumulators();
  }

  /** Crate "e": enum `E` holding struct `E::S`. */
  function EnumHost(): Host
  {
    Host([Root("e", Node(Def(Mod, "e", "e", ""), [EnumE()]))])
  }

  function EnumS(): Node { Node(Def(Struct, "e::E::S", "S", ""), []) }
  function EnumE(): Node { Node(Def(Enum, "e::E", "E", ""), [EnumS()]) }

  /** The walk of "e": the enum, then the struct under it. */
  lemma EnumWalk()
    ensures Dequeued([EnumE()]) == [EnumE().def, EnumS().def]
  {
    var e, s := EnumE(), EnumS();
    assert Dequeued([s]) == [s.def] + Dequeued([]);
    assert Dequeued([e]) == [e.def] + Dequeued([s]);
  }

  /** The accumulators of "e"'s walk. */
  lemma EnumAccumulators()
    ensures var visited := [EnumE().def, EnumS().def];
      && Included(visited) == [Document("struct", "e::E::S", map["name" := "S", "docs" := ""], map[])]
      && Relationships(visited) == map["structs" := [Data("struct", "e::E::S")]]
  {
    var e, s := EnumE().def, EnumS().def;
    var visited := [e, s];
    assert visited[1..] == [s] && [s][1..] == [];
    assert Included([s]) == [Resource(s, StructClass)];
    assert Included(visited) == Included([s]);
    assert Bucket([s], "modules") == [];
    assert Bucket(visited, "modules") == Bucket([s], "modules");
    assert Bucket([s], "structs") == [Data("struct", "e::E::S")];
    assert Bucket(visited, "structs") == Bucket([s], "structs");
  }

  /** The enum gets no resource and no stub, but the struct under it is still
      walked and documented. */
  lemma SkippedParentScenario()
    ensures Envelope(EnumHost(), "e") == Success(Documentation(
      Document("crate", "e", map["docs" := ""], map["structs" := [Data("struct", "e::E::S")]]),
      [Document("struct", "e::E::S", map["name" := "S", "docs" := ""], map[])]))
  {
    assert FindRoot(EnumHost().roots, "e") == Some(0);
    EnumWalk();
    EnumAccumulators();
  }

  /** A crate name no root carries is an error naming that crate. */
  lemma MissingCrateScenario()
    ensures Envelope(DemoHost(), "other") == Failure(CrateErr("other"))
  {
  }
}
