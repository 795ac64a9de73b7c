/** Two concrete walks of create_repo_map over small trees, from an empty checkpoint. */
module MapScenarios {
  import opened Wrappers
  import opened Http
  import opened RepoMap

  /** README.md at the root, and src/ holding src/a.py and an empty src/tests/. */
  function NestedTree(path: string): Listing
  {
    if path == "" then Ok([Entry(File, "README.md", "raw/README.md"), Entry(Dir, "src", "")])
    else if path == "src" then Ok([Entry(File, "src/a.py", "raw/src/a.py"), Entry(Dir, "src/tests", "")])
    else if path == "src/tests" then Ok([])
    else Err(HttpError("404"))
  }

  function NestedRank(path: string): nat
  {
    if path == "" then 3 else if path == "src" then 2 else if path == "src/tests" then 1 else 0
  }

  lemma NestedFinite()
    ensures Finite(NestedTree, NestedRank)
  {
  }

  lemma NestedTests()
    ensures Finite(NestedTree, NestedRank)
    ensures MapDir(NestedTree, NestedRank, "src/tests", Trace([], ["", "src"]))
         == Run(Ok(Lists([], [])), Trace([MapState([], [], ["src/tests"])], ["", "src", "src/tests"]))
  {
    NestedFinite();
    var noStrings: seq<string> := [];
    var noWrites: seq<MapState> := [];
    assert ["", "src"] + ["src/tests"] == ["", "src", "src/tests"];
    assert noStrings + ["src/tests"] == ["src/tests"];
    assert noWrites + [MapState([], [], ["src/tests"])] == [MapState([], [], ["src/tests"])];
  }

  lemma NestedSrc()
    ensures Finite(NestedTree, NestedRank)
    ensures MapDir(NestedTree, NestedRank, "src", Trace([], [""]))
         == Run(Ok(Lists(["raw/src/a.py"], ["src/a.py"])),
                Trace([MapState([], [], ["src/tests"]), MapState(["raw/src/a.py"], ["src/a.py"], ["src"])],
                      ["", "src", "src/tests"]))
  {
    NestedTests();
    var tree, rank := NestedTree, NestedRank;
    var noStrings: seq<string> := [];
    var w1 := MapState([], [], ["src/tests"]);
    var w2 := MapState(["raw/src/a.py"], ["src/a.py"], ["src"]);
    var items := [Entry(File, "src/a.py", "raw/src/a.py"), Entry(Dir, "src/tests", "")];
    assert tree("src") == Ok(items);
    assert items[1..] == [Entry(Dir, "src/tests", "")] && items[1..][1..] == [];
    assert ["raw/src/a.py"] + noStrings == ["raw/src/a.py"] && ["src/a.py"] + noStrings == ["src/a.py"];
    assert MapItems(tree, rank, 2, [], Lists(["raw/src/a.py"], ["src/a.py"]), Trace([w1], ["", "src", "src/tests"]))
        == Run(Ok(Lists(["raw/src/a.py"], ["src/a.py"])), Trace([w1], ["", "src", "src/tests"]));
    var done := MapItems(tree, rank, 2, items[1..], Lists(["raw/src/a.py"], ["src/a.py"]), Trace([], ["", "src"]));
    assert done == Run(Ok(Lists(["raw/src/a.py"], ["src/a.py"])), Trace([w1], ["", "src", "src/tests"]));
    assert [""] + ["src"] == ["", "src"];
    assert noStrings + ["raw/src/a.py"] == ["raw/src/a.py"] && noStrings + ["src/a.py"] == ["src/a.py"];
    assert noStrings + ["src"] == ["src"] && [w1] + [w2] == [w1, w2];
  }

  /** The walk returns both files once, in listing order, and lists each directory once;
      but each directory's save overwrites the previous one, so the final checkpoint
      records only the root as processed, not src or src/tests. */
  lemma NestedWalk()
    ensures Finite(NestedTree, NestedRank)
    ensures var r := MapDir(NestedTree, NestedRank, "", Trace([], []));
      && r.result == Ok(Lists(["raw/README.md", "raw/src/a.py"], ["README.md", "src/a.py"]))
      && r.trace.calls == ["", "src", "src/tests"]
      && r.trace.writes == [MapState([], [], ["src/tests"]),
                            MapState(["raw/src/a.py"], ["src/a.py"], ["src"]),
                            MapState(["raw/README.md", "raw/src/a.py"], ["README.md", "src/a.py"], [""])]
      && Loaded(r.trace.writes).processedDirs == [""]
  {
    NestedSrc();
    var tree, rank := NestedTree, NestedRank;
    var noStrings: seq<string> := [];
    var w1 := MapState([], [], ["src/tests"]);
    var w2 := MapState(["raw/src/a.py"], ["src/a.py"], ["src"]);
    var w3 := MapState(["raw/README.md", "raw/src/a.py"], ["README.md", "src/a.py"], [""]);
    var items := [Entry(File, "README.md", "raw/README.md"), Entry(Dir, "src", "")];
    assert tree("") == Ok(items);
    assert items[1..] == [Entry(Dir, "src", "")] && items[1..][1..] == [];
    assert ["raw/README.md"] + ["raw/src/a.py"] == ["raw/README.md", "raw/src/a.py"];
    assert ["README.md"] + ["src/a.py"] == ["README.md", "src/a.py"];
    var lists := Lists(["raw/README.md", "raw/src/a.py"], ["README.md", "src/a.py"]);
    assert MapItems(tree, rank, 3, [], lists, Trace([w1, w2], ["", "src", "src/tests"]))
        == Run(Ok(lists), Trace([w1, w2], ["", "src", "src/tests"]));
    var done := MapItems(tree, rank, 3, items[1..], Lists(["raw/README.md"], ["README.md"]), Trace([], [""]));
    assert done == Run(Ok(Lists(["raw/README.md", "raw/src/a.py"], ["README.md", "src/a.py"])),
                       Trace([w1, w2], ["", "src", "src/tests"]));
    assert noStrings + [""] == [""] && [w1, w2] + [w3] == [w1, w2, w3];
    assert noStrings + ["raw/README.md"] == ["raw/README.md"] && noStrings + ["README.md"] == ["README.md"];
  }

  /** The root holds directories a/ and b/, each holding one file. */
  function SiblingTree(path: string): Listing
  {
    if path == "" then Ok([Entry(Dir, "a", ""), Entry(Dir, "b", "")])
    else if path == "a" then Ok([Entry(File, "a/x", "raw/a/x")])
    else if path == "b" then Ok([Entry(File, "b/y", "raw/b/y")])
    else Err(HttpError("404"))
  }

  function SiblingRank(path: string): nat
  {
    if path == "" then 2 else if path == "a" || path == "b" then 1 else 0
  }

  lemma SiblingFinite()
    ensures Finite(SiblingTree, SiblingRank)
  {
  }

  lemma SiblingA()
    ensures Finite(SiblingTree, SiblingRank)
    ensures MapDir(SiblingTree, SiblingRank, "a", Trace([], [""]))
         == Run(Ok(Lists(["raw/a/x"], ["a/x"])), Trace([MapState(["raw/a/x"], ["a/x"], ["a"])], ["", "a"]))
  {
    SiblingFinite();
    var noStrings: seq<string> := [];
    var noWrites: seq<MapState> := [];
    var wa := MapState(["raw/a/x"], ["a/x"], ["a"]);
    assert SiblingTree("a").value[1..] == [];
    assert [""] + ["a"] == ["", "a"] && noStrings + ["a"] == ["a"] && noWrites + [wa] == [wa];
    assert noStrings + ["raw/a/x"] == ["raw/a/x"] && noStrings + ["a/x"] == ["a/x"];
  }

  lemma SiblingB()
    ensures Finite(SiblingTree, SiblingRank)
    ensures var wa := MapState(["raw/a/x"], ["a/x"], ["a"]);
      MapDir(SiblingTree, SiblingRank, "b", Trace([wa], ["", "a"]))
        == Run(Ok(Lists(["raw/a/x", "raw/b/y"], ["a/x", "b/y"])),
               Trace([wa, MapState(["raw/a/x", "raw/b/y"], ["a/x", "b/y"], ["a", "b"])], ["", "a", "b"]))
  {
    SiblingFinite();
    var wa := MapState(["raw/a/x"], ["a/x"], ["a"]);
    var wb := MapState(["raw/a/x", "raw/b/y"], ["a/x", "b/y"], ["a", "b"]);
    assert SiblingTree("b").value[1..] == [];
    assert ["", "a"] + ["b"] == ["", "a", "b"] && ["a"] + ["b"] == ["a", "b"] && [wa] + [wb] == [wa, wb];
    assert ["raw/a/x"] + ["raw/b/y"] == ["raw/a/x", "raw/b/y"] && ["a/x"] + ["b/y"] == ["a/x", "b/y"];
  }

  /** The walk of b/ reloads the checkpoint a/ saved and returns a/x along with b/y, and the
      root appends both returned lists, so a/x is mapped twice. */
  lemma SiblingWalkDuplicates()
    ensures Finite(SiblingTree, SiblingRank)
    ensures MapDir(SiblingTree, SiblingRank, "", Trace([], [])).result
         == Ok(Lists(["raw/a/x", "raw/a/x", "raw/b/y"], ["a/x", "a/x", "b/y"]))
  {
    SiblingA();
    SiblingB();
    var tree, rank := SiblingTree, SiblingRank;
    var noStrings: seq<string> := [];
    var wa := MapState(["raw/a/x"], ["a/x"], ["a"]);
    var wb := MapState(["raw/a/x", "raw/b/y"], ["a/x", "b/y"], ["a", "b"]);
    var items := [Entry(Dir, "a", ""), Entry(Dir, "b", "")];
    assert tree("") == Ok(items);
    assert items[1..] == [Entry(Dir, "b", "")] && items[1..][1..] == [];
    assert noStrings + ["raw/a/x"] == ["raw/a/x"] && noStrings + ["a/x"] == ["a/x"];
    assert ["raw/a/x"] + ["raw/a/x", "raw/b/y"] == ["raw/a/x", "raw/a/x", "raw/b/y"];
    assert ["a/x"] + ["a/x", "b/y"] == ["a/x", "a/x", "b/y"];
    var lists := Lists(["raw/a/x", "raw/a/x", "raw/b/y"], ["a/x", "a/x", "b/y"]);
    assert MapItems(tree, rank, 2, [], lists, Trace([wa, wb], ["", "a", "b"]))
        == Run(Ok(lists), Trace([wa, wb], ["", "a", "b"]));
    var done := MapItems(tree, rank, 2, items[1..], Lists(["raw/a/x"], ["a/x"]), Trace([wa], ["", "a"]));
    assert done == Run(Ok(Lists(["raw/a/x", "raw/a/x", "raw/b/y"], ["a/x", "a/x", "b/y"])),
                       Trace([wa, wb], ["", "a", "b"]));
    assert noStrings + [""] == [""];
  }
}
