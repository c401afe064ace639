/** Concrete record streams followed through `process_lines` and
    `generate_ncdu_tree`.

    Several step lemmas take a literal state as a parameter pinned by a
    `requires st == State(...)` instead of writing the literal in the
    `ensures`. The solver then works with one name for the state rather than
    unfolding the literal at every use, which keeps each step small. */
module Scenarios {
  import opened Wrappers
  import opened Paths
  import opened FsTree
  import opened Builder
  import opened Ncdu

  /** The document for a state whose root entries encode to `trees`. */
  lemma DocumentOf(st: State, trees: seq<Json>)
    requires WellFormed(st) && |trees| == |st.roots|
    requires forall k :: 0 <= k < |trees| ==> EntryToNcdu(st.nodes, st.roots[k]) == trees[k]
    ensures GenerateNcduTree(st) == JArray([JInt(1), JInt(1), JObject([]), JArray([NameObject("/")] + trees)])
  {
    var roots := seq(|st.roots|, k requires 0 <= k < |st.roots| => EntryToNcdu(st.nodes, st.roots[k]));
    assert roots == trees;
  }

  /** The encoding of a directory entry whose children encode to `kids`. */
  lemma DirectoryOf(nodes: seq<FSEntry>, id: nat, kids: seq<Json>)
    requires NodesWellFormed(nodes) && id < |nodes|
    requires |kids| == |nodes[id].sub| > 0
    requires forall k :: 0 <= k < |kids| ==> EntryToNcdu(nodes, nodes[id].sub[k]) == kids[k]
    ensures EntryToNcdu(nodes, id) == JArray([NameObject(nodes[id].name)] + kids)
  {
    var e := nodes[id];
    var encoded := seq(|e.sub|, k requires 0 <= k < |e.sub| => EntryToNcdu(nodes, e.sub[k]));
    assert encoded == kids;
  }

  /** Running a single record. */
  lemma RunSingle(st: State, rec: Record, fullPath: bool)
    requires WellFormed(st)
    ensures Run(st, [rec], fullPath) ==
      match ProcessRecord(st, rec, fullPath)
      case Ok(next) => Outcome(next, None)
      case Err(e) => Outcome(st, Some(e))
  {
    assert [rec][1..] == [];
  }

  /** A lone top-level file of size 42 becomes the only root, keeps its
      size and is indexed, in either mode. */
  lemma LoneTopLevelFile(fullPath: bool)
    ensures Run(Empty, [Record("a.txt", "f", 42)], fullPath) ==
      Outcome(State([FSEntry("a.txt", 42, [])], map["a.txt" := 0], [0]), None)
  {
    var rec := Record("a.txt", "f", 42);
    assert '/' !in rec.path;
    ProcessRecordRootFile(Empty, rec, fullPath);
    assert Empty.nodes + [FSEntry("a.txt", 42, [])] == [FSEntry("a.txt", 42, [])];
    assert Empty.roots + [0] == [0];
    assert Empty.cache["a.txt" := 0] == map["a.txt" := 0];
    RunSingle(Empty, rec, fullPath);
  }

  /** Its document is `[1, 1, {}, [{'name': '/'}, {'name': 'a.txt', 'dsize': 42}]]`. */
  lemma LoneTopLevelFileDocument()
    ensures GenerateNcduTree(State([FSEntry("a.txt", 42, [])], map["a.txt" := 0], [0])) ==
      JArray([JInt(1), JInt(1), JObject([]), JArray([NameObject("/"), LeafObject("a.txt", 42)])])
  {
    var st := State([FSEntry("a.txt", 42, [])], map["a.txt" := 0], [0]);
    assert EntryToNcdu(st.nodes, st.roots[0]) == LeafObject("a.txt", 42);
    DocumentOf(st, [LeafObject("a.txt", 42)]);
    assert [NameObject("/")] + [LeafObject("a.txt", 42)] == [NameObject("/"), LeafObject("a.txt", 42)];
  }

  /** A nested file whose directory was never announced stops processing
      with `KeyError('x/y')`, in either mode: ancestors are only created
      for directory records. */
  lemma NestedFileWithoutParent(fullPath: bool)
    ensures Run(Empty, [Record("x/y/z.txt", "f", 5)], fullPath) == Outcome(Empty, Some(KeyError("x/y")))
  {
    var rec := Record("x/y/z.txt", "f", 5);
    DirnameXYZ();
    ProcessRecordFails(Empty, rec, fullPath);
    RunSingle(Empty, rec, fullPath);
  }

  lemma DirnameXYZ()
    ensures Dirname("x/y/z.txt") == "x/y" && Basename("x/y/z.txt") == "z.txt" && '/' in "x/y/z.txt"
  {
    var path := "x/y/z.txt";
    assert path == "x/y" + "/" + "z.txt";
    DirnameOfJoin("x/y", "z.txt");
    assert path[1] == '/';
  }

  /** The record "." leaves any state as it is. */
  lemma DotRecord(st: State, kind: string, size: int, fullPath: bool)
    requires WellFormed(st)
    ensures Run(st, [Record(".", kind, size)], fullPath) == Outcome(st, None)
  {
    RunSingle(st, Record(".", kind, size), fullPath);
  }

  lemma PathPartsOfXY()
    ensures PathParts("x/y") == [("", "x"), ("x", "x/y")]
  {
    assert "x/y" == "x" + "/" + "y";
    SplitCons("x", "y");
    SplitNoSlash("y");
    var segs := Split("x/y");
    assert segs == ["x", "y"];
    assert segs[..0] == [] && segs[..1] == ["x"] && segs[..2] == ["x", "y"];
    assert Join(["x", "y"]) == "x" + "/" + "y";
  }

  /** A first part without '/' becomes the first root. */
  lemma CreateTopPart(name: string)
    requires '/' !in name
    ensures CreatePart(Empty, "", name) == State([FSEntry(name, 0, [])], map[name := 0], [0])
  {
    DirnameEmpty(name);
    CreatePartNew(Empty, "", name);
  }

  lemma CreatePartXY()
    ensures var s1 := State([FSEntry("x", 0, [])], map["x" := 0], [0]);
      CreatePart(s1, "x", "x/y") ==
        State([FSEntry("x", 0, [1]), FSEntry("y", 0, [])], map["x" := 0, "x/y" := 1], [0])
  {
    var s1 := State([FSEntry("x", 0, [])], map["x" := 0], [0]);
    assert "x/y" == "x" + "/" + "y";
    DirnameOfJoin("x", "y");
    CreatePartNew(s1, "x", "x/y");
    var r := CreatePart(s1, "x", "x/y");
    assert r.nodes == [FSEntry("x", 0, [1]), FSEntry("y", 0, [])];
  }

  /** In full-path mode announcing directory "x/y" from scratch creates "x"
      as a root and "y" below it, both of size 0, and indexes both. */
  lemma FullPathOfXY()
    ensures FullPath(Empty, "x/y") ==
      State([FSEntry("x", 0, [1]), FSEntry("y", 0, [])], map["x" := 0, "x/y" := 1], [0])
  {
    PathPartsOfXY();
    assert '/' !in "x";
    CreateTopPart("x");
    FullPathFromXY(State([FSEntry("x", 0, [])], map["x" := 0], [0]), PathParts("x/y"));
  }

  lemma FullPathFromXY(s1: State, parts: seq<(string, string)>)
    requires s1 == State([FSEntry("x", 0, [])], map["x" := 0], [0])
    requires parts == [("", "x"), ("x", "x/y")]
    ensures FullPathFrom(s1, parts, 1) ==
      State([FSEntry("x", 0, [1]), FSEntry("y", 0, [])], map["x" := 0, "x/y" := 1], [0])
  {
    CreatePartXY();
  }

  /** Running two records: the second runs on the state the first left. */
  lemma RunPair(st: State, r1: Record, r2: Record, fullPath: bool)
    requires WellFormed(st) && ProcessRecord(st, r1, fullPath).Ok?
    ensures Run(st, [r1, r2], fullPath) == Run(ProcessRecord(st, r1, fullPath).value, [r2], fullPath)
  {
    assert [r1, r2][1..] == [r2];
  }

  /** Before the file record "x/y/z.txt" arrives, full-path mode has built
      x and x/y. */
  lemma DirXYFullPath()
    ensures ProcessRecord(Empty, Record("x/y", "d", 0), true) ==
      Ok(State([FSEntry("x", 0, [1]), FSEntry("y", 0, [])], map["x" := 0, "x/y" := 1], [0]))
  {
    assert "x/y" == "x" + "/" + "y";
    DirnameOfJoin("x", "y");
    ProcessRecordDirUnderUnknownParent(Empty, Record("x/y", "d", 0), true);
    FullPathOfXY();
  }

  /** The file then becomes the last child of the entry indexed as "x/y". */
  lemma FileUnderXY(st: State, id: nat, fullPath: bool)
    requires WellFormed(st) && "x/y" in st.cache && st.cache["x/y"] == id
    ensures var n := |st.nodes|;
      ProcessRecord(st, Record("x/y/z.txt", "f", 5), fullPath) ==
        Ok(State(st.nodes[id := st.nodes[id].AddEntry(n)] + [FSEntry("z.txt", 5, [])], st.cache, st.roots))
  {
    DirnameXYZ();
    ProcessRecordNestedFile(st, Record("x/y/z.txt", "f", 5), fullPath);
  }

  lemma FileUnderXYFullPath()
    ensures ProcessRecord(State([FSEntry("x", 0, [1]), FSEntry("y", 0, [])], map["x" := 0, "x/y" := 1], [0]),
                          Record("x/y/z.txt", "f", 5), true) ==
      Ok(State([FSEntry("x", 0, [1]), FSEntry("y", 0, [2]), FSEntry("z.txt", 5, [])], map["x" := 0, "x/y" := 1], [0]))
  {
    var s2 := State([FSEntry("x", 0, [1]), FSEntry("y", 0, [])], map["x" := 0, "x/y" := 1], [0]);
    FileUnderXY(s2, 1, true);
    assert s2.nodes[1].AddEntry(2) == FSEntry("y", 0, [2]);
    var updated := s2.nodes[1 := FSEntry("y", 0, [2])];
    assert updated == [FSEntry("x", 0, [1]), FSEntry("y", 0, [2])];
    assert updated + [FSEntry("z.txt", 5, [])] == [FSEntry("x", 0, [1]), FSEntry("y", 0, [2]), FSEntry("z.txt", 5, [])];
  }

  /** In full-path mode, directory "x/y" followed by file "x/y/z.txt" gives
      the tree / -> x -> y -> z.txt; only the file carries a size. */
  lemma DirThenFileFullPath()
    ensures Run(Empty, [Record("x/y", "d", 0), Record("x/y/z.txt", "f", 5)], true) ==
      Outcome(State([FSEntry("x", 0, [1]), FSEntry("y", 0, [2]), FSEntry("z.txt", 5, [])],
                    map["x" := 0, "x/y" := 1], [0]), None)
  {
    var s2 := State([FSEntry("x", 0, [1]), FSEntry("y", 0, [])], map["x" := 0, "x/y" := 1], [0]);
    DirXYFullPath();
    RunPair(Empty, Record("x/y", "d", 0), Record("x/y/z.txt", "f", 5), true);
    FileUnderXYFullPath();
    RunSingle(s2, Record("x/y/z.txt", "f", 5), true);
  }

  lemma DirThenFileFullPathDocument()
    ensures GenerateNcduTree(State([FSEntry("x", 0, [1]), FSEntry("y", 0, [2]), FSEntry("z.txt", 5, [])],
                                   map["x" := 0, "x/y" := 1], [0])) ==
      JArray([JInt(1), JInt(1), JObject([]),
              JArray([NameObject("/"), JArray([NameObject("x"), JArray([NameObject("y"), LeafObject("z.txt", 5)])])])])
  {
    var st := State([FSEntry("x", 0, [1]), FSEntry("y", 0, [2]), FSEntry("z.txt", 5, [])], map["x" := 0, "x/y" := 1], [0]);
    var z := LeafObject("z.txt", 5);
    assert EntryToNcdu(st.nodes, 2) == z;
    DirectoryOf(st.nodes, 1, [z]);
    var y := JArray([NameObject("y"), z]);
    assert [NameObject("y")] + [z] == [NameObject("y"), z];
    DirectoryOf(st.nodes, 0, [y]);
    var x := JArray([NameObject("x"), y]);
    assert [NameObject("x")] + [y] == [NameObject("x"), y];
    DocumentOf(st, [x]);
    assert [NameObject("/")] + [x] == [NameObject("/"), x];
  }

  /** Running a nonempty stream whose first record succeeds. */
  lemma RunStep(st: State, recs: seq<Record>, fullPath: bool)
    requires WellFormed(st) && recs != [] && ProcessRecord(st, recs[0], fullPath).Ok?
    ensures Run(st, recs, fullPath) == Run(ProcessRecord(st, recs[0], fullPath).value, recs[1..], fullPath)
  {
  }

  // In dataset mode the same two records give a tree rooted at "y".

  lemma DirXYDataset()
    ensures ProcessRecord(Empty, Record("x/y", "d", 0), false) ==
      Ok(State([FSEntry("y", 0, [])], map["x/y" := 0], [0]))
  {
    assert "x/y" == "x" + "/" + "y";
    DirnameOfJoin("x", "y");
    ProcessRecordDirUnderUnknownParent(Empty, Record("x/y", "d", 0), false);
    DatasetEffect(Empty, "x/y");
    assert Basename("x/y") == "y";
    assert [] + [FSEntry("y", 0, [])] == [FSEntry("y", 0, [])];
    assert map[]["x/y" := 0] == map["x/y" := 0];
    assert Empty.roots + [0] == [0];
  }

  lemma FileUnderXYDataset()
    ensures ProcessRecord(State([FSEntry("y", 0, [])], map["x/y" := 0], [0]), Record("x/y/z.txt", "f", 5), false) ==
      Ok(State([FSEntry("y", 0, [1]), FSEntry("z.txt", 5, [])], map["x/y" := 0], [0]))
  {
    var s2 := State([FSEntry("y", 0, [])], map["x/y" := 0], [0]);
    FileUnderXY(s2, 0, false);
    assert s2.nodes[0].AddEntry(1) == FSEntry("y", 0, [1]);
    var updated := s2.nodes[0 := FSEntry("y", 0, [1])];
    assert updated == [FSEntry("y", 0, [1])];
    assert updated + [FSEntry("z.txt", 5, [])] == [FSEntry("y", 0, [1]), FSEntry("z.txt", 5, [])];
  }

  /** Dataset mode makes the announced directory "x/y" a root named "y": its
      ancestors get no entries. */
  lemma DirThenFileDataset()
    ensures Run(Empty, [Record("x/y", "d", 0), Record("x/y/z.txt", "f", 5)], false) ==
      Outcome(State([FSEntry("y", 0, [1]), FSEntry("z.txt", 5, [])], map["x/y" := 0], [0]), None)
  {
    var s2 := State([FSEntry("y", 0, [])], map["x/y" := 0], [0]);
    DirXYDataset();
    RunPair(Empty, Record("x/y", "d", 0), Record("x/y/z.txt", "f", 5), false);
    FileUnderXYDataset();
    RunSingle(s2, Record("x/y/z.txt", "f", 5), false);
  }

  lemma DirThenFileDatasetDocument()
    ensures GenerateNcduTree(State([FSEntry("y", 0, [1]), FSEntry("z.txt", 5, [])], map["x/y" := 0], [0])) ==
      JArray([JInt(1), JInt(1), JObject([]), JArray([NameObject("/"), JArray([NameObject("y"), LeafObject("z.txt", 5)])])])
  {
    var st := State([FSEntry("y", 0, [1]), FSEntry("z.txt", 5, [])], map["x/y" := 0], [0]);
    var z := LeafObject("z.txt", 5);
    assert EntryToNcdu(st.nodes, 1) == z;
    DirectoryOf(st.nodes, 0, [z]);
    var y := JArray([NameObject("y"), z]);
    assert [NameObject("y")] + [z] == [NameObject("y"), z];
    DocumentOf(st, [y]);
    assert [NameObject("/")] + [y] == [NameObject("/"), y];
  }

  // A directory announced twice under an indexed parent is listed twice.

  lemma PathPartsOfA()
    ensures PathParts("a") == [("", "a")]
  {
    assert '/' !in "a";
    SplitNoSlash("a");
    assert Split("a")[..0] == [] && Split("a")[..1] == ["a"];
  }

  lemma FullPathOfA()
    ensures FullPath(Empty, "a") == State([FSEntry("a", 0, [])], map["a" := 0], [0])
  {
    PathPartsOfA();
    assert '/' !in "a";
    CreateTopPart("a");
  }

  /** Full-path mode announces the top-level directory "a" with size 0,
      not with the record's size. */
  lemma TopDirFullPath()
    ensures ProcessRecord(Empty, Record("a", "d", 7), true) == Ok(State([FSEntry("a", 0, [])], map["a" := 0], [0]))
  {
    assert '/' !in "a";
    DirnameEmpty("a");
    ProcessRecordDirUnderUnknownParent(Empty, Record("a", "d", 7), true);
    FullPathOfA();
  }

  /** A directory record under the indexed "a" is attached with its size and
      (re)indexed, whether or not "a/b" is already indexed. */
  lemma DirUnderA(st: State, p: nat)
    requires WellFormed(st) && "a" in st.cache && st.cache["a"] == p
    ensures var n := |st.nodes|;
      ProcessRecord(st, Record("a/b", "d", 3), true) ==
        Ok(State(st.nodes[p := st.nodes[p].AddEntry(n)] + [FSEntry("b", 3, [])], st.cache["a/b" := n], st.roots))
  {
    assert "a/b" == "a" + "/" + "b";
    DirnameOfJoin("a", "b");
    var rec := Record("a/b", "d", 3);
    ProcessRecordDirUnderKnownParent(st, rec, true);
    var r := ProcessRecord(st, rec, true).value;
    var n := |st.nodes|;
    assert r.nodes == r.nodes[..n] + [r.nodes[n]];
  }

  lemma FirstB(st: State)
    requires st == State([FSEntry("a", 0, [])], map["a" := 0], [0])
    ensures ProcessRecord(st, Record("a/b", "d", 3), true) ==
      Ok(State([FSEntry("a", 0, [1]), FSEntry("b", 3, [])], map["a" := 0, "a/b" := 1], [0]))
  {
    DirUnderA(st, 0);
    assert st.nodes[0].AddEntry(1) == FSEntry("a", 0, [1]);
    var updated := st.nodes[0 := FSEntry("a", 0, [1])];
    assert updated == [FSEntry("a", 0, [1])];
    assert updated + [FSEntry("b", 3, [])] == [FSEntry("a", 0, [1]), FSEntry("b", 3, [])];
  }

  lemma SecondB(st: State)
    requires st == State([FSEntry("a", 0, [1]), FSEntry("b", 3, [])], map["a" := 0, "a/b" := 1], [0])
    ensures ProcessRecord(st, Record("a/b", "d", 3), true) ==
      Ok(State([FSEntry("a", 0, [1, 2]), FSEntry("b", 3, []), FSEntry("b", 3, [])], map["a" := 0, "a/b" := 2], [0]))
  {
    DirUnderA(st, 0);
    assert st.nodes[0].AddEntry(2) == FSEntry("a", 0, [1, 2]);
    var updated := st.nodes[0 := FSEntry("a", 0, [1, 2])];
    assert updated == [FSEntry("a", 0, [1, 2]), FSEntry("b", 3, [])];
    assert updated + [FSEntry("b", 3, [])] == [FSEntry("a", 0, [1, 2]), FSEntry("b", 3, []), FSEntry("b", 3, [])];
    assert map["a" := 0, "a/b" := 1]["a/b" := 2] == map["a" := 0, "a/b" := 2];
  }

  /** Announcing "a", then "a/b" twice, in full-path mode: "a" has size 0
      and two children both named "b", and "a/b" names the second one. */
  lemma RepeatedDirectory()
    ensures Run(Empty, [Record("a", "d", 7), Record("a/b", "d", 3), Record("a/b", "d", 3)], true) ==
      Outcome(State([FSEntry("a", 0, [1, 2]), FSEntry("b", 3, []), FSEntry("b", 3, [])], map["a" := 0, "a/b" := 2], [0]),
              None)
  {
    var recs := [Record("a", "d", 7), Record("a/b", "d", 3), Record("a/b", "d", 3)];
    var s1 := State([FSEntry("a", 0, [])], map["a" := 0], [0]);
    var s2 := State([FSEntry("a", 0, [1]), FSEntry("b", 3, [])], map["a" := 0, "a/b" := 1], [0]);
    TopDirFullPath();
    RunStep(Empty, recs, true);
    assert recs[1..] == [Record("a/b", "d", 3), Record("a/b", "d", 3)];
    FirstB(s1);
    RunPair(s1, Record("a/b", "d", 3), Record("a/b", "d", 3), true);
    SecondB(s2);
    RunSingle(s2, Record("a/b", "d", 3), true);
  }

  lemma RepeatedDirectoryDocument()
    ensures GenerateNcduTree(State([FSEntry("a", 0, [1, 2]), FSEntry("b", 3, []), FSEntry("b", 3, [])],
                                   map["a" := 0, "a/b" := 2], [0])) ==
      JArray([JInt(1), JInt(1), JObject([]),
              JArray([NameObject("/"), JArray([NameObject("a"), LeafObject("b", 3), LeafObject("b", 3)])])])
  {
    var st := State([FSEntry("a", 0, [1, 2]), FSEntry("b", 3, []), FSEntry("b", 3, [])], map["a" := 0, "a/b" := 2], [0]);
    var b := LeafObject("b", 3);
    assert EntryToNcdu(st.nodes, 1) == b && EntryToNcdu(st.nodes, 2) == b;
    DirectoryOf(st.nodes, 0, [b, b]);
    var a := JArray([NameObject("a"), b, b]);
    assert [NameObject("a")] + [b, b] == [NameObject("a"), b, b];
    DocumentOf(st, [a]);
    assert [NameObject("/")] + [a] == [NameObject("/"), a];
  }

  // A directory that full-path mode created as an ancestor gets a second
  // entry when its own record arrives later: "a/b/c", then "a/b".

  lemma PathPartsOfABC()
    ensures PathParts("a/b/c") == [("", "a"), ("a", "a/b"), ("a/b", "a/b/c")]
  {
    assert "a/b/c" == "a" + "/" + "b/c";
    assert "b/c" == "b" + "/" + "c";
    SplitNoSlash("c");
    SplitCons("b", "c");
    SplitCons("a", "b/c");
    var segs := Split("a/b/c");
    assert segs == ["a", "b", "c"];
    assert segs[..0] == [] && segs[..1] == ["a"] && segs[..2] == ["a", "b"] && segs[..3] == ["a", "b", "c"];
    assert Join(["b", "c"]) == "b" + "/" + "c";
    assert Join(["a", "b", "c"]) == "a" + "/" + Join(["b", "c"]);
    assert ["a", "b"][1..] == ["b"];
    assert Join(["a", "b"]) == "a" + "/" + "b";
    assert "a" + "/" + "b" == "a/b";
    var pp := PathParts("a/b/c");
    assert |pp| == 3;
    assert pp[0] == ("", "a");
    assert pp[1] == ("a", "a/b");
    assert pp[2] == ("a/b", "a/b/c");
  }

  lemma CreatePartAB(s1: State)
    requires s1 == State([FSEntry("a", 0, [])], map["a" := 0], [0])
    ensures CreatePart(s1, "a", "a/b") ==
      State([FSEntry("a", 0, [1]), FSEntry("b", 0, [])], map["a" := 0, "a/b" := 1], [0])
  {
    assert "a/b" == "a" + "/" + "b";
    DirnameOfJoin("a", "b");
    CreatePartNew(s1, "a", "a/b");
    var r := CreatePart(s1, "a", "a/b");
    assert r.nodes == [FSEntry("a", 0, [1]), FSEntry("b", 0, [])];
  }

  lemma CreatePartABC(s2: State)
    requires s2 == State([FSEntry("a", 0, [1]), FSEntry("b", 0, [])], map["a" := 0, "a/b" := 1], [0])
    ensures CreatePart(s2, "a/b", "a/b/c") ==
      State([FSEntry("a", 0, [1]), FSEntry("b", 0, [2]), FSEntry("c", 0, [])],
            map["a" := 0, "a/b" := 1, "a/b/c" := 2], [0])
  {
    assert "a/b/c" == "a/b" + "/" + "c";
    DirnameOfJoin("a/b", "c");
    CreatePartNew(s2, "a/b", "a/b/c");
    var r := CreatePart(s2, "a/b", "a/b/c");
    assert s2.nodes[1].AddEntry(2) == FSEntry("b", 0, [2]);
    assert r.nodes == [FSEntry("a", 0, [1]), FSEntry("b", 0, [2]), FSEntry("c", 0, [])];
  }

  lemma FullPathFromABC(s2: State, parts: seq<(string, string)>)
    requires s2 == State([FSEntry("a", 0, [1]), FSEntry("b", 0, [])], map["a" := 0, "a/b" := 1], [0])
    requires parts == [("", "a"), ("a", "a/b"), ("a/b", "a/b/c")]
    ensures FullPathFrom(s2, parts, 2) ==
      State([FSEntry("a", 0, [1]), FSEntry("b", 0, [2]), FSEntry("c", 0, [])],
            map["a" := 0, "a/b" := 1, "a/b/c" := 2], [0])
  {
    CreatePartABC(s2);
  }

  lemma FullPathFromAB(s1: State, parts: seq<(string, string)>)
    requires s1 == State([FSEntry("a", 0, [])], map["a" := 0], [0])
    requires parts == [("", "a"), ("a", "a/b"), ("a/b", "a/b/c")]
    ensures FullPathFrom(s1, parts, 1) ==
      State([FSEntry("a", 0, [1]), FSEntry("b", 0, [2]), FSEntry("c", 0, [])],
            map["a" := 0, "a/b" := 1, "a/b/c" := 2], [0])
  {
    CreatePartAB(s1);
    FullPathFromABC(State([FSEntry("a", 0, [1]), FSEntry("b", 0, [])], map["a" := 0, "a/b" := 1], [0]), parts);
  }

  /** Full-path mode announces "a/b/c" from scratch by creating "a", "a/b"
      and "a/b/c", all of size 0. */
  lemma FullPathOfABC()
    ensures FullPath(Empty, "a/b/c") ==
      State([FSEntry("a", 0, [1]), FSEntry("b", 0, [2]), FSEntry("c", 0, [])],
            map["a" := 0, "a/b" := 1, "a/b/c" := 2], [0])
  {
    PathPartsOfABC();
    assert '/' !in "a";
    CreateTopPart("a");
    FullPathFromAB(State([FSEntry("a", 0, [])], map["a" := 0], [0]), PathParts("a/b/c"));
  }

  lemma DirABCFullPath()
    ensures ProcessRecord(Empty, Record("a/b/c", "d", 5), true) ==
      Ok(State([FSEntry("a", 0, [1]), FSEntry("b", 0, [2]), FSEntry("c", 0, [])],
               map["a" := 0, "a/b" := 1, "a/b/c" := 2], [0]))
  {
    assert "a/b/c" == "a/b" + "/" + "c";
    DirnameOfJoin("a/b", "c");
    ProcessRecordDirUnderUnknownParent(Empty, Record("a/b/c", "d", 5), true);
    FullPathOfABC();
  }

  lemma AncestorAgain(st: State)
    requires st == State([FSEntry("a", 0, [1]), FSEntry("b", 0, [2]), FSEntry("c", 0, [])],
                         map["a" := 0, "a/b" := 1, "a/b/c" := 2], [0])
    ensures ProcessRecord(st, Record("a/b", "d", 3), true) ==
      Ok(State([FSEntry("a", 0, [1, 3]), FSEntry("b", 0, [2]), FSEntry("c", 0, []), FSEntry("b", 3, [])],
               map["a" := 0, "a/b" := 3, "a/b/c" := 2], [0]))
  {
    DirUnderA(st, 0);
    AncestorAgainNodes(st.nodes);
    AncestorAgainCache(st.cache);
  }

  lemma AncestorAgainNodes(nodes: seq<FSEntry>)
    requires nodes == [FSEntry("a", 0, [1]), FSEntry("b", 0, [2]), FSEntry("c", 0, [])]
    ensures nodes[0 := nodes[0].AddEntry(3)] + [FSEntry("b", 3, [])] ==
      [FSEntry("a", 0, [1, 3]), FSEntry("b", 0, [2]), FSEntry("c", 0, []), FSEntry("b", 3, [])]
  {
    assert nodes[0].AddEntry(3) == FSEntry("a", 0, [1, 3]);
    var updated := nodes[0 := FSEntry("a", 0, [1, 3])];
    assert updated == [FSEntry("a", 0, [1, 3]), FSEntry("b", 0, [2]), FSEntry("c", 0, [])];
  }

  lemma AncestorAgainCache(cache: map<string, nat>)
    requires cache == map["a" := 0, "a/b" := 1, "a/b/c" := 2]
    ensures cache["a/b" := 3] == map["a" := 0, "a/b" := 3, "a/b/c" := 2]
  {
  }

  /** In full-path mode, directory "a/b/c" and then directory "a/b": the
      record for "a/b" adds a second child "b" of "a", with the record's
      size, and the index moves to it; the synthesised "b" keeps "c". */
  lemma AncestorAnnouncedLater()
    ensures Run(Empty, [Record("a/b/c", "d", 5), Record("a/b", "d", 3)], true) ==
      Outcome(State([FSEntry("a", 0, [1, 3]), FSEntry("b", 0, [2]), FSEntry("c", 0, []), FSEntry("b", 3, [])],
                    map["a" := 0, "a/b" := 3, "a/b/c" := 2], [0]),
              None)
  {
    var s1 := State([FSEntry("a", 0, [1]), FSEntry("b", 0, [2]), FSEntry("c", 0, [])],
                    map["a" := 0, "a/b" := 1, "a/b/c" := 2], [0]);
    DirABCFullPath();
    RunPair(Empty, Record("a/b/c", "d", 5), Record("a/b", "d", 3), true);
    AncestorAgain(s1);
    RunSingle(s1, Record("a/b", "d", 3), true);
  }
}
