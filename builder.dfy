/** The stream-to-tree builder of `BorgAnalyzer`, as functions from the old
    state to the new one. The class in module Analyzer performs the same
    steps in place and is proved equal to these functions. */
module Builder {
  import opened Wrappers
  import opened Paths
  import opened FsTree

  /** One parsed line of `borg list --json-lines`. */
  datatype Record = Record(path: string, kind: string, size: int)

  predicate IsDir(rec: Record)
  {
    rec.kind == "d"
  }

  /** The lookup `self._fs_cache[key]` raised `KeyError(key)`. */
  datatype Error = KeyError(key: string)

  /** The state reached and, if processing stopped early, the error. */
  datatype Outcome = Outcome(state: State, error: Option<Error>)

  /** One iteration of `_process_new_dir_full_path`: skip a part that is
      already indexed, otherwise create an empty entry for it, index it and
      hang it under the root list or under its parent part. */
  function CreatePart(st: State, parentPath: string, partPath: string): (r: State)
    requires WellFormed(st)
    requires parentPath == "" || parentPath in st.cache
    ensures WellFormed(r) && Extends(st, r)
    ensures partPath in r.cache
    ensures forall k :: k in st.cache ==> k in r.cache && r.cache[k] == st.cache[k]
  {
    if partPath in st.cache then st
    else
      var entry := FromFilename(partPath);
      if parentPath == "" then Index(AddRoot(st, entry), partPath, |st.nodes|)
      // parentPath is indexed and partPath is not, so looking the parent up
      // after indexing the part (as the loop does) finds the same entry
      else Index(AddChild(st, st.cache[parentPath], entry), partPath, |st.nodes|)
  }

  /** The loop of `_process_new_dir_full_path` from pair i on. */
  function FullPathFrom(st: State, parts: seq<(string, string)>, i: nat): (r: State)
    requires WellFormed(st) && Chained(parts) && i <= |parts|
    requires 0 < i ==> parts[i - 1].1 in st.cache
    ensures WellFormed(r) && Extends(st, r)
    ensures forall k :: k in st.cache ==> k in r.cache && r.cache[k] == st.cache[k]
    ensures forall j :: i <= j < |parts| ==> parts[j].1 in r.cache
    decreases |parts| - i
  {
    if i == |parts| then st
    else
      var next := CreatePart(st, parts[i].0, parts[i].1);
      var r := FullPathFrom(next, parts, i + 1);
      ExtendsTrans(st, next, r);
      r
  }

  /** `_process_new_dir_full_path(path)`. */
  function FullPath(st: State, path: string): (r: State)
    requires WellFormed(st)
    ensures WellFormed(r) && Extends(st, r)
  {
    PathPartsShape(path);
    FullPathFrom(st, PathParts(path), 0)
  }

  /** `_process_new_dir_dataset(path)`: one new empty root entry for the whole
      path, indexed under it (replacing any earlier binding). */
  function Dataset(st: State, path: string): (r: State)
    requires WellFormed(st)
    ensures WellFormed(r) && Extends(st, r)
  {
    Index(AddRoot(st, FromFilename(path)), path, |st.nodes|)
  }

  /** `_process_new_dir`, chosen once by the constructor's `full_path`. */
  function NewDir(st: State, path: string, fullPath: bool): (r: State)
    requires WellFormed(st)
    ensures WellFormed(r) && Extends(st, r)
  {
    if fullPath then FullPath(st, path) else Dataset(st, path)
  }

  /** The body of the loop in `process_lines`, for one record. */
  function ProcessRecord(st: State, rec: Record, fullPath: bool): (r: Result<State, Error>)
    requires WellFormed(st)
    ensures r.Ok? ==> WellFormed(r.value) && Extends(st, r.value)
  {
    if rec.path == "." then Ok(st)
    else
      var entry := FromFilename(rec.path, rec.size);
      var parentDir := Dirname(rec.path);
      if IsDir(rec) then
        if parentDir in st.cache then
          Ok(Index(AddChild(st, st.cache[parentDir], entry), rec.path, |st.nodes|))
        else
          Ok(NewDir(st, rec.path, fullPath))
      else if parentDir == "" then
        Ok(Index(AddRoot(st, entry), rec.path, |st.nodes|))
      else if parentDir in st.cache then
        Ok(AddChild(st, st.cache[parentDir], entry))
      else
        Err(KeyError(parentDir))
  }

  /** `process_lines(records)`: the records in order; the first lookup error
      stops processing and leaves the state reached so far. */
  function Run(st: State, recs: seq<Record>, fullPath: bool): (o: Outcome)
    requires WellFormed(st)
    ensures WellFormed(o.state) && Extends(st, o.state)
    decreases |recs|
  {
    if recs == [] then Outcome(st, None)
    else
      match ProcessRecord(st, recs[0], fullPath)
      case Err(e) => Outcome(st, Some(e))
      case Ok(next) =>
        var o := Run(next, recs[1..], fullPath);
        ExtendsTrans(st, next, o.state);
        o
  }

  // ---------------------------------------------------------------------
  // Full-path mode

  /** A part that is not yet indexed becomes a new size-0 entry named after
      its last segment; it goes to the root list exactly when its parent part
      is "", and otherwise becomes the last child of the parent's entry. */
  lemma CreatePartNew(st: State, parentPath: string, partPath: string)
    requires WellFormed(st)
    requires parentPath == "" || parentPath in st.cache
    requires partPath !in st.cache
    ensures var r := CreatePart(st, parentPath, partPath);
      var n := |st.nodes|;
      && r.cache == st.cache[partPath := n]
      && (parentPath == "" ==> r.nodes == st.nodes + [FSEntry(Basename(partPath), 0, [])] && r.roots == st.roots + [n])
      && (parentPath != "" ==>
            var p := st.cache[parentPath];
            && r.nodes == st.nodes[p := st.nodes[p].AddEntry(n)] + [FSEntry(Basename(partPath), 0, [])]
            && r.roots == st.roots)
  {
  }

  lemma CreatePartInv(st: State, parentPath: string, partPath: string)
    requires Inv(st)
    requires parentPath == "" || parentPath in st.cache
    ensures Inv(CreatePart(st, parentPath, partPath))
  {
    if partPath !in st.cache {
      var entry := FromFilename(partPath);
      if parentPath == "" {
        AddRootAttachedOnce(st, entry);
      } else {
        AddChildAttachedOnce(st, st.cache[parentPath], entry);
      }
    }
  }

  lemma {:induction false} FullPathFromInv(st: State, parts: seq<(string, string)>, i: nat)
    requires Inv(st) && Chained(parts) && i <= |parts|
    requires 0 < i ==> parts[i - 1].1 in st.cache
    ensures Inv(FullPathFrom(st, parts, i))
    decreases |parts| - i
  {
    if i < |parts| {
      CreatePartInv(st, parts[i].0, parts[i].1);
      FullPathFromInv(CreatePart(st, parts[i].0, parts[i].1), parts, i + 1);
    }
  }

  /** When every remaining part is indexed, the loop changes nothing. */
  lemma {:induction false} FullPathFromNoop(st: State, parts: seq<(string, string)>, i: nat)
    requires WellFormed(st) && Chained(parts) && i <= |parts|
    requires 0 < i ==> parts[i - 1].1 in st.cache
    requires forall j :: i <= j < |parts| ==> parts[j].1 in st.cache
    ensures FullPathFrom(st, parts, i) == st
    decreases |parts| - i
  {
    if i < |parts| {
      FullPathFromNoop(st, parts, i + 1);
    }
  }

  /** Entry `n` of `r` has size 0 and is the indexed entry of a part of
      `parts` from pair i on, named after that part. */
  ghost predicate CreatedFor(r: State, parts: seq<(string, string)>, i: nat, n: nat)
  {
    && n < |r.nodes|
    && r.nodes[n].size == 0
    && exists j :: i <= j < |parts| && parts[j].1 in r.cache && r.cache[parts[j].1] == n &&
         r.nodes[n].name == Basename(parts[j].1)
  }

  /** Every entry the loop creates is `CreatedFor` one of the parts it
      visited. */
  lemma {:induction false} FullPathFromNewEntries(st: State, parts: seq<(string, string)>, i: nat)
    requires WellFormed(st) && Chained(parts) && i <= |parts|
    requires 0 < i ==> parts[i - 1].1 in st.cache
    ensures forall n :: |st.nodes| <= n < |FullPathFrom(st, parts, i).nodes| ==>
      CreatedFor(FullPathFrom(st, parts, i), parts, i, n)
    decreases |parts| - i
  {
    if i < |parts| {
      var next := CreatePart(st, parts[i].0, parts[i].1);
      var r := FullPathFrom(next, parts, i + 1);
      assert r == FullPathFrom(st, parts, i);
      FullPathFromNewEntries(next, parts, i + 1);
      forall n | |st.nodes| <= n < |r.nodes|
        ensures CreatedFor(r, parts, i, n)
      {
        if parts[i].1 !in st.cache && n == |st.nodes| {
          CreatePartNew(st, parts[i].0, parts[i].1);
          assert next.nodes[n] == FSEntry(Basename(parts[i].1), 0, []);
          assert r.nodes[n].name == next.nodes[n].name && r.nodes[n].size == next.nodes[n].size;
          assert next.cache[parts[i].1] == n;
          assert r.cache[parts[i].1] == n;
        } else {
          assert n >= |next.nodes|;
          assert CreatedFor(r, parts, i + 1, n);
          var j :| i + 1 <= j < |parts| && parts[j].1 in r.cache && r.cache[parts[j].1] == n &&
            r.nodes[n].name == Basename(parts[j].1);
        }
      }
    }
  }

  /** After `_process_new_dir_full_path(path)` every prefix part of `path`
      is indexed and every earlier binding of the path index is kept. */
  lemma FullPathIndexesParts(st: State, path: string)
    requires WellFormed(st)
    ensures var r := FullPath(st, path);
      && (forall j :: 0 <= j < |PathParts(path)| ==> PathParts(path)[j].1 in r.cache)
      && path in r.cache
      && forall k :: k in st.cache ==> k in r.cache && r.cache[k] == st.cache[k]
  {
    PathPartsShape(path);
    var parts := PathParts(path);
    assert parts[|parts| - 1].1 == path;
  }

  /** Every entry `_process_new_dir_full_path(path)` creates has size 0 and
      is the indexed entry of one prefix part of `path`, named after it. */
  lemma FullPathNewEntries(st: State, path: string)
    requires WellFormed(st)
    ensures forall n :: |st.nodes| <= n < |FullPath(st, path).nodes| ==>
      CreatedFor(FullPath(st, path), PathParts(path), 0, n)
  {
    PathPartsShape(path);
    FullPathFromNewEntries(st, PathParts(path), 0);
  }

  /** Calling `_process_new_dir_full_path` twice with one path is the same as
      calling it once. */
  lemma FullPathIdempotent(st: State, path: string)
    requires WellFormed(st)
    ensures FullPath(FullPath(st, path), path) == FullPath(st, path)
  {
    PathPartsShape(path);
    var parts := PathParts(path);
    var once := FullPath(st, path);
    FullPathIndexesParts(st, path);
    assert forall j :: 0 <= j < |parts| ==> parts[j].1 in once.cache;
    FullPathFromNoop(once, parts, 0);
    assert FullPath(once, path) == FullPathFrom(once, parts, 0);
  }

  lemma FullPathInv(st: State, path: string)
    requires Inv(st)
    ensures Inv(FullPath(st, path))
  {
    PathPartsShape(path);
    FullPathFromInv(st, PathParts(path), 0);
  }

  // ---------------------------------------------------------------------
  // Dataset mode

  /** `_process_new_dir_dataset` adds exactly one empty entry, named after the
      last segment, as a new root, and rebinds the path to it. */
  lemma DatasetEffect(st: State, path: string)
    requires WellFormed(st)
    ensures var r := Dataset(st, path);
      var n := |st.nodes|;
      && r.nodes == st.nodes + [FSEntry(Basename(path), 0, [])]
      && r.roots == st.roots + [n]
      && r.cache == st.cache[path := n]
  {
  }

  /** Dataset mode is not idempotent: a second call makes a second root and
      the path index now names the newer one. */
  lemma DatasetNotIdempotent(st: State, path: string)
    requires WellFormed(st)
    ensures var twice := Dataset(Dataset(st, path), path);
      && |twice.roots| == |st.roots| + 2
      && twice.roots[|st.roots|] != twice.roots[|st.roots| + 1]
      && twice.cache[path] == |st.nodes| + 1
  {
  }

  lemma DatasetInv(st: State, path: string)
    requires Inv(st)
    ensures Inv(Dataset(st, path))
  {
    AddRootAttachedOnce(st, FromFilename(path));
  }

  // ---------------------------------------------------------------------
  // One record

  lemma ProcessRecordInv(st: State, rec: Record, fullPath: bool)
    requires Inv(st)
    ensures ProcessRecord(st, rec, fullPath).Ok? ==> Inv(ProcessRecord(st, rec, fullPath).value)
  {
    if rec.path != "." {
      var parentDir := Dirname(rec.path);
      if IsDir(rec) {
        if parentDir in st.cache {
          AttachDirInv(st, rec, fullPath);
        } else {
          ProcessRecordDirUnderUnknownParent(st, rec, fullPath);
          if fullPath { FullPathInv(st, rec.path); } else { DatasetInv(st, rec.path); }
        }
      } else if parentDir == "" {
        RootFileInv(st, rec, fullPath);
      } else if parentDir in st.cache {
        AttachFileInv(st, rec, fullPath);
      }
    }
  }

  lemma AttachDirInv(st: State, rec: Record, fullPath: bool)
    requires Inv(st) && rec.path != "." && IsDir(rec) && Dirname(rec.path) in st.cache
    ensures ProcessRecord(st, rec, fullPath).Ok? && Inv(ProcessRecord(st, rec, fullPath).value)
  {
    var entry := FromFilename(rec.path, rec.size);
    var attached := AddChild(st, st.cache[Dirname(rec.path)], entry);
    AddChildAttachedOnce(st, st.cache[Dirname(rec.path)], entry);
    assert AttachedOnce(Index(attached, rec.path, |st.nodes|));
  }

  lemma RootFileInv(st: State, rec: Record, fullPath: bool)
    requires Inv(st) && rec.path != "." && !IsDir(rec) && Dirname(rec.path) == ""
    ensures ProcessRecord(st, rec, fullPath).Ok? && Inv(ProcessRecord(st, rec, fullPath).value)
  {
    var entry := FromFilename(rec.path, rec.size);
    var added := AddRoot(st, entry);
    AddRootAttachedOnce(st, entry);
    assert AttachedOnce(Index(added, rec.path, |st.nodes|));
  }

  lemma AttachFileInv(st: State, rec: Record, fullPath: bool)
    requires Inv(st) && rec.path != "." && !IsDir(rec) && Dirname(rec.path) != "" && Dirname(rec.path) in st.cache
    ensures ProcessRecord(st, rec, fullPath).Ok? && Inv(ProcessRecord(st, rec, fullPath).value)
  {
    AddChildAttachedOnce(st, st.cache[Dirname(rec.path)], FromFilename(rec.path, rec.size));
  }

  /** A record fails exactly when it is a nested file (not ".", not a
      directory, with a '/' in its path) whose parent directory is not in the
      path index; the error names that parent. */
  lemma ProcessRecordFails(st: State, rec: Record, fullPath: bool)
    requires WellFormed(st)
    ensures ProcessRecord(st, rec, fullPath).Err? <==>
      rec.path != "." && !IsDir(rec) && '/' in rec.path && Dirname(rec.path) !in st.cache
    ensures ProcessRecord(st, rec, fullPath).Err? ==>
      ProcessRecord(st, rec, fullPath).error == KeyError(Dirname(rec.path))
  {
    DirnameEmpty(rec.path);
  }

  /** The record "." changes nothing. */
  lemma ProcessRecordDot(st: State, rec: Record, fullPath: bool)
    requires WellFormed(st) && rec.path == "."
    ensures ProcessRecord(st, rec, fullPath) == Ok(st)
  {
  }

  /** A directory whose parent is indexed becomes the last child of the
      parent's entry, keeps the record's size, and is indexed under its path;
      the root list is unchanged. */
  lemma ProcessRecordDirUnderKnownParent(st: State, rec: Record, fullPath: bool)
    requires WellFormed(st) && rec.path != "." && IsDir(rec) && Dirname(rec.path) in st.cache
    ensures var r := ProcessRecord(st, rec, fullPath);
      var n := |st.nodes|;
      var p := st.cache[Dirname(rec.path)];
      && r.Ok?
      && |r.value.nodes| == n + 1
      && r.value.nodes[n] == FSEntry(Basename(rec.path), rec.size, [])
      && r.value.nodes[..n] == st.nodes[p := st.nodes[p].AddEntry(n)]
      && r.value.cache == st.cache[rec.path := n]
      && r.value.roots == st.roots
  {
    var n := |st.nodes|;
    var p := st.cache[Dirname(rec.path)];
    var r := ProcessRecord(st, rec, fullPath);
    assert r.value.nodes[..n] == st.nodes[p := st.nodes[p].AddEntry(n)];
  }

  /** A directory whose parent is not indexed is handed to the ancestor
      strategy chosen at construction. */
  lemma ProcessRecordDirUnderUnknownParent(st: State, rec: Record, fullPath: bool)
    requires WellFormed(st) && rec.path != "." && IsDir(rec) && Dirname(rec.path) !in st.cache
    ensures ProcessRecord(st, rec, fullPath) == Ok(if fullPath then FullPath(st, rec.path) else Dataset(st, rec.path))
  {
  }

  /** Nothing checks whether a directory is already indexed: the same
      directory record under an indexed parent, processed twice, leaves two
      equal child entries under the parent, and the path index names the
      second. */
  lemma ProcessRecordDirTwice(st: State, rec: Record, fullPath: bool)
    requires WellFormed(st) && rec.path != "." && IsDir(rec) && Dirname(rec.path) in st.cache
    requires Dirname(rec.path) != rec.path
    ensures var once := ProcessRecord(st, rec, fullPath);
      && once.Ok?
      && var twice := ProcessRecord(once.value, rec, fullPath);
      && twice.Ok?
      && var p := st.cache[Dirname(rec.path)];
      && var n := |st.nodes|;
      && twice.value.nodes[p].sub == st.nodes[p].sub + [n, n + 1]
      && twice.value.nodes[n] == FSEntry(Basename(rec.path), rec.size, [])
      && twice.value.nodes[n + 1] == twice.value.nodes[n]
      && twice.value.cache == st.cache[rec.path := n + 1]
  {
    ProcessRecordDirUnderKnownParent(st, rec, fullPath);
    var once := ProcessRecord(st, rec, fullPath).value;
    var p := st.cache[Dirname(rec.path)];
    var n := |st.nodes|;
    assert once.cache[Dirname(rec.path)] == p;
    ProcessRecordDirUnderKnownParent(once, rec, fullPath);
    var twice := ProcessRecord(once, rec, fullPath).value;
    assert once.nodes[p] == once.nodes[..n][p];
    assert twice.nodes[p] == twice.nodes[..n + 1][p];
    assert twice.nodes[n] == twice.nodes[..n + 1][n];
  }

  /** A top-level file is indexed under its path and appended to the root
      list, with its size. */
  lemma ProcessRecordRootFile(st: State, rec: Record, fullPath: bool)
    requires WellFormed(st) && rec.path != "." && !IsDir(rec) && '/' !in rec.path
    ensures var r := ProcessRecord(st, rec, fullPath);
      var n := |st.nodes|;
      && r.Ok?
      && r.value.nodes == st.nodes + [FSEntry(rec.path, rec.size, [])]
      && r.value.cache == st.cache[rec.path := n]
      && r.value.roots == st.roots + [n]
  {
    DirnameEmpty(rec.path);
  }

  /** A nested file whose parent is indexed becomes the parent's last child,
      with its size; neither the path index nor the root list changes. */
  lemma ProcessRecordNestedFile(st: State, rec: Record, fullPath: bool)
    requires WellFormed(st) && rec.path != "." && !IsDir(rec) && '/' in rec.path
    requires Dirname(rec.path) in st.cache
    ensures var r := ProcessRecord(st, rec, fullPath);
      var n := |st.nodes|;
      var p := st.cache[Dirname(rec.path)];
      && r.Ok?
      && |r.value.nodes| == n + 1
      && r.value.nodes[n] == FSEntry(Basename(rec.path), rec.size, [])
      && r.value.nodes[..n] == st.nodes[p := st.nodes[p].AddEntry(n)]
      && r.value.cache == st.cache
      && r.value.roots == st.roots
  {
    DirnameEmpty(rec.path);
    var n := |st.nodes|;
    var p := st.cache[Dirname(rec.path)];
    var r := ProcessRecord(st, rec, fullPath);
    assert r.value.nodes[..n] == st.nodes[p := st.nodes[p].AddEntry(n)];
  }

  // ---------------------------------------------------------------------
  // A stream of records

  lemma {:induction false} RunInv(st: State, recs: seq<Record>, fullPath: bool)
    requires Inv(st)
    ensures Inv(Run(st, recs, fullPath).state)
    decreases |recs|
  {
    if recs != [] {
      ProcessRecordInv(st, recs[0], fullPath);
      if ProcessRecord(st, recs[0], fullPath).Ok? {
        RunInv(ProcessRecord(st, recs[0], fullPath).value, recs[1..], fullPath);
      }
    }
  }

  /** Feeding two batches one after the other is the same as feeding them
      together, unless the first batch already failed. */
  lemma {:induction false} RunAppend(st: State, a: seq<Record>, b: seq<Record>, fullPath: bool)
    requires WellFormed(st)
    ensures var first := Run(st, a, fullPath);
      Run(st, a + b, fullPath) ==
        if first.error.None? then Run(first.state, b, fullPath) else first
    decreases |a|
  {
    if a == [] {
      assert a + b == b;
    } else {
      assert (a + b)[0] == a[0];
      assert (a + b)[1..] == a[1..] + b;
      match ProcessRecord(st, a[0], fullPath)
      case Err(_) =>
      case Ok(next) => RunAppend(next, a[1..], b, fullPath);
    }
  }

  /** An error comes from a nested file record whose parent directory is not
      in the path index at the point where processing stopped. */
  lemma {:induction false} RunError(st: State, recs: seq<Record>, fullPath: bool)
    requires WellFormed(st)
    ensures var o := Run(st, recs, fullPath);
      o.error.Some? ==>
        exists i :: 0 <= i < |recs| && recs[i].path != "." && !IsDir(recs[i]) &&
          o.error.value == KeyError(Dirname(recs[i].path)) && Dirname(recs[i].path) !in o.state.cache
    decreases |recs|
  {
    if recs != [] {
      ProcessRecordFails(st, recs[0], fullPath);
      match ProcessRecord(st, recs[0], fullPath)
      case Err(_) =>
        assert recs[0].path != "." && !IsDir(recs[0]);
      case Ok(next) =>
        RunError(next, recs[1..], fullPath);
        var o := Run(st, recs, fullPath);
        if o.error.Some? {
          var i :| 0 <= i < |recs[1..]| && recs[1..][i].path != "." && !IsDir(recs[1..][i]) &&
            o.error.value == KeyError(Dirname(recs[1..][i].path)) && Dirname(recs[1..][i].path) !in o.state.cache;
          assert recs[i + 1] == recs[1..][i];
        }
    }
  }
}
