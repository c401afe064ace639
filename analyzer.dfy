/** `BorgAnalyzer`: the object that builds the tree in place. Its fields are
    the arena of entries, the path index `_fs_cache` and `_root_objects`.
    ProcessNewDirFullPath, ProcessNewDirDataset, ProcessNewDir,
    ProcessRecord and ProcessLines are proved to leave exactly the state the
    corresponding function of module Builder computes; the smaller methods
    they call are specified by the FsTree operations on the state. */
module Analyzer {
  import opened Wrappers
  import opened Paths
  import opened FsTree
  import opened Builder
  import Ncdu

  class BorgAnalyzer {
    var nodes: seq<FSEntry>
    var cache: map<string, nat>
    var roots: seq<nat>
    /** The ancestor strategy, fixed at construction. */
    const fullPath: bool

    function Model(): (r: State)
      reads this
    {
      State(nodes, cache, roots)
    }

    ghost predicate Valid()
      reads this
    {
      Inv(Model())
    }

    constructor (fullPath: bool)
      ensures Valid() && Model() == Empty && this.fullPath == fullPath
    {
      this.fullPath := fullPath;
      nodes := [];
      cache := map[];
      roots := [];
    }

    /** `FSEntry.from_filename(path, size)`: a new, not yet attached entry. */
    method NewEntry(path: string, size: int) returns (id: nat)
      modifies this
      ensures id == |old(nodes)| && nodes == old(nodes) + [FromFilename(path, size)]
      ensures cache == old(cache) && roots == old(roots)
    {
      id := |nodes|;
      nodes := nodes + [FromFilename(path, size)];
    }

    /** `add_entry` on the entry with id `parent`. */
    method AddEntry(parent: nat, child: nat)
      requires parent < |nodes|
      modifies this
      ensures nodes == old(nodes)[parent := old(nodes)[parent].AddEntry(child)]
      ensures cache == old(cache) && roots == old(roots)
    {
      nodes := nodes[parent := nodes[parent].AddEntry(child)];
    }

    /** Lines 59-63: a part directly below the top level becomes a new empty
        root entry, indexed under its path. */
    method CreateRootPart(partPath: string)
      requires WellFormed(Model())
      modifies this
      ensures Model() == Index(AddRoot(old(Model()), FromFilename(partPath)), partPath, |old(nodes)|)
    {
      var entry := NewEntry(partPath, 0);
      cache := cache[partPath := entry];
      roots := roots + [entry];
    }

    /** Lines 59-60 and 64-65: any other part becomes a new empty entry,
        indexed under its path and added as the last child of its parent's
        entry. */
    method CreateChildPart(parentPath: string, partPath: string)
      requires WellFormed(Model()) && parentPath in cache
      requires partPath != parentPath
      modifies this
      ensures Model() == Index(AddChild(old(Model()), old(cache)[parentPath], FromFilename(partPath)), partPath, |old(nodes)|)
    {
      ghost var before := nodes;
      var entry := NewEntry(partPath, 0);
      cache := cache[partPath := entry];
      var parent := cache[parentPath];
      AddEntry(parent, entry);
      AttachWellFormed(before, parent, FromFilename(partPath));
      assert nodes == Attach(before, parent, FromFilename(partPath));
    }

    method ProcessNewDirFullPath(path: string)
      requires Valid()
      modifies this
      ensures Valid() && Model() == FullPath(old(Model()), path)
    {
      var parts := PathParts(path);
      PathPartsShape(path);
      for i := 0 to |parts|
        invariant WellFormed(Model())
        invariant 0 < i ==> parts[i - 1].1 in cache
        invariant FullPathFrom(Model(), parts, i) == FullPath(old(Model()), path)
      {
        var (parentPath, partPath) := parts[i];
        if partPath in cache {
          continue;
        }
        assert parentPath == "" || parentPath in cache by {
          if i > 0 { assert parentPath == parts[i - 1].1; }
        }
        ghost var before := Model();
        if parentPath == "" {
          CreateRootPart(partPath);
        } else {
          CreateChildPart(parentPath, partPath);
        }
        assert Model() == CreatePart(before, parentPath, partPath);
      }
      FullPathInv(old(Model()), path);
    }

    method ProcessNewDirDataset(path: string)
      requires Valid()
      modifies this
      ensures Valid() && Model() == Dataset(old(Model()), path)
    {
      var entry := NewEntry(path, 0);
      cache := cache[path := entry];
      roots := roots + [entry];
      DatasetInv(old(Model()), path);
    }

    /** `self._process_new_dir`, bound once in `__init__`. */
    method ProcessNewDir(path: string)
      requires Valid()
      modifies this
      ensures Valid() && Model() == NewDir(old(Model()), path, fullPath)
    {
      if fullPath {
        ProcessNewDirFullPath(path);
      } else {
        ProcessNewDirDataset(path);
      }
    }

    /** Lines 82 and 86-88: a directory under an indexed parent becomes the
        parent's last child, with the record's size, and is indexed. */
    method AddDirUnderParent(rec: Record)
      requires WellFormed(Model()) && Dirname(rec.path) in cache
      modifies this
      ensures Model() == Index(AddChild(old(Model()), old(cache)[Dirname(rec.path)], FromFilename(rec.path, rec.size)),
                               rec.path, |old(nodes)|)
    {
      ghost var before := nodes;
      var parent := cache[Dirname(rec.path)];
      var entry := NewEntry(rec.path, rec.size);
      AddEntry(parent, entry);
      cache := cache[rec.path := entry];
      AttachWellFormed(before, parent, FromFilename(rec.path, rec.size));
      assert nodes == Attach(before, parent, FromFilename(rec.path, rec.size));
    }

    /** Lines 82 and 92-94: a top-level file is indexed and becomes a root,
        with its size. */
    method AddRootFile(rec: Record)
      requires WellFormed(Model())
      modifies this
      ensures Model() == Index(AddRoot(old(Model()), FromFilename(rec.path, rec.size)), rec.path, |old(nodes)|)
    {
      var entry := NewEntry(rec.path, rec.size);
      cache := cache[rec.path := entry];
      roots := roots + [entry];
    }

    /** Lines 82 and 96: a nested file becomes its parent's last child, with
        its size; it is not indexed. */
    method AddNestedFile(rec: Record)
      requires WellFormed(Model()) && Dirname(rec.path) in cache
      modifies this
      ensures Model() == AddChild(old(Model()), old(cache)[Dirname(rec.path)], FromFilename(rec.path, rec.size))
    {
      ghost var before := nodes;
      var parent := cache[Dirname(rec.path)];
      var entry := NewEntry(rec.path, rec.size);
      AddEntry(parent, entry);
      AttachWellFormed(before, parent, FromFilename(rec.path, rec.size));
      assert nodes == Attach(before, parent, FromFilename(rec.path, rec.size));
    }

    /** One iteration of the loop in `process_lines`. The entry the source
        builds before branching is only created on the paths that keep it. */
    method ProcessRecord(rec: Record) returns (err: Option<Error>)
      requires Valid()
      modifies this
      ensures Valid()
      ensures match Builder.ProcessRecord(old(Model()), rec, fullPath)
        case Ok(st) => err == None && Model() == st
        case Err(e) => err == Some(e) && Model() == old(Model())
    {
      ProcessRecordInv(Model(), rec, fullPath);
      if rec.path == "." {
        return None;
      }
      var parentDir := Dirname(rec.path);
      if IsDir(rec) {
        if parentDir in cache {
          AddDirUnderParent(rec);
        } else {
          ProcessNewDir(rec.path);
        }
      } else if parentDir == "" {
        AddRootFile(rec);
      } else if parentDir in cache {
        AddNestedFile(rec);
      } else {
        return Some(KeyError(parentDir));
      }
      err := None;
    }

    /** `process_lines(lines)`. A lookup error ends processing, leaving the
        entries created so far in place. */
    method ProcessLines(records: seq<Record>) returns (err: Option<Error>)
      requires Valid()
      modifies this
      ensures Valid()
      ensures Run(old(Model()), records, fullPath) == Outcome(Model(), err)
    {
      for i := 0 to |records|
        invariant Valid()
        invariant Run(Model(), records[i..], fullPath) == Run(old(Model()), records, fullPath)
      {
        assert records[i..][0] == records[i] && records[i..][1..] == records[i + 1..];
        err := ProcessRecord(records[i]);
        if err.Some? {
          return;
        }
      }
      assert records[|records|..] == [];
      err := None;
    }

    /** `generate_ncdu_tree`. */
    function GenerateNcduTree(): (r: Ncdu.Json)
      reads this
      requires Valid()
    {
      Ncdu.GenerateNcduTree(Model())
    }

    /** `BorgAnalyzer.analyze(lines, full_path)`: the document for the whole
        stream, or the error that stopped it. */
    static method Analyze(records: seq<Record>, fullPath: bool) returns (r: Result<Ncdu.Json, Error>)
      ensures var o := Run(Empty, records, fullPath);
        r == if o.error.None? then Ok(Ncdu.GenerateNcduTree(o.state)) else Err(o.error.value)
    {
      var analyzer := new BorgAnalyzer(fullPath);
      var err := analyzer.ProcessLines(records);
      if err.Some? {
        return Err(err.value);
      }
      r := Ok(analyzer.GenerateNcduTree());
    }
  }
}
