# borg-ncdu-analyzer, modelled in Dafny

`borg_ncdu_analyzer.py` turns the output of `borg list --json-lines` into the
JSON import format of the `ncdu` disk-usage browser. The core is
`BorgAnalyzer`. It reads one record per archive member and builds a tree of
`FSEntry` nodes, and it keeps two structures while doing so:

- `_fs_cache`, a path index from path strings to entries;
- `_root_objects`, the list of top-level entries.

The analyzer works in one of two modes, fixed when it is constructed:

- **full-path mode** handles a directory whose parent is unknown by creating
  every missing prefix of its path, the directory itself included, each as
  an entry of size 0;
- **dataset mode** makes such a directory a new top-level tree.

`generate_ncdu_tree` then serialises the roots.

This project models that core. It is arranged in seven modules:

- `Wrappers` (`wrappers.dfy`): the `Option` and `Result` datatypes the other
  modules use for lookups that may fail.
- `Paths` (`paths.dfy`): `Split` is `str.split('/')`, `Join` is
  `'/'.join`, and `PathParts` is `iterate_path_parts`. `Dirname` and
  `Basename` are POSIX `os.path.dirname` and `os.path.basename`: the dirname
  is the head before the last '/', with trailing slashes stripped unless the
  head is all slashes, and the basename is everything after the last '/'.
- `FsTree` (`fs_entry.dfy`): the `FSEntry` value with `AddEntry`
  (`add_entry`) and `FromFilename` (`from_filename`), and the analyzer state
  as a value. The state is an arena
  `nodes` of entries in creation order, the path index `cache` from path to
  entry id, and `roots`. Child lists hold ids, so an entry that is shared
  between the path index and a child list is one id. The arena invariants
  are:
  - a child is created after its parent, so the tree is acyclic;
  - every entry is listed exactly once, either in the root list or in one
    child list.
- `Builder` (`builder.dfy`): each step of the analyzer as a pure function
  from the old state to the new one. `FullPath` is
  `_process_new_dir_full_path`, `Dataset` is `_process_new_dir_dataset`,
  `NewDir` is `_process_new_dir`, `ProcessRecord` is one iteration of
  `process_lines` and `Run` is the whole loop. The lemmas about those
  functions state what the steps do.
- `Ncdu` (`ncdu.dfy`): `EntryToNcdu` is `entry_to_ncdu` and
  `GenerateNcduTree` is `generate_ncdu_tree`, over a small JSON datatype, together with a decoder for that layout. The decoder gives
  back every tree, with the size of every leaf.
- `Analyzer` (`analyzer.dfy`): the class `BorgAnalyzer`. Its fields are the
  arena, the path index and the root list, and its methods change them in
  place as the source does. `ProcessNewDirFullPath`, `ProcessNewDirDataset`,
  `ProcessNewDir`, `ProcessRecord` and `ProcessLines` are each proved to
  leave exactly the state the matching `Builder` function computes, and to
  keep the arena invariants. The smaller methods they call (`NewEntry`,
  `AddEntry`, `CreateRootPart`, `CreateChildPart`, `AddDirUnderParent`,
  `AddRootFile`, `AddNestedFile`) are specified by the `FsTree` operations
  on the state.
- `Scenarios` (`scenarios.dfy`): concrete record streams followed through to
  the state they produce and to the ncdu document.

A dictionary lookup that fails (a `KeyError`) is modelled as an error value.
Processing stops at the first one and keeps the state built so far, just as
the exception does in the source.

### Behaviour of the code worth knowing

- A directory attached below an indexed parent keeps the size of its
  record: the entry built at line 82 from `record['size']` is the one added
  at line 87. Entries that `_process_new_dir_*` creates always have size 0,
  whatever the record's size, because lines 59 and 69 call `from_filename`
  with its default size (`Scenarios.TopDirFullPath`).
- A nested file whose parent directory is not in the path index (never
  announced, and not created as an ancestor of an earlier directory) is not
  given ancestors, in either mode. `self._fs_cache[parent_dir]` at line 96 raises
  `KeyError` (`Scenarios.NestedFileWithoutParent`).
- Nothing stops a directory from being attached twice. If its record comes
  again while its parent is indexed, lines 86-88 add a second child entry
  and re-index the path to it (`Builder.ProcessRecordDirTwice`,
  `Scenarios.RepeatedDirectory`). A directory that full-path mode already
  created as an ancestor of an earlier directory gets a second entry when
  its own record arrives, provided it is not top-level: "a/b/c" and then
  "a/b" give "a" two children named "b" (`Scenarios.AncestorAnnouncedLater`).
  A top-level ancestor is not duplicated while "" is not indexed: line 90
  hands its record to `_process_new_dir_full_path`, whose loop skips it at
  line 56 as already indexed.

## Model

| member | source | states |
|---|---|---|
| `FsTree.FSEntry.AddEntry` | borg_ncdu_analyzer.py:16-17 | the new child is appended last; name, size and the earlier children are unchanged |
| `FsTree.FromFilenameShape` | borg_ncdu_analyzer.py:19-21 | for a normalised path the entry is named after the last segment, has no children and carries the given size (0 by default) |
| `Paths.SplitCount` | borg_ncdu_analyzer.py:25 | `path.split('/')` has one more segment than the path has '/' characters |
| `Paths.SplitHasNoSlash` | borg_ncdu_analyzer.py:25 | no segment contains '/' |
| `Paths.SplitNoSlash` | borg_ncdu_analyzer.py:25 | a string without '/' splits into itself alone |
| `Paths.SplitCons` | borg_ncdu_analyzer.py:25 | splitting `a + '/' + b` with no '/' in `a` gives `a` followed by the segments of `b` |
| `Paths.JoinSplit` | borg_ncdu_analyzer.py:25-27 | `'/'.join(path.split('/')) == path` |
| `Paths.JoinSnoc` | borg_ncdu_analyzer.py:27 | joining one more segment appends '/' and that segment |
| `Paths.PathPartsShape` | borg_ncdu_analyzer.py:24-27 | `iterate_path_parts` yields one pair per segment; the first parent is "", each parent is the previous part, and the last part is the path itself |
| `Paths.PathPartsChained` | borg_ncdu_analyzer.py:24-27 | the pairs form a chain from "" |
| `Paths.PathPartsLast` | borg_ncdu_analyzer.py:24-27 | the last part is the whole path |
| `Paths.PathPartsAreDirnames` | borg_ncdu_analyzer.py:24-27 | on a normalised path every pair is (dirname(part), part) and basename(part) is the matching segment |
| `Paths.LastSlash` | borg_ncdu_analyzer.py:83 | the index found is -1 or the position of a '/' |
| `Paths.LastSlashIsLast` | borg_ncdu_analyzer.py:83 | no '/' follows that position |
| `Paths.RStrip` | borg_ncdu_analyzer.py:83 | the result is a prefix that does not end in '/' |
| `Paths.RStripDropsSlashes` | borg_ncdu_analyzer.py:83 | only '/' characters were removed |
| `Paths.BasenameHasNoSlash` | borg_ncdu_analyzer.py:21 | `os.path.basename` never contains '/' |
| `Paths.DirnameEmpty` | borg_ncdu_analyzer.py:83 | `dirname(p) == ""` exactly when `p` has no '/', and then `basename(p) == p` |
| `Paths.DirnameOfJoin` | borg_ncdu_analyzer.py:83 | `dirname(a + '/' + b) == a` and `basename(a + '/' + b) == b` for a slash-free `b` and a nonempty `a` that does not end in '/' |
| `Paths.JoinLastChar` | borg_ncdu_analyzer.py:27 | joining nonempty slash-free segments gives a nonempty string that does not end in '/' |
| `FsTree.AttachedExactlyOnce` | borg_ncdu_analyzer.py:63-96 | under the invariant each created id occurs exactly once among the roots and all child lists |
| `FsTree.ChildrenAppend` | borg_ncdu_analyzer.py:19-21 | creating an entry adds its children to the child multiset |
| `FsTree.ChildrenAddEntry` | borg_ncdu_analyzer.py:16-17 | `add_entry` adds exactly the new child to the child multiset |
| `FsTree.AppendWellFormed` | borg_ncdu_analyzer.py:19-21 | creating a childless entry keeps the arena well formed and adds no child |
| `FsTree.AttachShape` | borg_ncdu_analyzer.py:16-17 | creating an entry and adding it to a parent is the same as updating the parent and then appending |
| `FsTree.AttachNodesWellFormed` | borg_ncdu_analyzer.py:16-17 | attaching a new entry keeps children after their parents and only extends child lists |
| `FsTree.AttachWellFormed` | borg_ncdu_analyzer.py:16-17 | attaching keeps the arena well formed and adds exactly the new id as a child |
| `FsTree.ExtendsTrans` | borg_ncdu_analyzer.py:73-96 | "only grows by appending" composes |
| `FsTree.AddRoot` | borg_ncdu_analyzer.py:63 | a new entry is appended to the arena and to the root list; the path index is unchanged |
| `FsTree.AddChild` | borg_ncdu_analyzer.py:65 | a new entry becomes the last child of entry `p`; the path index and roots are unchanged |
| `FsTree.Index` | borg_ncdu_analyzer.py:60 | only the path index changes: `key` is bound to `id`, replacing any earlier binding |
| `FsTree.AddRootAttachedOnce` | borg_ncdu_analyzer.py:63 | adding a root keeps every entry listed exactly once |
| `FsTree.AddChildAttachedOnce` | borg_ncdu_analyzer.py:65 | adding a child keeps every entry listed exactly once |
| `Builder.CreatePart` | borg_ncdu_analyzer.py:56-65 | one loop step: the part ends up indexed, no earlier binding changes, and the arena only grows |
| `Builder.CreatePartNew` | borg_ncdu_analyzer.py:59-65 | an unindexed part becomes a new size-0 entry named after its last segment, indexed under its path, and goes to the root list exactly when its parent is "" |
| `Builder.CreatePartInv` | borg_ncdu_analyzer.py:56-65 | one loop step keeps every entry listed exactly once |
| `Builder.FullPathFrom` | borg_ncdu_analyzer.py:55-65 | the rest of the loop indexes every remaining part, keeps earlier bindings and only grows the arena |
| `Builder.FullPathFromInv` | borg_ncdu_analyzer.py:55-65 | the loop keeps every entry listed exactly once |
| `Builder.FullPathFromNoop` | borg_ncdu_analyzer.py:56-57 | when every remaining part is indexed the loop changes nothing |
| `Builder.FullPathFromNewEntries` | borg_ncdu_analyzer.py:55-65 | every entry the loop creates has size 0 and is the indexed entry of one of its parts, named after it |
| `Builder.FullPathIndexesParts` | borg_ncdu_analyzer.py:54-65 | after `_process_new_dir_full_path(path)` every prefix part, and the path itself, is indexed, and earlier bindings are kept |
| `Builder.FullPathNewEntries` | borg_ncdu_analyzer.py:54-65 | each new entry is a size-0 entry for one prefix part of the path |
| `Builder.FullPathIdempotent` | borg_ncdu_analyzer.py:54-65 | doing it twice with one path is the same as doing it once |
| `Builder.FullPathInv` | borg_ncdu_analyzer.py:54-65 | it keeps every entry listed exactly once |
| `Builder.DatasetEffect` | borg_ncdu_analyzer.py:68-71 | `_process_new_dir_dataset` appends one size-0 root named after the last segment and rebinds the path to it |
| `Builder.DatasetNotIdempotent` | borg_ncdu_analyzer.py:68-71 | a second call adds a second, different root, and the path now names the newer one |
| `Builder.DatasetInv` | borg_ncdu_analyzer.py:68-71 | it keeps every entry listed exactly once |
| `Builder.ProcessRecord` | borg_ncdu_analyzer.py:76-96 | a successful record keeps the arena well formed and only grows it |
| `Builder.ProcessRecordInv` | borg_ncdu_analyzer.py:76-96 | a successful record keeps every entry listed exactly once |
| `Builder.AttachDirInv` | borg_ncdu_analyzer.py:86-88 | attaching a directory under an indexed parent succeeds and keeps the invariant |
| `Builder.RootFileInv` | borg_ncdu_analyzer.py:92-94 | a top-level file succeeds and keeps the invariant |
| `Builder.AttachFileInv` | borg_ncdu_analyzer.py:95-96 | a nested file under an indexed parent succeeds and keeps the invariant |
| `Builder.ProcessRecordFails` | borg_ncdu_analyzer.py:83-96 | a record fails exactly when it is not ".", not a directory, has a '/' and its dirname is not indexed; the error is `KeyError(dirname)` |
| `Builder.ProcessRecordDot` | borg_ncdu_analyzer.py:79-80 | the record "." changes nothing |
| `Builder.ProcessRecordDirUnderKnownParent` | borg_ncdu_analyzer.py:82-88 | a directory under an indexed parent becomes the parent's last child with the record's size and is indexed; the roots are unchanged |
| `Builder.ProcessRecordDirUnderUnknownParent` | borg_ncdu_analyzer.py:89-90 | any other directory goes to `_process_new_dir` of the chosen mode |
| `Builder.ProcessRecordDirTwice` | borg_ncdu_analyzer.py:85-88 | the same directory record processed twice under an indexed parent gives two equal children and the index names the second |
| `Builder.ProcessRecordRootFile` | borg_ncdu_analyzer.py:92-94 | a top-level file becomes a root with its size and is indexed |
| `Builder.ProcessRecordNestedFile` | borg_ncdu_analyzer.py:95-96 | a nested file under an indexed parent becomes its last child with its size, and is not indexed |
| `Builder.Run` | borg_ncdu_analyzer.py:73-96 | processing a stream keeps the arena well formed and only grows it |
| `Builder.RunInv` | borg_ncdu_analyzer.py:73-96 | processing a stream keeps every entry listed exactly once |
| `Builder.RunAppend` | borg_ncdu_analyzer.py:73-96 | two batches in sequence equal one concatenated batch, unless the first fails |
| `Builder.RunError` | borg_ncdu_analyzer.py:73-96 | an error names the dirname of a file record in the stream whose directory is not indexed when processing stops |
| `Ncdu.EntryToNcduShape` | borg_ncdu_analyzer.py:100-107 | a childless entry becomes `{name, dsize}`; any other becomes `[{name}, child_1, ..., child_n]` in child order |
| `Ncdu.GenerateNcduTreeShape` | borg_ncdu_analyzer.py:109-116 | the document is `[1, 1, {}, [{'name': '/'}, root_1, ..., root_k]]` in root order |
| `Ncdu.DecodeEntryToNcdu` | borg_ncdu_analyzer.py:100-107 | decoding an encoded entry gives back its tree: names, order, and the sizes of leaves |
| `Ncdu.DecodeGenerateNcduTree` | borg_ncdu_analyzer.py:98-116 | decoding the document gives back the tree of every root, in order |
| `Analyzer.BorgAnalyzer.constructor` | borg_ncdu_analyzer.py:47-51 | an empty index and root list, and the chosen mode |
| `Analyzer.BorgAnalyzer.NewEntry` | borg_ncdu_analyzer.py:19-21 | a new entry with the given size is created and nothing else changes |
| `Analyzer.BorgAnalyzer.AddEntry` | borg_ncdu_analyzer.py:16-17 | `add_entry` on one entry in place; nothing else changes |
| `Analyzer.BorgAnalyzer.CreateRootPart` | borg_ncdu_analyzer.py:59-63 | the new state is the indexed new root |
| `Analyzer.BorgAnalyzer.CreateChildPart` | borg_ncdu_analyzer.py:59-65 | the new state is the indexed new child of the parent |
| `Analyzer.BorgAnalyzer.ProcessNewDirFullPath` | borg_ncdu_analyzer.py:54-65 | the in-place loop leaves exactly `Builder.FullPath` of the old state and keeps the invariant |
| `Analyzer.BorgAnalyzer.ProcessNewDirDataset` | borg_ncdu_analyzer.py:68-71 | leaves exactly `Builder.Dataset` of the old state and keeps the invariant |
| `Analyzer.BorgAnalyzer.ProcessNewDir` | borg_ncdu_analyzer.py:51 | works as the mode chosen by the constructor |
| `Analyzer.BorgAnalyzer.AddDirUnderParent` | borg_ncdu_analyzer.py:86-88 | the directory becomes the parent's last child, keeping its size, and is indexed |
| `Analyzer.BorgAnalyzer.AddRootFile` | borg_ncdu_analyzer.py:92-94 | the file becomes an indexed root |
| `Analyzer.BorgAnalyzer.AddNestedFile` | borg_ncdu_analyzer.py:95-96 | the file becomes the parent's last child |
| `Analyzer.BorgAnalyzer.ProcessRecord` | borg_ncdu_analyzer.py:75-96 | on success the new state is `Builder.ProcessRecord`'s; on a lookup error the state is unchanged and the error is returned |
| `Analyzer.BorgAnalyzer.ProcessLines` | borg_ncdu_analyzer.py:73-96 | the state and error equal `Builder.Run` of the old state, and the invariant holds |
| `Analyzer.BorgAnalyzer.Analyze` | borg_ncdu_analyzer.py:118-122 | the document of the state the whole stream builds from scratch, or the error that stopped it |
| `Scenarios.LoneTopLevelFile` | borg_ncdu_analyzer.py:92-94 | a lone file "a.txt" of size 42 becomes the only root, with its size, in either mode |
| `Scenarios.LoneTopLevelFileDocument` | borg_ncdu_analyzer.py:98-116 | its document is `[1, 1, {}, [{'name': '/'}, {'name': 'a.txt', 'dsize': 42}]]` |
| `Scenarios.NestedFileWithoutParent` | borg_ncdu_analyzer.py:95-96 | a lone file "x/y/z.txt" stops processing with `KeyError('x/y')` in either mode and creates nothing |
| `Scenarios.DotRecord` | borg_ncdu_analyzer.py:79-80 | "." contributes nothing |
| `Scenarios.FullPathOfXY` | borg_ncdu_analyzer.py:54-65 | full-path mode creates root "x" and its child "y" for the directory "x/y" |
| `Scenarios.DirThenFileFullPath` | borg_ncdu_analyzer.py:73-96 | in full-path mode, directory "x/y" and then file "x/y/z.txt" give / → x → y → z.txt |
| `Scenarios.DirThenFileFullPathDocument` | borg_ncdu_analyzer.py:98-116 | that tree's document, where only z.txt has a size |
| `Scenarios.DirThenFileDataset` | borg_ncdu_analyzer.py:73-96 | in dataset mode the same stream gives one root "y" holding z.txt |
| `Scenarios.DirThenFileDatasetDocument` | borg_ncdu_analyzer.py:98-116 | that tree's document |
| `Scenarios.TopDirFullPath` | borg_ncdu_analyzer.py:89-90 | a top-level directory announced in full-path mode gets size 0, not its record's size |
| `Scenarios.RepeatedDirectory` | borg_ncdu_analyzer.py:85-88 | "a", then "a/b" twice: "a" gets two children named "b" |
| `Scenarios.RepeatedDirectoryDocument` | borg_ncdu_analyzer.py:98-116 | that document lists "b" twice under "a" |
| `Scenarios.FullPathOfABC` | borg_ncdu_analyzer.py:54-65 | full-path mode announces "a/b/c" from scratch by creating "a", "a/b" and "a/b/c" as a chain of size-0 entries, each indexed |
| `Scenarios.AncestorAnnouncedLater` | borg_ncdu_analyzer.py:85-90 | in full-path mode, directory "a/b/c" and then directory "a/b": "a" gets a second child "b" with the record's size, the index moves to it, and the ancestor "b" keeps "c" |

## Left out

- `main`, `argparse`, the `borg list` subprocess (`read_lines_from_process`), `open_ncdu_with_tree` (temporary file, `json.dump`, starting `ncdu`), progress output and signal handling are I/O outside the model.
- `json.loads` and the record keys: records arrive already parsed as `Record(path, kind, size)`. A malformed line, or a record without `path` or `type`, raises in the source, and so does a record other than "." without `size` (line 82 reads it only after the "." check at lines 79-80); those cases are not modelled.
- Exceptions become values. `process_lines` and `analyze` raise `KeyError`; the model returns the error and keeps the state built so far. The serialised document is the `Json` datatype, not text.
- Object identity is modelled by arena ids. The Python entries the index and the child lists share are one id here. Line 82 builds an entry that the branch through line 90 discards; here that entry is only created on the branches that keep it, so the discarded object has no arena slot.
- Paths are taken as `os.path` does on POSIX only; the Windows path rules are not modelled.
- `Analyzer.BorgAnalyzer.GenerateNcduTree`: states no contract of its own, because it returns `Ncdu.GenerateNcduTree` of the object's state. The properties of the document are proved about that function.
- `Ncdu.GenerateNcduTree`: Python's recursion limit is not modelled. `entry_to_ncdu` recurses once per tree level, so a tree deeper than `sys.getrecursionlimit()` (1000 by default) raises `RecursionError` in the source, while the model always returns a document.
