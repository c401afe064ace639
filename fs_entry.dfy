/** The tree node `FSEntry` and the arena that holds every node the analyzer
    has created: `nodes[i]` is the entry with id i, child lists hold ids, the
    path index `cache` maps a path to an id and `roots` lists the top-level
    ids in first-seen order. */
module FsTree {
  import opened Paths

  /** One file or directory. `sub` lists the ids of its children in the
      order they were added. */
  datatype FSEntry = FSEntry(name: string, size: int, sub: seq<nat>)
  {
    /** `add_entry`: the new child goes last, the rest are unchanged. */
    function AddEntry(child: nat): (r: FSEntry)
      ensures r.name == name && r.size == size
      ensures |r.sub| == |sub| + 1 && r.sub[..|sub|] == sub && r.sub[|sub|] == child
    {
      this.(sub := sub + [child])
    }
  }

  /** `FSEntry.from_filename(path, size)`. */
  function FromFilename(path: string, size: int := 0): (r: FSEntry)
  {
    FSEntry(Basename(path), size, [])
  }

  /** The entry is named after the final segment of the path, is childless
      and carries the given size. */
  lemma FromFilenameShape(path: string, size: int)
    requires Normalised(path)
    ensures FromFilename(path, size).name == Split(path)[|Split(path)| - 1]
    ensures FromFilename(path, size).sub == [] && FromFilename(path, size).size == size
    ensures FromFilename(path).size == 0
  {
    PathPartsShape(path);
    PathPartsAreDirnames(path);
  }

  /** The analyzer's mutable state, as a value: `_fs_cache` and
      `_root_objects` together with every entry created so far. */
  datatype State = State(nodes: seq<FSEntry>, cache: map<string, nat>, roots: seq<nat>)

  const Empty := State([], map[], [])

  /** Children are created after their parent, so every child id is larger
      than its parent's; this makes the node graph acyclic. */
  ghost predicate NodesWellFormed(nodes: seq<FSEntry>)
  {
    forall i, k :: 0 <= i < |nodes| && 0 <= k < |nodes[i].sub| ==> i < nodes[i].sub[k] < |nodes|
  }

  ghost predicate WellFormed(st: State)
  {
    && NodesWellFormed(st.nodes)
    && (forall k :: 0 <= k < |st.roots| ==> st.roots[k] < |st.nodes|)
    && (forall p :: p in st.cache ==> st.cache[p] < |st.nodes|)
  }

  /** All child ids of all nodes, with multiplicity. */
  function Children(nodes: seq<FSEntry>): (r: multiset<nat>)
  {
    if nodes == [] then multiset{} else Children(nodes[..|nodes| - 1]) + multiset(nodes[|nodes| - 1].sub)
  }

  /** The ids 0 .. n-1, each once. */
  function Ids(n: nat): (r: multiset<nat>)
  {
    if n == 0 then multiset{} else Ids(n - 1) + multiset{n - 1}
  }

  /** Every entry ever created sits in exactly one place: either once in the
      root list or once in exactly one child list, and nothing else is
      listed. */
  ghost predicate AttachedOnce(st: State)
  {
    multiset(st.roots) + Children(st.nodes) == Ids(|st.nodes|)
  }

  ghost predicate Inv(st: State)
  {
    WellFormed(st) && AttachedOnce(st)
  }

  /** `b` grows from `a` only by appending: old entries keep their name and
      size, and their child lists are prefixes of the new ones. */
  ghost predicate NodesExtend(a: seq<FSEntry>, b: seq<FSEntry>)
  {
    && |a| <= |b|
    && forall i :: 0 <= i < |a| ==>
         && b[i].name == a[i].name
         && b[i].size == a[i].size
         && a[i].sub <= b[i].sub
  }

  /** Nodes and the root list only grow by appending (the path index, which
      may be overwritten, is not constrained). */
  ghost predicate Extends(a: State, b: State)
  {
    NodesExtend(a.nodes, b.nodes) && a.roots <= b.roots
  }

  lemma ExtendsTrans(a: State, b: State, c: State)
    requires Extends(a, b) && Extends(b, c)
    ensures Extends(a, c)
  {
  }

  /** Create entry `e` (id |nodes|) and add it as the last child of `p`. */
  function Attach(nodes: seq<FSEntry>, p: nat, e: FSEntry): (r: seq<FSEntry>)
    requires p < |nodes|
  {
    (nodes + [e])[p := nodes[p].AddEntry(|nodes|)]
  }

  lemma IdsCount(n: nat, id: nat)
    ensures Ids(n)[id] == if id < n then 1 else 0
  {
  }

  /** Under AttachedOnce, each created id occurs exactly once among the roots
      and all child lists together. */
  lemma AttachedExactlyOnce(st: State, id: nat)
    requires AttachedOnce(st)
    ensures multiset(st.roots)[id] + Children(st.nodes)[id] == if id < |st.nodes| then 1 else 0
  {
    IdsCount(|st.nodes|, id);
  }

  lemma ChildrenAppend(nodes: seq<FSEntry>, e: FSEntry)
    ensures Children(nodes + [e]) == Children(nodes) + multiset(e.sub)
  {
    assert (nodes + [e])[..|nodes|] == nodes;
  }

  lemma {:induction false} ChildrenAddEntry(nodes: seq<FSEntry>, p: nat, c: nat)
    requires p < |nodes|
    ensures Children(nodes[p := nodes[p].AddEntry(c)]) == Children(nodes) + multiset{c}
    decreases |nodes|
  {
    var n := |nodes|;
    var updated := nodes[p := nodes[p].AddEntry(c)];
    assert updated[..n - 1] == if p == n - 1 then nodes[..n - 1] else nodes[..n - 1][p := nodes[p].AddEntry(c)];
    if p < n - 1 {
      ChildrenAddEntry(nodes[..n - 1], p, c);
    }
  }

  /** Creating a childless entry keeps the arena well formed. */
  lemma AppendWellFormed(nodes: seq<FSEntry>, e: FSEntry)
    requires NodesWellFormed(nodes) && e.sub == []
    ensures NodesWellFormed(nodes + [e]) && NodesExtend(nodes, nodes + [e])
    ensures Children(nodes + [e]) == Children(nodes)
  {
    ChildrenAppend(nodes, e);
  }

  /** Attaching is the same as updating the parent and then appending. */
  lemma AttachShape(nodes: seq<FSEntry>, p: nat, e: FSEntry)
    requires p < |nodes|
    ensures Attach(nodes, p, e) == nodes[p := nodes[p].AddEntry(|nodes|)] + [e]
  {
    var r := Attach(nodes, p, e);
    var q := nodes[p := nodes[p].AddEntry(|nodes|)] + [e];
    assert |r| == |q|;
    forall i | 0 <= i < |r|
      ensures r[i] == q[i]
    {
    }
  }

  lemma AttachNodesWellFormed(nodes: seq<FSEntry>, p: nat, e: FSEntry)
    requires NodesWellFormed(nodes) && p < |nodes| && e.sub == []
    ensures NodesWellFormed(Attach(nodes, p, e)) && NodesExtend(nodes, Attach(nodes, p, e))
  {
    var n: nat := |nodes|;
    var r := Attach(nodes, p, e);
    AttachShape(nodes, p, e);
    forall i, k | 0 <= i < |r| && 0 <= k < |r[i].sub|
      ensures i < r[i].sub[k] < |r|
    {
      if i == p && k == |nodes[p].sub| {
        assert r[i].sub[k] == n;
      } else if i == p {
        assert r[i].sub[k] == nodes[p].sub[k];
      } else {
        assert r[i] == nodes[i];
      }
    }
  }

  /** Creating a childless entry as the last child of an existing node keeps
      the arena well formed and adds exactly the new id to the child lists. */
  lemma AttachWellFormed(nodes: seq<FSEntry>, p: nat, e: FSEntry)
    requires NodesWellFormed(nodes) && p < |nodes| && e.sub == []
    ensures |Attach(nodes, p, e)| == |nodes| + 1
    ensures NodesWellFormed(Attach(nodes, p, e)) && NodesExtend(nodes, Attach(nodes, p, e))
    ensures Children(Attach(nodes, p, e)) == Children(nodes) + multiset{|nodes|}
    ensures Attach(nodes, p, e) == nodes[p := nodes[p].AddEntry(|nodes|)] + [e]
  {
    ChildrenAppend(nodes, e);
    ChildrenAddEntry(nodes + [e], p, |nodes|);
    AttachShape(nodes, p, e);
    AttachNodesWellFormed(nodes, p, e);
  }

  // ---------------------------------------------------------------------
  // The three ways the analyzer changes its state

  /** Create `e` and append it to the root list. */
  function AddRoot(st: State, e: FSEntry): (r: State)
    requires WellFormed(st) && e.sub == []
    ensures WellFormed(r) && Extends(st, r)
    ensures r.nodes == st.nodes + [e] && r.cache == st.cache && r.roots == st.roots + [|st.nodes|]
  {
    AppendWellFormed(st.nodes, e);
    State(st.nodes + [e], st.cache, st.roots + [|st.nodes|])
  }

  /** Create `e` and append it to the child list of entry `p`. */
  function AddChild(st: State, p: nat, e: FSEntry): (r: State)
    requires WellFormed(st) && p < |st.nodes| && e.sub == []
    ensures WellFormed(r) && Extends(st, r)
    ensures r.nodes == st.nodes[p := st.nodes[p].AddEntry(|st.nodes|)] + [e]
    ensures r.cache == st.cache && r.roots == st.roots
  {
    AttachWellFormed(st.nodes, p, e);
    State(Attach(st.nodes, p, e), st.cache, st.roots)
  }

  /** Bind `key` to entry `id` in the path index, replacing any binding. */
  function Index(st: State, key: string, id: nat): (r: State)
    requires WellFormed(st) && id < |st.nodes|
    ensures WellFormed(r) && Extends(st, r)
    ensures r.nodes == st.nodes && r.cache == st.cache[key := id] && r.roots == st.roots
  {
    st.(cache := st.cache[key := id])
  }

  lemma AddRootAttachedOnce(st: State, e: FSEntry)
    requires Inv(st) && e.sub == []
    ensures Inv(AddRoot(st, e))
  {
    var n: nat := |st.nodes|;
    AppendWellFormed(st.nodes, e);
    assert multiset(st.roots + [n]) == multiset(st.roots) + multiset{n};
  }

  lemma AddChildAttachedOnce(st: State, p: nat, e: FSEntry)
    requires Inv(st) && p < |st.nodes| && e.sub == []
    ensures Inv(AddChild(st, p, e))
  {
    AttachWellFormed(st.nodes, p, e);
  }
}
