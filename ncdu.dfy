/** `generate_ncdu_tree` / `entry_to_ncdu`: the finished tree in ncdu's
    JSON import layout, and a decoder that reads that layout back, to show
    that the encoding loses nothing but the sizes of non-empty directories. */
module Ncdu {
  import opened Wrappers
  import opened FsTree

  /** The JSON values the serialiser produces. Objects keep their key order,
      as Python dicts do. */
  datatype Json = JInt(n: int) | JStr(s: string) | JObject(fields: seq<(string, Json)>) | JArray(items: seq<Json>)

  function NameObject(name: string): (r: Json)
  {
    JObject([("name", JStr(name))])
  }

  function LeafObject(name: string, size: int): (r: Json)
  {
    JObject([("name", JStr(name)), ("dsize", JInt(size))])
  }

  /** `entry_to_ncdu`: a childless entry is `{'name', 'dsize'}`, any other is
      `[{'name'}, child_1, ..., child_n]`. */
  function EntryToNcdu(nodes: seq<FSEntry>, id: nat): (r: Json)
    requires NodesWellFormed(nodes) && id < |nodes|
    decreases |nodes| - id
  {
    var e := nodes[id];
    if |e.sub| == 0 then LeafObject(e.name, e.size)
    else JArray([NameObject(e.name)] + seq(|e.sub|, k requires 0 <= k < |e.sub| => EntryToNcdu(nodes, e.sub[k])))
  }

  /** `generate_ncdu_tree`: `[1, 1, {}, [{'name': '/'}, root_1, ..., root_k]]`. */
  function GenerateNcduTree(st: State): (r: Json)
    requires WellFormed(st)
  {
    JArray([JInt(1), JInt(1), JObject([]),
            JArray([NameObject("/")] + seq(|st.roots|, k requires 0 <= k < |st.roots| => EntryToNcdu(st.nodes, st.roots[k])))])
  }

  /** The tree below an entry with its sizes as ncdu can see them: a leaf
      carries its size, a directory with children carries none. */
  datatype View = Leaf(name: string, size: int) | Dir(name: string, children: seq<View>)

  function ViewOf(nodes: seq<FSEntry>, id: nat): (r: View)
    requires NodesWellFormed(nodes) && id < |nodes|
    decreases |nodes| - id
  {
    var e := nodes[id];
    if |e.sub| == 0 then Leaf(e.name, e.size)
    else Dir(e.name, seq(|e.sub|, k requires 0 <= k < |e.sub| => ViewOf(nodes, e.sub[k])))
  }

  predicate AllSome(xs: seq<Option<View>>)
  {
    forall k :: 0 <= k < |xs| ==> xs[k].Some?
  }

  function Values(xs: seq<Option<View>>): (r: seq<View>)
    requires AllSome(xs)
    ensures |r| == |xs| && forall k :: 0 <= k < |xs| ==> xs[k] == Some(r[k])
  {
    seq(|xs|, k requires 0 <= k < |xs| => xs[k].value)
  }

  /** Reads one node of the import layout back. */
  function Decode(j: Json): (r: Option<View>)
    decreases j
  {
    match j
    case JObject(fields) =>
      if |fields| == 2 && fields[0].0 == "name" && fields[0].1.JStr? && fields[1].0 == "dsize" && fields[1].1.JInt?
      then Some(Leaf(fields[0].1.s, fields[1].1.n))
      else None
    case JArray(items) =>
      if |items| >= 1 && items[0].JObject? && |items[0].fields| == 1 && items[0].fields[0].0 == "name" &&
         items[0].fields[0].1.JStr?
      then
        var kids := seq(|items| - 1, k requires 0 <= k < |items| - 1 => Decode(items[k + 1]));
        if AllSome(kids) then Some(Dir(items[0].fields[0].1.s, Values(kids))) else None
      else None
    case _ => None
  }

  /** Reads a whole document back into its list of top-level trees. */
  function DecodeDocument(j: Json): (r: Option<seq<View>>)
  {
    if j.JArray? && |j.items| == 4 && j.items[0] == JInt(1) && j.items[1] == JInt(1) && j.items[2] == JObject([]) &&
       j.items[3].JArray? && |j.items[3].items| >= 1 && j.items[3].items[0] == NameObject("/")
    then
      var roots := j.items[3].items[1..];
      var views := seq(|roots|, k requires 0 <= k < |roots| => Decode(roots[k]));
      if AllSome(views) then Some(Values(views)) else None
    else None
  }

  /** A childless entry becomes `{'name', 'dsize'}`; an entry with n children
      becomes a list of length 1 + n holding `{'name'}` and then its children
      in order, with no size. */
  lemma EntryToNcduShape(nodes: seq<FSEntry>, id: nat)
    requires NodesWellFormed(nodes) && id < |nodes|
    ensures var j := EntryToNcdu(nodes, id);
      var e := nodes[id];
      && (e.sub == [] ==> j == JObject([("name", JStr(e.name)), ("dsize", JInt(e.size))]))
      && (e.sub != [] ==>
            && j.JArray? && |j.items| == 1 + |e.sub|
            && j.items[0] == JObject([("name", JStr(e.name))])
            && forall k :: 0 <= k < |e.sub| ==> j.items[k + 1] == EntryToNcdu(nodes, e.sub[k]))
  {
  }

  /** The document has the three version markers, then one list whose first
      element is the pseudo-root `{'name': '/'}` followed by one element per
      root entry, in root-list order. */
  lemma GenerateNcduTreeShape(st: State)
    requires WellFormed(st)
    ensures var j := GenerateNcduTree(st);
      && j.JArray? && |j.items| == 4
      && j.items[..3] == [JInt(1), JInt(1), JObject([])]
      && j.items[3].JArray? && |j.items[3].items| == 1 + |st.roots|
      && j.items[3].items[0] == JObject([("name", JStr("/"))])
      && forall k :: 0 <= k < |st.roots| ==> j.items[3].items[k + 1] == EntryToNcdu(st.nodes, st.roots[k])
  {
  }

  /** Decoding an encoded entry gives back its tree. */
  lemma {:induction false} DecodeEntryToNcdu(nodes: seq<FSEntry>, id: nat)
    requires NodesWellFormed(nodes) && id < |nodes|
    ensures Decode(EntryToNcdu(nodes, id)) == Some(ViewOf(nodes, id))
    decreases |nodes| - id
  {
    var e := nodes[id];
    if |e.sub| != 0 {
      var j := EntryToNcdu(nodes, id);
      var items := j.items;
      var kids := seq(|items| - 1, k requires 0 <= k < |items| - 1 => Decode(items[k + 1]));
      assert Decode(j) == if AllSome(kids) then Some(Dir(e.name, Values(kids))) else None;
      var children := ViewOf(nodes, id).children;
      forall k | 0 <= k < |e.sub|
        ensures kids[k] == Some(children[k])
      {
        assert items[k + 1] == EntryToNcdu(nodes, e.sub[k]);
        DecodeEntryToNcdu(nodes, e.sub[k]);
      }
      assert Values(kids) == children;
    }
  }

  /** Decoding a generated document gives back the trees of the root list,
      in order. */
  lemma DecodeGenerateNcduTree(st: State)
    requires WellFormed(st)
    ensures DecodeDocument(GenerateNcduTree(st)) ==
      Some(seq(|st.roots|, k requires 0 <= k < |st.roots| => ViewOf(st.nodes, st.roots[k])))
  {
    var j := GenerateNcduTree(st);
    var roots := j.items[3].items[1..];
    var views := seq(|roots|, k requires 0 <= k < |roots| => Decode(roots[k]));
    assert DecodeDocument(j) == if AllSome(views) then Some(Values(views)) else None;
    var expected := seq(|st.roots|, k requires 0 <= k < |st.roots| => ViewOf(st.nodes, st.roots[k]));
    forall k | 0 <= k < |st.roots|
      ensures views[k] == Some(expected[k])
    {
      assert roots[k] == EntryToNcdu(st.nodes, st.roots[k]);
      DecodeEntryToNcdu(st.nodes, st.roots[k]);
    }
    assert Values(views) == expected;
  }
}
