/**
 Merging an asset directory with an override directory (mattermost-mobile/scripts/make-dist-assets.js).

 The base tree is walked recursively; every file is copied to the destination from the override tree if that has a
 file at the same path, and from the base tree otherwise, except that JSON files present in both are merged key by
 key. `Merge` is the tree that should result; `LeftMergeDirs` is the code that writes it.
 */
module MergeAssets {
  import opened Wrappers

  type Path = seq<string>

  /** The content of a file: a JSON object; another JSON text, with its own enumerable properties (an array or a string
      has one per index, a number, a boolean or null has none); or text that does not parse as JSON. */
  datatype Content =
    | JsonObject(entries: map<string, string>)
    | JsonOther(text: string, properties: map<string, string>)
    | Text(bytes: string)

  datatype Node = File(content: Content) | Dir(entries: seq<Entry>)

  datatype Entry = Entry(name: string, node: Node)

  // ---------------------------------------------------------------------------------------------------------
  // Trees

  ghost predicate WellFormed(n: Node) {
    n.Dir? ==>
      && (forall i, j | 0 <= i < j < |n.entries| :: n.entries[i].name != n.entries[j].name)
      && (forall e | e in n.entries :: WellFormed(e.node))
  }

  function Child(entries: seq<Entry>, name: string): Option<Node> {
    if entries == [] then None
    else if entries[|entries| - 1].name == name then Some(entries[|entries| - 1].node)
    else Child(entries[..|entries| - 1], name)
  }

  /** What is at a path below a node. */
  function Find(n: Node, p: Path): Option<Node>
    decreases |p|
  {
    if p == [] then Some(n)
    else if n.File? || Child(n.entries, p[0]).None? then None
    else Find(Child(n.entries, p[0]).value, p[1..])
  }

  /** Reading a file succeeds only if there is a file at the path, not a directory. */
  function ReadFile(root: Node, p: Path): Option<Content> {
    var n := Find(root, p);
    if n.Some? && n.value.File? then Some(n.value.content) else None
  }

  function BaseName(p: Path): string {
    if p == [] then "" else p[|p| - 1]
  }

  predicate IsJsonName(name: string) {
    |name| >= 5 && name[|name| - 5..] == ".json"
  }

  lemma JsonNames(name: string)
    ensures IsJsonName(name) <==> exists stem: string :: name == stem + ".json"
  {
    if IsJsonName(name) {
      assert name == name[..|name| - 5] + ".json";
    }
  }

  /** What assigning a parsed text to an object copies. */
  function Properties(c: Content): map<string, string>
    requires !c.Text?
  {
    if c.JsonObject? then c.entries else c.properties
  }

  /** The content written for a file with content a, given what the override has there. */
  function Combine(name: string, a: Content, b: Option<Content>): Content {
    match b
    case None => a
    case Some(c) => if IsJsonName(name) && !a.Text? && !c.Text? then JsonObject(Properties(a) + Properties(c)) else c
  }

  /** Parsing fails for a JSON file that both trees have, unless both texts are JSON. */
  predicate Parses(name: string, a: Content, b: Option<Content>) {
    b.Some? && IsJsonName(name) ==> !a.Text? && !b.value.Text?
  }

  /** What has to be written for a file with content `a`, where the override has `b` at the path: without an override the
      base's content; the override's, if it is no JSON file; otherwise an object with the properties of both, each with
      the value of the override if that has it, and of the base if not. */
  ghost predicate Right(name: string, a: Content, b: Option<Content>, written: Content) {
    && (b.None? ==> written == a)
    && (b.Some? && !IsJsonName(name) ==> written == b.value)
    && (b.Some? && IsJsonName(name) ==>
          && !a.Text? && !b.value.Text? && written.JsonObject?
          && written.entries.Keys == Properties(a).Keys + Properties(b.value).Keys
          && (forall k | k in Properties(b.value) :: written.entries[k] == Properties(b.value)[k])
          && (forall k | k in Properties(a) && k !in Properties(b.value) :: written.entries[k] == Properties(a)[k]))
  }

  lemma CombineIsRight(name: string, a: Content, b: Option<Content>)
    requires Parses(name, a, b)
    ensures Right(name, a, b, Combine(name, a, b))
  {}

  /** Only one content is right. */
  lemma RightIsUnique(name: string, a: Content, b: Option<Content>, x: Content, y: Content)
    requires Right(name, a, b, x) && Right(name, a, b, y)
    ensures x == y
  {
    if b.Some? && IsJsonName(name) {
      assert x.entries == y.entries;
    }
  }

  // ---------------------------------------------------------------------------------------------------------
  // Specification

  function Merge(n: Node, rootB: Node, p: Path): Node {
    match n
    case File(a) => File(Combine(BaseName(p), a, ReadFile(rootB, p)))
    case Dir(entries) => Dir(MergeEntries(entries, rootB, p))
  }

  function MergeEntries(entries: seq<Entry>, rootB: Node, p: Path): (merged: seq<Entry>)
    ensures |merged| == |entries| && forall i | 0 <= i < |entries| :: merged[i].name == entries[i].name
  {
    if entries == [] then []
    else
      var e := entries[|entries| - 1];
      assert e in entries;
      MergeEntries(entries[..|entries| - 1], rootB, p) + [Entry(e.name, Merge(e.node, rootB, p + [e.name]))]
  }

  /** No file on the way makes parsing fail. */
  ghost predicate Mergeable(n: Node, rootB: Node, p: Path) {
    match n
    case File(a) => Parses(BaseName(p), a, ReadFile(rootB, p))
    case Dir(entries) => forall e | e in entries :: Mergeable(e.node, rootB, p + [e.name])
  }

  lemma {:induction false} MergedChild(entries: seq<Entry>, rootB: Node, p: Path, name: string)
    ensures Child(MergeEntries(entries, rootB, p), name) ==
      if Child(entries, name).None? then None else Some(Merge(Child(entries, name).value, rootB, p + [name]))
  {
    if entries != [] {
      MergedChild(entries[..|entries| - 1], rootB, p, name);
      var merged := MergeEntries(entries, rootB, p);
      assert merged[..|merged| - 1] == MergeEntries(entries[..|entries| - 1], rootB, p);
    }
  }

  /** Pointwise: the merged tree has exactly the base tree's paths, directories where it has directories, and at each
      file the base copy, the override's copy, or for two JSON texts the right-biased merge of their properties. */
  lemma {:induction false} MergePointwise(n: Node, rootB: Node, p: Path, q: Path)
    ensures Find(Merge(n, rootB, p), q) ==
      if Find(n, q).None? then None else Some(Merge(Find(n, q).value, rootB, p + q))
    decreases |q|
  {
    if q == [] {
      assert p + q == p;
    } else if n.Dir? {
      MergedChild(n.entries, rootB, p, q[0]);
      if Child(n.entries, q[0]).Some? {
        MergePointwise(Child(n.entries, q[0]).value, rootB, p + [q[0]], q[1..]);
        assert p + [q[0]] + q[1..] == p + q;
      }
    }
  }

  lemma {:induction false} ChildOf(entries: seq<Entry>, e: Entry)
    requires e in entries && forall i, j | 0 <= i < j < |entries| :: entries[i].name != entries[j].name
    ensures Child(entries, e.name) == Some(e.node)
  {
    if entries[|entries| - 1] != e {
      ChildOf(entries[..|entries| - 1], e);
    }
  }

  /** Every file at or below the node that both trees have, and that is a JSON file by its name, parses in both. */
  ghost predicate AllParse(n: Node, rootB: Node, p: Path) {
    forall q | Find(n, q).Some? && Find(n, q).value.File? && ReadFile(rootB, p + q).Some? && IsJsonName(BaseName(p + q)) ::
      !Find(n, q).value.content.Text? && !ReadFile(rootB, p + q).value.Text?
  }

  ghost predicate ParsesBelow(n: Node, rootB: Node, p: Path) {
    forall q | Find(n, q).Some? && Find(n, q).value.File? :: Parses(BaseName(p + q), Find(n, q).value.content, ReadFile(rootB, p + q))
  }

  lemma {:induction false} MergeableBelow(n: Node, rootB: Node, p: Path)
    requires WellFormed(n)
    ensures Mergeable(n, rootB, p) <==> ParsesBelow(n, rootB, p)
    decreases n
  {
    match n
    case File(a) =>
      assert Find(n, []) == Some(n) && p + [] == p;
    case Dir(entries) =>
      forall e | e in entries ensures Mergeable(e.node, rootB, p + [e.name]) <==> ParsesBelow(e.node, rootB, p + [e.name]) {
        MergeableBelow(e.node, rootB, p + [e.name]);
      }
      BelowParse(entries, rootB, p);
  }

  lemma BelowParse(entries: seq<Entry>, rootB: Node, p: Path)
    requires WellFormed(Dir(entries))
    ensures ParsesBelow(Dir(entries), rootB, p) <==> forall e | e in entries :: ParsesBelow(e.node, rootB, p + [e.name])
  {
    hide Parses, ReadFile;
    if ParsesBelow(Dir(entries), rootB, p) {
      forall e | e in entries ensures ParsesBelow(e.node, rootB, p + [e.name]) {
        ChildOf(entries, e);
        forall q | Find(e.node, q).Some? && Find(e.node, q).value.File?
          ensures Parses(BaseName(p + [e.name] + q), Find(e.node, q).value.content, ReadFile(rootB, p + [e.name] + q))
        {
          assert ([e.name] + q)[1..] == q && p + ([e.name] + q) == p + [e.name] + q;
          assert Find(Dir(entries), [e.name] + q) == Find(e.node, q);
        }
      }
    } else {
      var q :| Find(Dir(entries), q).Some? && Find(Dir(entries), q).value.File?
        && !Parses(BaseName(p + q), Find(Dir(entries), q).value.content, ReadFile(rootB, p + q));
      ChildIsEntry(entries, q[0]);
      var e :| e in entries && e.name == q[0];
      ChildOf(entries, e);
      assert p + [e.name] + q[1..] == p + q;
      assert Find(e.node, q[1..]) == Find(Dir(entries), q);
    }
  }

  /** Whether the merge succeeds, path by path. */
  lemma MergeableIff(n: Node, rootB: Node, p: Path)
    requires WellFormed(n)
    ensures Mergeable(n, rootB, p) <==> AllParse(n, rootB, p)
    ensures Mergeable(n, rootB, p) <==> ParsesBelow(n, rootB, p)
  {
    MergeableBelow(n, rootB, p);
  }

  lemma CombineTwice(name: string, a: Content, b: Option<Content>)
    requires Parses(name, a, b)
    ensures Combine(name, Combine(name, a, b), b) == Combine(name, a, b) && Parses(name, Combine(name, a, b), b)
  {
    if b.Some? && IsJsonName(name) {
      var x, y := Properties(a), Properties(b.value);
      assert x + y + y == x + y;
    }
  }

  /** Merging the result with the same override tree again parses, and changes nothing. */
  lemma {:induction false} MergeTwice(n: Node, rootB: Node, p: Path)
    requires Mergeable(n, rootB, p)
    ensures Merge(Merge(n, rootB, p), rootB, p) == Merge(n, rootB, p)
    ensures Mergeable(Merge(n, rootB, p), rootB, p)
    decreases n, 1
  {
    match n
    case File(a) => CombineTwice(BaseName(p), a, ReadFile(rootB, p));
    case Dir(entries) => MergeEntriesTwice(entries, rootB, p);
  }

  lemma {:induction false} MergeEntriesTwice(entries: seq<Entry>, rootB: Node, p: Path)
    requires forall e | e in entries :: Mergeable(e.node, rootB, p + [e.name])
    ensures MergeEntries(MergeEntries(entries, rootB, p), rootB, p) == MergeEntries(entries, rootB, p)
    ensures forall e | e in MergeEntries(entries, rootB, p) :: Mergeable(e.node, rootB, p + [e.name])
    decreases entries, 0
  {
    if entries != [] {
      var before, e := entries[..|entries| - 1], entries[|entries| - 1];
      var merged := MergeEntries(entries, rootB, p);
      MergeEntriesTwice(before, rootB, p);
      MergeTwice(e.node, rootB, p + [e.name]);
      assert merged[..|merged| - 1] == MergeEntries(before, rootB, p);
    }
  }

  // ---------------------------------------------------------------------------------------------------------
  // The code

  datatype Stored = Directory | Regular(content: Content)

  function StoredAs(n: Node): Stored {
    if n.Dir? then Directory else Regular(n.content)
  }

  function At(nodes: map<Path, Stored>, p: Path): Option<Stored> {
    if p in nodes then Some(nodes[p]) else None
  }

  class Destination {
    var nodes: map<Path, Stored>

    /** The destination exists and is empty. */
    constructor ()
      ensures nodes == map[[] := Directory]
    {
      nodes := map[[] := Directory];
    }

    /** An existing entry is not an error. */
    method Mkdir(p: Path)
      modifies this
      ensures nodes == if p in old(nodes) then old(nodes) else old(nodes)[p := Directory]
    {
      if p !in nodes {
        nodes := nodes[p := Directory];
      }
    }

    method Write(p: Path, content: Content)
      requires p in nodes ==> nodes[p].Regular?
      modifies this
      ensures nodes == old(nodes)[p := Regular(content)]
    {
      nodes := nodes[p := Regular(content)];
    }
  }

  /** `after` is `before` with the tree written at `path`. */
  ghost predicate Written(before: map<Path, Stored>, after: map<Path, Stored>, path: Path, tree: Node) {
    forall p :: At(after, p) == WrittenAt(before, path, tree, p)
  }

  function WrittenAt(before: map<Path, Stored>, path: Path, tree: Node, p: Path): Option<Stored> {
    if path <= p && Find(tree, p[|path|..]).Some? then Some(StoredAs(Find(tree, p[|path|..]).value)) else At(before, p)
  }

  /** Nothing is stored below the path. */
  ghost predicate EmptyBelow(nodes: map<Path, Stored>, path: Path) {
    forall p | p in nodes && path <= p :: p == path && nodes[p].Directory?
  }

  lemma WrittenOne(before: map<Path, Stored>, mid: map<Path, Stored>, after: map<Path, Stored>,
                   path: Path, entries: seq<Entry>, e: Entry)
    requires Written(before, mid, path, Dir(entries)) && Written(mid, after, path + [e.name], e.node)
    requires Child(entries, e.name).None?
    ensures Written(before, after, path, Dir(entries + [e]))
  {
    forall p ensures At(after, p) == WrittenAt(before, path, Dir(entries + [e]), p) {
      assert At(mid, p) == WrittenAt(before, path, Dir(entries), p);
      assert At(after, p) == WrittenAt(mid, path + [e.name], e.node, p);
      if path <= p {
        OneMoreAt(before, mid, after, path, entries, e, p);
      }
    }
  }

  lemma OneMoreAt(before: map<Path, Stored>, mid: map<Path, Stored>, after: map<Path, Stored>,
                  path: Path, entries: seq<Entry>, e: Entry, p: Path)
    requires At(mid, p) == WrittenAt(before, path, Dir(entries), p)
    requires At(after, p) == WrittenAt(mid, path + [e.name], e.node, p)
    requires path <= p && Child(entries, e.name).None?
    ensures At(after, p) == WrittenAt(before, path, Dir(entries + [e]), p)
  {
    hide At;
    var q := p[|path|..];
    if q != [] {
      FindWithOneMore(entries, e, q);
      if q[0] == e.name {
        assert path + [e.name] <= p && p[|path + [e.name]|..] == q[1..];
      }
    }
  }

  lemma FindWithOneMore(entries: seq<Entry>, e: Entry, q: Path)
    requires q != []
    ensures Find(Dir(entries + [e]), q) == if q[0] == e.name then Find(e.node, q[1..]) else Find(Dir(entries), q)
  {
    assert (entries + [e])[..|entries|] == entries;
  }

  lemma NotYetThere(before: map<Path, Stored>, mid: map<Path, Stored>, path: Path, entries: seq<Entry>, name: string)
    requires EmptyBelow(before, path) && Written(before, mid, path, Dir(entries)) && Child(entries, name).None?
    ensures forall p | path + [name] <= p :: p !in mid
  {
    forall p | path + [name] <= p ensures p !in mid {
      assert At(mid, p) == WrittenAt(before, path, Dir(entries), p);
      assert path <= p && p[|path|..][0] == name && p != path;
    }
  }

  /** With the first i entries written, nothing is at or below the place of the next one. */
  lemma NextIsFree(before: map<Path, Stored>, mid: map<Path, Stored>, path: Path, entries: seq<Entry>, i: nat, rootB: Node)
    requires i < |entries| && EmptyBelow(before, path) && WellFormed(Dir(entries))
    requires Written(before, mid, path, Dir(MergeEntries(entries[..i], rootB, path)))
    ensures Child(MergeEntries(entries[..i], rootB, path), entries[i].name).None?
    ensures forall p | path + [entries[i].name] <= p :: p !in mid
  {
    hide Written, Find, ReadFile;
    MergedChild(entries[..i], rootB, path, entries[i].name);
    ChildIsEntry(entries[..i], entries[i].name);
    NotYetThere(before, mid, path, MergeEntries(entries[..i], rootB, path), entries[i].name);
  }

  lemma OneMoreWritten(before: map<Path, Stored>, mid: map<Path, Stored>, after: map<Path, Stored>, path: Path,
                       entries: seq<Entry>, i: nat, rootB: Node)
    requires i < |entries| && Child(MergeEntries(entries[..i], rootB, path), entries[i].name).None?
    requires Written(before, mid, path, Dir(MergeEntries(entries[..i], rootB, path)))
    requires Written(mid, after, path + [entries[i].name], Merge(entries[i].node, rootB, path + [entries[i].name]))
    ensures Written(before, after, path, Dir(MergeEntries(entries[..i + 1], rootB, path)))
  {
    hide Written, Find, ReadFile;
    var merged, e := MergeEntries(entries[..i], rootB, path),
      Entry(entries[i].name, Merge(entries[i].node, rootB, path + [entries[i].name]));
    WrittenOne(before, mid, after, path, merged, e);
    assert entries[..i + 1][..i] == entries[..i];
    assert MergeEntries(entries[..i + 1], rootB, path) == merged + [e];
  }

  lemma {:induction false} ChildIsEntry(entries: seq<Entry>, name: string)
    ensures Child(entries, name).Some? ==> exists e :: e in entries && e.name == name
  {
    if entries != [] {
      ChildIsEntry(entries[..|entries| - 1], name);
      if Child(entries, name).Some? && entries[|entries| - 1].name != name {
        var e :| e in entries[..|entries| - 1] && e.name == name;
        assert e in entries;
      } else {
        assert entries[|entries| - 1] in entries;
      }
    }
  }

  lemma EntryOf(a: Node, rootB: Node, path: Path, i: nat)
    requires a.Dir? && WellFormed(a) && i < |a.entries|
    ensures WellFormed(a.entries[i].node)
    ensures Mergeable(a, rootB, path) ==> Mergeable(a.entries[i].node, rootB, path + [a.entries[i].name])
  {
    assert a.entries[i] in a.entries;
  }

  lemma AllMergeable(a: Node, rootB: Node, path: Path)
    requires a.Dir?
    requires forall k | 0 <= k < |a.entries| :: Mergeable(a.entries[k].node, rootB, path + [a.entries[k].name])
    ensures Mergeable(a, rootB, path)
  {}

  /** Writes the merge of the base directory `a`, which is at `path`, with the override tree. Fails exactly if some
      JSON file does not parse. */
  method LeftMergeDirs(a: Node, rootB: Node, dest: Destination, path: Path) returns (ok: bool)
    requires a.Dir? && WellFormed(a) && EmptyBelow(dest.nodes, path)
    modifies dest
    ensures ok <==> Mergeable(a, rootB, path)
    ensures ok ==> Written(old(dest.nodes), dest.nodes, path, Merge(a, rootB, path))
    ensures ok ==> Placed(old(dest.nodes), dest.nodes, a, rootB, path)
    decreases a, 0
  {
    hide Written, Find, ReadFile, Combine, Parses, BaseName, Mergeable, WellFormed, Placed;
    dest.Mkdir(path);
    ghost var before := old(dest.nodes);
    DirWritten(before, dest.nodes, path);
    assert MergeEntries(a.entries[..0], rootB, path) == [];
    hide MergeEntries;
    for i := 0 to |a.entries|
      invariant Written(before, dest.nodes, path, Dir(MergeEntries(a.entries[..i], rootB, path)))
      invariant forall k | 0 <= k < i :: Mergeable(a.entries[k].node, rootB, path + [a.entries[k].name])
    {
      var file, node := a.entries[i].name, a.entries[i].node;
      ghost var mid := dest.nodes;
      EntryOf(a, rootB, path, i);
      NextIsFree(before, mid, path, a.entries, i, rootB);
      ok := MergeOne(node, rootB, dest, path + [file]);
      if !ok {
        return;
      }
      OneMoreWritten(before, mid, dest.nodes, path, a.entries, i, rootB);
    }
    assert a.entries[..|a.entries|] == a.entries;
    AllMergeable(a, rootB, path);
    WrittenIsPlaced(before, dest.nodes, a, rootB, path);
    ok := true;
  }

  /** The loop body, lines 37-82: one directory entry of the base. */
  method MergeOne(node: Node, rootB: Node, dest: Destination, path: Path) returns (ok: bool)
    requires WellFormed(node) && path != [] && forall p | path <= p :: p !in dest.nodes
    modifies dest
    ensures ok <==> Mergeable(node, rootB, path)
    ensures ok ==> Written(old(dest.nodes), dest.nodes, path, Merge(node, rootB, path))
    decreases node, 1
  {
    ghost var before := dest.nodes;
    if node.Dir? {
      ok := LeftMergeDirs(node, rootB, dest, path);
    } else {
      var file, fileA, fileB := path[|path| - 1], node.content, ReadFile(rootB, path);
      if fileB.Some? {
        if IsJsonName(file) {
          if fileA.Text? || fileB.value.Text? {
            return false;
          }
          dest.Write(path, JsonObject(Properties(fileA) + Properties(fileB.value)));
        } else {
          dest.Write(path, fileB.value);
        }
      } else {
        dest.Write(path, fileA);
      }
      FileWritten(before, dest.nodes, path, Merge(node, rootB, path).content);
      ok := true;
    }
  }

  lemma DirWritten(before: map<Path, Stored>, after: map<Path, Stored>, path: Path)
    requires EmptyBelow(before, path) && after == if path in before then before else before[path := Directory]
    ensures Written(before, after, path, Dir([]))
  {
    forall p ensures At(after, p) == WrittenAt(before, path, Dir([]), p) {
      if path <= p && p[|path|..] == [] {
        assert p == path;
      }
    }
  }

  lemma FileWritten(before: map<Path, Stored>, after: map<Path, Stored>, path: Path, content: Content)
    requires after == before[path := Regular(content)]
    ensures Written(before, after, path, File(content))
  {
    forall p ensures At(after, p) == WrittenAt(before, path, File(content), p) {
      if path <= p && p[|path|..] == [] {
        assert p == path;
      }
    }
  }

  /** What is at each path below a written merge, without the tree in between. */
  ghost predicate Placed(before: map<Path, Stored>, after: map<Path, Stored>, base: Node, rootB: Node, path: Path) {
    && (forall p | !(path <= p && Find(base, p[|path|..]).Some?) :: At(after, p) == At(before, p))
    && (forall q | Find(base, q).Some? && Find(base, q).value.Dir? :: At(after, path + q) == Some(Directory))
    && (forall q | Find(base, q).Some? && Find(base, q).value.File? ::
          && At(after, path + q).Some? && At(after, path + q).value.Regular?
          && Right(BaseName(path + q), Find(base, q).value.content, ReadFile(rootB, path + q), after[path + q].content))
  }

  lemma WrittenIsPlaced(before: map<Path, Stored>, after: map<Path, Stored>, base: Node, rootB: Node, path: Path)
    requires WellFormed(base) && Mergeable(base, rootB, path) && Written(before, after, path, Merge(base, rootB, path))
    ensures Placed(before, after, base, rootB, path)
  {
    hide Right, Combine, Parses, ReadFile;
    var tree := Merge(base, rootB, path);
    MergeableIff(base, rootB, path);
    forall p | !(path <= p && Find(base, p[|path|..]).Some?) ensures At(after, p) == At(before, p) {
      assert At(after, p) == WrittenAt(before, path, tree, p);
      if path <= p {
        MergePointwise(base, rootB, path, p[|path|..]);
      }
    }
    forall q | Find(base, q).Some?
      ensures At(after, path + q) == Some(StoredAs(Merge(Find(base, q).value, rootB, path + q)))
    {
      MergePointwise(base, rootB, path, q);
      assert (path + q)[|path|..] == q;
      assert At(after, path + q) == WrittenAt(before, path, tree, path + q);
    }
    forall q | Find(base, q).Some? && Find(base, q).value.File?
      ensures Right(BaseName(path + q), Find(base, q).value.content, ReadFile(rootB, path + q), after[path + q].content)
    {
      CombineIsRight(BaseName(path + q), Find(base, q).value.content, ReadFile(rootB, path + q));
    }
  }

  /** The script's only call, into an empty destination: the destination holds exactly the merged tree. */
  method BuildAssets(base: Node, overrides: Node) returns (dest: Destination, ok: bool)
    requires base.Dir? && WellFormed(base)
    ensures fresh(dest) && (ok <==> AllParse(base, overrides, []))
    ensures ok ==> Placed(map[[] := Directory], dest.nodes, base, overrides, [])
    ensures ok ==> forall p ::
      var n := Find(base, p);
      At(dest.nodes, p) == if n.None? then None
                           else Some(if n.value.Dir? then Directory
                                     else Regular(Combine(BaseName(p), n.value.content, ReadFile(overrides, p))))
  {
    MergeableIff(base, overrides, []);
    dest := new Destination();
    ok := LeftMergeDirs(base, overrides, dest, []);
    if ok {
      forall p ensures At(dest.nodes, p) == if Find(base, p).None? then None
        else Some(StoredAs(Merge(Find(base, p).value, overrides, p)))
      {
        MergePointwise(base, overrides, [], p);
        assert [] + p == p && p[0..] == p;
        assert At(dest.nodes, p) == WrittenAt(map[[] := Directory], [], Merge(base, overrides, []), p);
      }
    }
  }
}
