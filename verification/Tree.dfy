/** The file tree of old transfer requests: the sender builds it from the list of its files, the receiver
    flattens it again. A file is lost on the way exactly when an earlier file took the place of one of its
    directories. Path components are plain names. */
module Tree {
  import opened Base

  type Path = seq<string>
  type Entry = (Path, nat)

  /** A node with a size is a file; its children, if it got any, are never looked at. */
  datatype Node = Node(name: string, size: Option<nat>, children: seq<Node>)

  // ----- Building

  function Leaf(name: string, size: nat): Node {
    Node(name, Some(size), [])
  }

  /** Adds one file below the first node that bears the name of each of its directories. */
  function Insert(nodes: seq<Node>, path: Path, size: nat): seq<Node>
    requires path != []
    decreases |path|, |nodes|
  {
    if |path| == 1 then nodes + [Leaf(path[0], size)]
    else if nodes == [] then [Node(path[0], None, Insert([], path[1..], size))]
    else if nodes[0].name == path[0] then
      [nodes[0].(children := Insert(nodes[0].children, path[1..], size))] + nodes[1..]
    else [nodes[0]] + Insert(nodes[1..], path, size)
  }

  lemma {:induction false} InsertAbsent(nodes: seq<Node>, path: Path, size: nat)
    requires |path| > 1 && forall i :: 0 <= i < |nodes| ==> nodes[i].name != path[0]
    ensures Insert(nodes, path, size) == nodes + [Node(path[0], None, Insert([], path[1..], size))]
  {
    if nodes != [] {
      InsertAbsent(nodes[1..], path, size);
      assert nodes == [nodes[0]] + nodes[1..];
    }
  }

  lemma {:induction false} InsertAtFirst(nodes: seq<Node>, path: Path, size: nat, k: nat)
    requires |path| > 1 && k < |nodes| && nodes[k].name == path[0]
    requires forall i :: 0 <= i < k ==> nodes[i].name != path[0]
    ensures Insert(nodes, path, size) == nodes[k := nodes[k].(children := Insert(nodes[k].children, path[1..], size))]
  {
    if k > 0 {
      InsertAtFirst(nodes[1..], path, size, k - 1);
    }
  }

  /** The walk for one file: at each directory, push a node when none has its name, then go into the first
      that has. */
  method AddFile(nodes: seq<Node>, path: Path, size: nat) returns (grown: seq<Node>)
    requires path != []
    ensures grown == Insert(nodes, path, size)
    decreases |path|
  {
    if |path| == 1 {
      return nodes + [Leaf(path[0], size)];
    }
    grown := nodes;
    var k := 0;
    while k < |nodes| && nodes[k].name != path[0]
      invariant 0 <= k <= |nodes|
      invariant forall i :: 0 <= i < k ==> nodes[i].name != path[0]
    {
      k := k + 1;
    }
    if k == |nodes| {
      InsertAbsent(nodes, path, size);
      grown := grown + [Node(path[0], None, [])];
    } else {
      InsertAtFirst(nodes, path, size, k);
    }
    var inner := AddFile(grown[k].children, path[1..], size);
    grown := grown[k := grown[k].(children := inner)];
  }

  function Built(files: seq<Entry>): seq<Node>
    requires forall i :: 0 <= i < |files| ==> files[i].0 != []
  {
    if files == [] then []
    else
      var last := files[|files| - 1];
      Insert(Built(files[..|files| - 1]), last.0, last.1)
  }

  /** The whole request, over the files in whatever order they come. */
  method Build(files: seq<Entry>) returns (nodes: seq<Node>)
    requires forall i :: 0 <= i < |files| ==> files[i].0 != []
    ensures nodes == Built(files)
  {
    nodes := [];
    for i := 0 to |files|
      invariant nodes == Built(files[..i])
    {
      assert files[..i + 1][..i] == files[..i];
      nodes := AddFile(nodes, files[i].0, files[i].1);
    }
    assert files[..|files|] == files;
  }

  // ----- Flattening

  function Flattened(prefix: Path, nodes: seq<Node>): seq<Entry>
    decreases nodes
  {
    if nodes == [] then []
    else
      var n := nodes[0];
      (if n.size.Some? then [(prefix + [n.name], n.size.value)] else Flattened(prefix + [n.name], n.children))
      + Flattened(prefix, nodes[1..])
  }

  /** `process_file`: pushes the files of one node onto the list. */
  method ProcessFile(files: seq<Entry>, subpath: Path, node: Node) returns (more: seq<Entry>)
    ensures more == files + if node.size.Some? then [(subpath, node.size.value)] else Flattened(subpath, node.children)
    decreases node
  {
    if node.size.Some? {
      return files + [(subpath, node.size.value)];
    }
    more := files;
    for i := 0 to |node.children|
      invariant more + Flattened(subpath, node.children[i..]) == files + Flattened(subpath, node.children)
    {
      var child := node.children[i];
      assert node.children[i..][1..] == node.children[i + 1..];
      more := ProcessFile(more, subpath + [child.name], child);
    }
  }

  // ----- What a file meets on its way down

  /** Whether the first node at this place is a file; `None` when there is no node. */
  function Lookup(nodes: seq<Node>, path: Path): Option<bool>
    requires path != []
    decreases |path|, |nodes|
  {
    if nodes == [] then None
    else if nodes[0].name != path[0] then Lookup(nodes[1..], path)
    else if |path| == 1 then Some(nodes[0].size.Some?)
    else Lookup(nodes[0].children, path[1..])
  }

  /** One of the directories on the way is a file. */
  predicate Blocked(nodes: seq<Node>, path: Path)
    requires path != []
    decreases |path|, |nodes|
  {
    if |path| == 1 || nodes == [] then false
    else if nodes[0].name != path[0] then Blocked(nodes[1..], path)
    else nodes[0].size.Some? || Blocked(nodes[0].children, path[1..])
  }

  lemma {:induction false} ChildrenGrow(prefix: Path, n: Node, children: seq<Node>, rest: seq<Node>, d: multiset<Entry>)
    requires multiset(Flattened(prefix + [n.name], children)) == multiset(Flattened(prefix + [n.name], n.children)) + d
    ensures multiset(Flattened(prefix, [n.(children := children)] + rest))
         == multiset(Flattened(prefix, [n] + rest)) + if n.size.Some? then multiset{} else d
  {
    FlattenCons(prefix, n, rest);
    FlattenCons(prefix, n.(children := children), rest);
  }

  lemma {:induction false} RestGrows(prefix: Path, n: Node, rest: seq<Node>, grown: seq<Node>, d: multiset<Entry>)
    requires multiset(Flattened(prefix, grown)) == multiset(Flattened(prefix, rest)) + d
    ensures multiset(Flattened(prefix, [n] + grown)) == multiset(Flattened(prefix, [n] + rest)) + d
  {
    FlattenCons(prefix, n, rest);
    FlattenCons(prefix, n, grown);
  }

  function Gain(blocked: bool, e: Entry): multiset<Entry> {
    if blocked then multiset{} else multiset{e}
  }

  lemma {:induction false} LeafCase(prefix: Path, nodes: seq<Node>, path: Path, size: nat)
    requires |path| == 1
    ensures multiset(Flattened(prefix, Insert(nodes, path, size)))
         == multiset(Flattened(prefix, nodes)) + multiset{(prefix + path, size)}
  {
    FlattenConcat(prefix, nodes, [Leaf(path[0], size)]);
    FlattenCons(prefix, Leaf(path[0], size), []);
    assert path == [path[0]];
  }

  lemma {:induction false} EmptyCase(prefix: Path, path: Path, size: nat, d: multiset<Entry>)
    requires |path| > 1
    requires multiset(Flattened(prefix + [path[0]], Insert([], path[1..], size)))
          == multiset(Flattened(prefix + [path[0]], [])) + d
    ensures multiset(Flattened(prefix, Insert([], path, size))) == multiset(Flattened(prefix, [])) + d
  {
    FlattenCons(prefix, Node(path[0], None, Insert([], path[1..], size)), []);
  }

  /** A file that is not blocked is added to what flattening finds, a blocked one is lost. */
  lemma {:induction false} FlattenInsert(prefix: Path, nodes: seq<Node>, path: Path, size: nat)
    requires path != []
    ensures multiset(Flattened(prefix, Insert(nodes, path, size)))
         == multiset(Flattened(prefix, nodes)) + Gain(Blocked(nodes, path), (prefix + path, size))
    decreases |path|, |nodes|
  {
    if |path| == 1 {
      LeafCase(prefix, nodes, path, size);
    } else {
      var e := (prefix + path, size);
      assert e.0 == prefix + [path[0]] + path[1..];
      if nodes == [] {
        FlattenInsert(prefix + [path[0]], [], path[1..], size);
        EmptyCase(prefix, path, size, Gain(false, e));
      } else if nodes[0].name == path[0] {
        var inner := nodes[0].children;
        FlattenInsert(prefix + [path[0]], inner, path[1..], size);
        ChildrenGrow(prefix, nodes[0], Insert(inner, path[1..], size), nodes[1..], Gain(Blocked(inner, path[1..]), e));
        assert nodes == [nodes[0]] + nodes[1..];
      } else {
        FlattenInsert(prefix, nodes[1..], path, size);
        RestGrows(prefix, nodes[0], nodes[1..], Insert(nodes[1..], path, size), Gain(Blocked(nodes[1..], path), e));
        assert nodes == [nodes[0]] + nodes[1..];
      }
    }
  }

  lemma {:induction false} FlattenCons(prefix: Path, n: Node, rest: seq<Node>)
    ensures Flattened(prefix, [n] + rest)
         == (if n.size.Some? then [(prefix + [n.name], n.size.value)] else Flattened(prefix + [n.name], n.children))
            + Flattened(prefix, rest)
  {
    assert ([n] + rest)[1..] == rest;
  }

  lemma {:induction false} FlattenConcat(prefix: Path, a: seq<Node>, b: seq<Node>)
    ensures Flattened(prefix, a + b) == Flattened(prefix, a) + Flattened(prefix, b)
    decreases |a|
  {
    if a == [] {
      assert a + b == b;
    } else {
      FlattenConcat(prefix, a[1..], b);
      assert a == [a[0]] + a[1..] && a + b == [a[0]] + (a[1..] + b);
      FlattenCons(prefix, a[0], a[1..]);
      FlattenCons(prefix, a[0], a[1..] + b);
    }
  }

  lemma {:induction false} BlockedWhere(nodes: seq<Node>, path: Path)
    requires path != []
    ensures Blocked(nodes, path) <==> exists n :: 1 <= n < |path| && Lookup(nodes, path[..n]) == Some(true)
    decreases |path|, |nodes|
  {
    if |path| > 1 && nodes != [] {
      if nodes[0].name != path[0] {
        BlockedWhere(nodes[1..], path);
        forall n | 1 <= n < |path|
          ensures Lookup(nodes, path[..n]) == Lookup(nodes[1..], path[..n])
        {
        }
      } else {
        var inner := nodes[0].children;
        BlockedWhere(inner, path[1..]);
        assert path[..1][0] == path[0];
        forall n | 2 <= n < |path|
          ensures Lookup(nodes, path[..n]) == Lookup(inner, path[1..][..n - 1])
        {
          assert path[..n][1..] == path[1..][..n - 1];
        }
        if nodes[0].size.Some? {
          assert Lookup(nodes, path[..1]) == Some(true);
        } else if Blocked(inner, path[1..]) {
          var m :| 1 <= m < |path[1..]| && Lookup(inner, path[1..][..m]) == Some(true);
          assert Lookup(nodes, path[..m + 1]) == Some(true);
        }
      }
    }
  }

  /** Adding a file settles every place along its path that was still empty, and nothing else. */
  lemma {:induction false} LookupInsert(nodes: seq<Node>, path: Path, size: nat, q: Path)
    requires path != [] && q != []
    ensures Lookup(Insert(nodes, path, size), q)
         == if Lookup(nodes, q).Some? then Lookup(nodes, q) else if q <= path then Some(q == path) else None
    decreases |path|, |nodes|
  {
    if nodes == [] {
      if |path| > 1 {
        if |q| > 1 {
          LookupInsert([], path[1..], size, q[1..]);
          assert q <= path <==> q[0] == path[0] && q[1..] <= path[1..];
        }
      }
    } else if |path| == 1 || nodes[0].name != path[0] {
      var rest := Insert(nodes[1..], path, size);
      assert Insert(nodes, path, size) == [nodes[0]] + rest;
      assert ([nodes[0]] + rest)[1..] == rest;
      LookupInsert(nodes[1..], path, size, q);
    } else {
      if |q| > 1 {
        LookupInsert(nodes[0].children, path[1..], size, q[1..]);
        assert q[0] == path[0] ==> (q <= path <==> q[1..] <= path[1..]);
      }
    }
  }

  // ----- The round trip

  /** Whether `p` is the path of a directory on the way to `q`. */
  predicate Above(p: Path, q: Path) {
    p <= q && |p| < |q|
  }

  /** An earlier file has the path of one of this file's directories, and no file before it lies in that
      directory. */
  ghost predicate Shadowed(files: seq<Entry>, i: nat)
    requires i < |files|
  {
    exists c :: 0 <= c < i && Above(files[c].0, files[i].0) && ComesFirst(files, c)
  }

  /** The first file at or below its own path. */
  predicate ComesFirst(files: seq<Entry>, c: nat)
    requires c < |files|
  {
    forall m :: 0 <= m < c ==> !(files[c].0 <= files[m].0)
  }

  ghost predicate Named(files: seq<Entry>) {
    forall i :: 0 <= i < |files| ==> files[i].0 != []
  }

  /** The first file at or below `q` decides what is found there. */
  lemma {:induction false} LookupBuilt(files: seq<Entry>, q: Path)
    requires Named(files) && q != []
    ensures Lookup(Built(files), q) == Some(true)
       <==> exists c :: 0 <= c < |files| && files[c].0 == q && ComesFirst(files, c)
    ensures Lookup(Built(files), q) == None <==> forall m :: 0 <= m < |files| ==> !(q <= files[m].0)
  {
    if files != [] {
      var n := |files| - 1;
      var front := files[..n];
      LookupBuilt(front, q);
      LookupInsert(Built(front), files[n].0, files[n].1, q);
      FirstOfFront(files, q);
    }
  }

  lemma {:induction false} FirstOfFront(files: seq<Entry>, q: Path)
    requires files != []
    ensures var n := |files| - 1;
            (exists c :: 0 <= c < |files| && files[c].0 == q && ComesFirst(files, c)) <==>
            (exists c :: 0 <= c < n && files[..n][c].0 == q && ComesFirst(files[..n], c))
            || (files[n].0 == q && forall m :: 0 <= m < n ==> !(q <= files[..n][m].0))
  {
    var n := |files| - 1;
    var front := files[..n];
    forall c | 0 <= c < n
      ensures front[c] == files[c] && (ComesFirst(front, c) <==> ComesFirst(files, c))
    {
      assert forall m :: 0 <= m < c ==> front[m] == files[m];
    }
    if files[n].0 == q && forall m :: 0 <= m < n ==> !(q <= front[m].0) {
      forall m | 0 <= m < n
        ensures !(q <= files[m].0)
      {
        assert front[m] == files[m];
      }
      assert ComesFirst(files, n);
    }
  }

  lemma {:induction false} SameFirsts(files: seq<Entry>, n: nat, c: nat)
    requires c < n <= |files|
    ensures ComesFirst(files[..n], c) <==> ComesFirst(files, c)
  {
    assert forall m :: 0 <= m <= c ==> files[..n][m] == files[m];
  }

  lemma {:induction false} BlockedThenShadowed(files: seq<Entry>, n: nat, k: nat)
    requires Named(files) && n < |files| && 1 <= k < |files[n].0|
    requires Lookup(Built(files[..n]), files[n].0[..k]) == Some(true)
    ensures Shadowed(files, n)
  {
    LookupBuilt(files[..n], files[n].0[..k]);
    var c :| 0 <= c < n && files[..n][c].0 == files[n].0[..k] && ComesFirst(files[..n], c);
    SameFirsts(files, n, c);
    assert Above(files[c].0, files[n].0);
  }

  lemma {:induction false} ShadowedThenBlocked(files: seq<Entry>, n: nat, c: nat)
    requires Named(files) && c < n < |files| && Above(files[c].0, files[n].0) && ComesFirst(files, c)
    ensures var k := |files[c].0|;
            1 <= k < |files[n].0| && Lookup(Built(files[..n]), files[n].0[..k]) == Some(true)
  {
    var q := files[c].0;
    assert files[n].0[..|q|] == q;
    SameFirsts(files, n, c);
    assert files[..n][c].0 == q;
    LookupBuilt(files[..n], q);
  }

  /** The walk for a file is blocked exactly when the list shadows it. */
  lemma {:induction false} BlockedIsShadowed(files: seq<Entry>, n: nat)
    requires Named(files) && n < |files|
    ensures Blocked(Built(files[..n]), files[n].0) <==> Shadowed(files, n)
  {
    var path := files[n].0;
    BlockedWhere(Built(files[..n]), path);
    if k :| 1 <= k < |path| && Lookup(Built(files[..n]), path[..k]) == Some(true) {
      BlockedThenShadowed(files, n, k);
    }
    if c :| 0 <= c < n && Above(files[c].0, path) && ComesFirst(files, c) {
      ShadowedThenBlocked(files, n, c);
    }
  }

  /** The first `n` entries without the ones that are `lost`. */
  ghost function Reaching(files: seq<Entry>, lost: nat -> bool, n: nat): multiset<Entry>
    requires n <= |files|
  {
    if n == 0 then multiset{} else Reaching(files, lost, n - 1) + Gain(lost(n - 1), files[n - 1])
  }

  lemma {:induction false} BuiltStep(files: seq<Entry>, n: nat)
    requires Named(files) && n < |files|
    ensures multiset(Flattened([], Built(files[..n + 1])))
         == multiset(Flattened([], Built(files[..n]))) + Gain(Blocked(Built(files[..n]), files[n].0), files[n])
  {
    assert files[..n + 1][..n] == files[..n];
    FlattenInsert([], Built(files[..n]), files[n].0, files[n].1);
    assert [] + files[n].0 == files[n].0;
  }

  lemma {:induction false} FoundReaches(files: seq<Entry>, lost: nat -> bool, found: nat -> multiset<Entry>, n: nat)
    requires n <= |files| && found(0) == multiset{}
    requires forall i: nat :: i < |files| ==> found(i + 1) == found(i) + Gain(lost(i), files[i])
    ensures found(n) == Reaching(files, lost, n)
  {
    if n > 0 {
      FoundReaches(files, lost, found, n - 1);
      assert found(n - 1 + 1) == found(n - 1) + Gain(lost(n - 1), files[n - 1]);
    }
  }

  lemma {:induction false} AddOne(found: multiset<Entry>, all: multiset<Entry>, e: Entry, lost: bool)
    requires found <= all
    ensures found + Gain(lost, e) <= all + multiset{e}
    ensures found + Gain(lost, e) == all + multiset{e} <==> !lost && found == all
  {
    if lost {
      assert (found + Gain(lost, e))[e] <= all[e] < (all + multiset{e})[e];
    } else {
      assert found + multiset{e} - multiset{e} == found && all + multiset{e} - multiset{e} == all;
    }
  }

  lemma {:induction false} TakeOne(files: seq<Entry>, n: nat)
    requires n < |files|
    ensures multiset(files[..n + 1]) == multiset(files[..n]) + multiset{files[n]}
  {
    assert files[..n + 1] == files[..n] + [files[n]];
  }

  predicate NoneLost(lost: nat -> bool, n: nat) {
    n == 0 || (NoneLost(lost, n - 1) && !lost(n - 1))
  }

  lemma {:induction false} NoneLostAll(lost: nat -> bool, n: nat)
    ensures NoneLost(lost, n) <==> forall i: nat :: i < n ==> !lost(i)
  {
    if n > 0 {
      NoneLostAll(lost, n - 1);
    }
  }

  lemma {:induction false} ReachingOf(files: seq<Entry>, lost: nat -> bool, all: nat -> multiset<Entry>, n: nat)
    requires n <= |files| && all(0) == multiset{}
    requires forall i: nat :: i < |files| ==> all(i + 1) == all(i) + multiset{files[i]}
    ensures Reaching(files, lost, n) <= all(n)
    ensures Reaching(files, lost, n) == all(n) <==> NoneLost(lost, n)
  {
    if n > 0 {
      ReachingOf(files, lost, all, n - 1);
      var found, front := Reaching(files, lost, n - 1), all(n - 1);
      assert all(n - 1 + 1) == front + multiset{files[n - 1]};
      AddOne(found, front, files[n - 1], lost(n - 1));
    }
  }

  lemma {:induction false} ReachingAll(files: seq<Entry>, lost: nat -> bool)
    ensures Reaching(files, lost, |files|) == multiset(files) <==> NoneLost(lost, |files|)
  {
    var all := (n: nat) => FirstEntries(files, n);
    forall i: nat | i < |files|
      ensures all(i + 1) == all(i) + multiset{files[i]}
    {
      TakeOne(files, i);
    }
    ReachingOf(files, lost, all, |files|);
    assert files[..|files|] == files;
  }

  ghost function FirstEntries(files: seq<Entry>, n: nat): multiset<Entry> {
    if n <= |files| then multiset(files[..n]) else multiset{}
  }

  /** What flattening finds of the first `n` files. */
  ghost function FoundAfter(files: seq<Entry>, n: nat): multiset<Entry>
    requires Named(files)
  {
    if n <= |files| then multiset(Flattened([], Built(files[..n]))) else multiset{}
  }

  lemma {:induction false} FoundStep(files: seq<Entry>, n: nat)
    requires Named(files) && n < |files|
    ensures FoundAfter(files, n + 1) == FoundAfter(files, n) + Gain(Shadowed(files, n), files[n])
  {
    BuiltStep(files, n);
    BlockedIsShadowed(files, n);
  }

  lemma {:induction false} FoundWhole(files: seq<Entry>)
    requires Named(files)
    ensures FoundAfter(files, |files|) == multiset(Flattened([], Built(files)))
    ensures FoundAfter(files, 0) == multiset{}
  {
    assert files[..|files|] == files;
  }

  /** Building the tree and flattening it gives back exactly the files that are not shadowed, each as often as
      it was there. */
  lemma {:induction false} RoundTrip(files: seq<Entry>, lost: nat -> bool)
    requires Named(files)
    requires forall i: nat :: i < |files| ==> lost(i) == Shadowed(files, i)
    ensures multiset(Flattened([], Built(files))) == Reaching(files, lost, |files|)
  {
    var found := (n: nat) => FoundAfter(files, n);
    forall i: nat | i < |files|
      ensures found(i + 1) == found(i) + Gain(lost(i), files[i])
    {
      FoundStep(files, i);
    }
    FoundReaches(files, lost, found, |files|);
    FoundWhole(files);
  }

  /** Nothing is lost if and only if no file is shadowed, whatever the order of the list. */
  lemma {:induction false} NothingLostIff(files: seq<Entry>)
    requires Named(files)
    ensures multiset(Flattened([], Built(files))) == multiset(files) <==> forall i: nat :: i < |files| ==> !Shadowed(files, i)
  {
    var lost := (i: nat) => i < |files| && Shadowed(files, i);
    RoundTrip(files, lost);
    ReachingAll(files, lost);
    NoneLostAll(lost, |files|);
    assert files[..|files|] == files;
    assert forall i: nat :: i < |files| ==> lost(i) == Shadowed(files, i);
  }

  /** In particular nothing is lost when no path lies above another. */
  lemma {:induction false} PrefixFreeRoundTrip(files: seq<Entry>)
    requires Named(files)
    requires forall i, j :: 0 <= i < |files| && 0 <= j < |files| ==> !Above(files[i].0, files[j].0)
    ensures multiset(Flattened([], Built(files))) == multiset(files)
  {
    NothingLostIff(files);
  }

  /** The shortest list that loses a file: "a" is a file before it would have to be a directory. In the other order
      both arrive. */
  lemma {:induction false} ShadowedFileIsLost()
    ensures var a, ab := (["a"], 1), (["a", "b"], 2);
            && Shadowed([a, ab], 1)
            && Flattened([], Built([a, ab])) == [a]
            && !Shadowed([ab, a], 1)
            && multiset(Flattened([], Built([ab, a]))) == multiset([ab, a])
  {
    FileFirst("a", "b", 1, 2);
    DirectoryFirst("a", "b", 1, 2);
  }

  lemma {:induction false} FileFirst(dir: string, name: string, m: nat, n: nat)
    ensures var a, ab := ([dir], m), ([dir, name], n);
            Shadowed([a, ab], 1) && Flattened([], Built([a, ab])) == [a]
  {
    var a: Entry, ab: Entry := ([dir], m), ([dir, name], n);
    assert Above([a, ab][0].0, [a, ab][1].0) && ComesFirst([a, ab], 0);
    assert [a, ab][..1] == [a] && [a][..0] == [] && Built([]) == [];
    assert Built([a]) == Insert([], [dir], m);
    assert Built([a, ab]) == Insert(Built([a]), [dir, name], n);
    FileStaysFile(dir, name, m, n);
  }

  lemma {:induction false} FileStaysFile(dir: string, name: string, m: nat, n: nat)
    ensures var nodes := Insert(Insert([], [dir], m), [dir, name], n);
            Flattened([], nodes) == [([dir], m)]
  {
    assert Insert([], [dir], m) == [Leaf(dir, m)];
    var grown := Leaf(dir, m).(children := Insert([], [dir, name][1..], n));
    assert Insert([Leaf(dir, m)], [dir, name], n) == [grown];
    FlattenCons([], grown, []);
    assert [grown] == [grown] + [];
    assert [] + [dir] == [dir];
  }

  lemma {:induction false} DirectoryFirst(dir: string, name: string, m: nat, n: nat)
    ensures var a, ab := ([dir], m), ([dir, name], n);
            !Shadowed([ab, a], 1) && multiset(Flattened([], Built([ab, a]))) == multiset([ab, a])
  {
    var a: Entry, ab: Entry := ([dir], m), ([dir, name], n);
    assert !Above([ab, a][0].0, [ab, a][1].0);
    NothingLostIff([ab, a]);
  }
}
