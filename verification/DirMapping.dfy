/** Where the files of received directories go. The root directory of a transfer is given a name that is free
    under the destination, the choice is cached for the other files of that directory, and after a restart the
    cache is rebuilt from the paths of the files that were placed. Paths are lists of plain components. */
module DirMapping {
  import opened Base
  import opened Names

  type Path = seq<string>

  predicate PlainName(name: string) {
    name !in {"", ".", ".."}
  }

  predicate Plain(path: Path) {
    forall i :: 0 <= i < |path| ==> PlainName(path[i])
  }

  lemma NormalizedIsNamed(name: string)
    requires PlainName(name)
    ensures Named(name) && PlainName(Normalize(name))
  {
    if |name| > 0 && Normalize(name)[0] == '.' {
      assert name[0] == '.';
      if |name| > 1 && Normalize(name)[1] == '.' {
        assert Normalize(name[1..])[0] == '.';
      }
    }
  }

  /** A normalized path is left alone. */
  lemma {:induction false} NormalizedTwice(path: Path)
    ensures NormalizedAll(NormalizedAll(path)) == NormalizedAll(path)
  {
    if path != [] {
      NormalizedTwice(path[1..]);
    }
  }

  /** The key under which the directory of a file is remembered. */
  function KeyOf(base: Path, subpath: Path): Path
    requires subpath != []
  {
    base + [Normalize(subpath[0])]
  }

  /** The relative path of a file once its directory, if it has one, is called `dir`. */
  function Relative(subpath: Path, dir: string): Path
    requires subpath != []
  {
    if |subpath| > 1 then [dir] + NormalizedAll(subpath[1..]) else NormalizedAll(subpath)
  }

  predicate Remembers(mappings: map<Path, string>, key: Path, dir: string) {
    key in mappings && mappings[key] == dir
  }

  /** The mappings after a composition that would call a directory not seen before `free`. */
  function Remembering(mappings: map<Path, string>, base: Path, subpath: Path, free: string): map<Path, string>
    requires subpath != []
  {
    if |subpath| > 1 && KeyOf(base, subpath) !in mappings then mappings[KeyOf(base, subpath) := free] else mappings
  }

  function DirOf(mappings: map<Path, string>, base: Path, subpath: Path, free: string): string
    requires subpath != []
  {
    if KeyOf(base, subpath) in mappings then mappings[KeyOf(base, subpath)] else free
  }

  /** `free` is the first variant of the directory's name that does not exist under the destination. */
  ghost predicate FirstFree(existing: set<Path>, base: Path, root: string, free: string) {
    exists k: nat :: free == RootName(root, k) && base + [free] !in existing
                     && forall j: nat :: j < k ==> base + [RootName(root, j)] in existing
  }

  /** `extract_directory_mapping`. */
  function Extract(subpath: Path, full: Path): Option<(Path, string)> {
    if |subpath| <= 1 || |full| < |subpath| then None
    else
      var at := |full| - |subpath|;
      Some((full[..at] + [subpath[0]], full[at]))
  }

  /** As long as the subpath, and below its first component the same, up to the characters replaced. */
  predicate BelowDirectory(subpath: Path, path: Path) {
    |path| == |subpath| && forall i :: 0 < i < |subpath| ==> path[i] == Normalize(subpath[i])
  }

  /** The directory remembered for the key: the one it had, or a new one when it had none; no other key changes. */
  predicate ChosenFor(before: map<Path, string>, after: map<Path, string>, key: Path, dir: string) {
    && Remembers(after, key, dir)
    && (if key in before then after == before else after == before[key := dir])
  }

  /** What a composed path is, component by component. */
  lemma RelativeIs(subpath: Path, dir: string)
    requires subpath != []
    ensures BelowDirectory(subpath, Relative(subpath, dir))
    ensures Relative(subpath, dir)[0] == if |subpath| == 1 then Normalize(subpath[0]) else dir
  {
  }

  class DirMapping {
    var mappings: map<Path, string>

    constructor ()
      ensures mappings == map[]
    {
      mappings := map[];
    }

    /** `compose_final_path`. */
    method ComposeFinalPath(existing: set<Path>, base: Path, subpath: Path)
      returns (r: Result<Path>, ghost free: string)
      requires Plain(subpath)
      modifies this
      ensures r.Err? <==> subpath == []
      ensures r.Err? ==> mappings == old(mappings)
      ensures r.Ok? ==> mappings == Remembering(old(mappings), base, subpath, free)
      ensures r.Ok? ==> r.value == Relative(subpath, DirOf(old(mappings), base, subpath, free))
      ensures r.Ok? && mappings != old(mappings) ==> FirstFree(existing, base, subpath[0], free)
      ensures r.Ok? ==> BelowDirectory(subpath, r.value)
      ensures r.Ok? && |subpath| == 1 ==> r.value[0] == Normalize(subpath[0]) && mappings == old(mappings)
      ensures r.Ok? && |subpath| > 1 ==> ChosenFor(old(mappings), mappings, base + [Normalize(subpath[0])], r.value[0])
      ensures r.Ok? && |subpath| > 1 && base + [Normalize(subpath[0])] !in old(mappings) ==>
                FirstFree(existing, base, subpath[0], r.value[0])
      ensures forall key :: key in old(mappings) ==> Remembers(mappings, key, old(mappings)[key])
    {
      free := "";
      if subpath == [] {
        return Err(BadPath), free;
      }
      RelativeIs(subpath, DirOf(mappings, base, subpath, free));
      if |subpath| == 1 {
        return Ok(NormalizedAll(subpath)), free;
      }
      var key := base + [Normalize(subpath[0])];
      if key !in mappings {
        var chosen := FindFree(existing, base, subpath[0]);
        free := chosen;
        mappings := mappings[key := chosen];
      }
      RelativeIs(subpath, mappings[key]);
      r := Ok([mappings[key]] + NormalizedAll(subpath[1..]));
    }

    /** `register_preexisting_final_path`, over the files that were placed before the restart. */
    method RegisterAll(finished: seq<(Path, Path)>)
      modifies this
      ensures mappings == Rebuilt(old(mappings), finished)
    {
      for i := 0 to |finished|
        invariant mappings == Rebuilt(old(mappings), finished[..i])
      {
        assert finished[..i + 1][..i] == finished[..i];
        var found := Extract(finished[i].0, finished[i].1);
        if found.Some? {
          mappings := mappings[found.value.0 := found.value.1];
        }
      }
      assert finished[..|finished|] == finished;
    }
  }

  function Rebuilt(mappings: map<Path, string>, finished: seq<(Path, Path)>): map<Path, string> {
    if finished == [] then mappings
    else
      var before := Rebuilt(mappings, finished[..|finished| - 1]);
      var last := finished[|finished| - 1];
      var found := Extract(last.0, last.1);
      if found.None? then before else before[found.value.0 := found.value.1]
  }

  predicate SameAt(before: map<Path, string>, after: map<Path, string>, key: Path) {
    (key in after <==> key in before) && (key in before ==> after[key] == before[key])
  }

  /** A placed file that tells of its directory decides, whatever the files before it told, and one that does not
      changes nothing. */
  lemma RebuiltLast(mappings: map<Path, string>, finished: seq<(Path, Path)>, subpath: Path, full: Path, key: Path)
    ensures var before, after := Rebuilt(mappings, finished), Rebuilt(mappings, finished + [(subpath, full)]);
            match Extract(subpath, full)
            case None => after == before
            case Some((at, dir)) => Remembers(after, at, dir) && (key != at ==> SameAt(before, after, key))
  {
    assert (finished + [(subpath, full)])[..|finished|] == finished;
  }

  // ----- The search for a free name

  /** The names that exist directly under `base`. */
  function NamesUnder(existing: set<Path>, base: Path): set<string> {
    set p | p in existing && |p| == |base| + 1 && p[..|base|] == base :: p[|base|]
  }

  lemma UnderBase(existing: set<Path>, base: Path, name: string)
    ensures name in NamesUnder(existing, base) <==> base + [name] in existing
  {
    var p := base + [name];
    assert p[..|base|] == base && p[|base|] == name;
    if name in NamesUnder(existing, base) {
      var q :| q in existing && |q| == |base| + 1 && q[..|base|] == base && q[|base|] == name;
      assert q == p;
    }
  }

  lemma TriedBound(existing: set<Path>, base: Path, root: string, spell: Spelling, k: nat)
    requires Distinct(spell, root)
    requires forall j: nat :: j < k ==> base + [spell(root, j)] in existing
    ensures k <= |NamesUnder(existing, base)|
  {
    forall name | name in FirstNames(spell, root, k)
      ensures name in NamesUnder(existing, base)
    {
      UnderBase(existing, base, name);
    }
    FirstNamesCount(spell, root, k);
    Smaller(FirstNames(spell, root, k), NamesUnder(existing, base));
  }

  method FindFree(existing: set<Path>, base: Path, root: string) returns (free: string)
    requires PlainName(root)
    ensures FirstFree(existing, base, root, free)
  {
    NormalizedIsNamed(root);
    RootNamesDiffer(root);
    var k: nat := 0;
    while base + [RootName(root, k)] in existing
      invariant forall j: nat :: j < k ==> base + [RootName(root, j)] in existing
      decreases |NamesUnder(existing, base)| - k
    {
      TriedBound(existing, base, root, RootName, k + 1);
      k := k + 1;
    }
    free := RootName(root, k);
  }

  // ----- Where the files of one directory go

  /** The two subpaths are the same below their roots, up to the characters replaced. */
  ghost predicate SameTail(a: Path, b: Path) {
    |a| == |b| && forall i :: 0 < i < |a| ==> Normalize(a[i]) == Normalize(b[i])
  }

  /** Two files of one directory, composed one after the other, go to the same place exactly when their subpaths are
      the same below the root, up to the characters replaced: nothing else brings them together, or apart. */
  lemma SamePlaceIff(mappings: map<Path, string>, base: Path, a: Path, b: Path, free: string, later: string)
    requires |a| > 1 && |b| > 1 && KeyOf(base, a) == KeyOf(base, b)
    ensures var first := Relative(a, DirOf(mappings, base, a, free));
            var second := Relative(b, DirOf(Remembering(mappings, base, a, free), base, b, later));
            first[0] == second[0] && (first == second <==> SameTail(a, b))
  {
    var dir := DirOf(mappings, base, a, free);
    RelativeIs(a, dir);
    RelativeIs(b, dir);
    assert DirOf(Remembering(mappings, base, a, free), base, b, later) == dir;
    var first, second := Relative(a, dir), Relative(b, dir);
    if SameTail(a, b) {
      assert forall i :: 0 <= i < |first| ==> first[i] == second[i];
    } else if |a| == |b| {
      var i :| 0 < i < |a| && Normalize(a[i]) != Normalize(b[i]);
      assert first[i] != second[i];
    }
  }

  /** Files of two directories that go by different names never meet, and files of their own meet no file of a
      directory. */
  lemma DifferentPlaces(a: Path, b: Path, dirA: string, dirB: string)
    requires a != [] && b != []
    ensures |a| > 1 && |b| > 1 && dirA != dirB ==> Relative(a, dirA) != Relative(b, dirB)
    ensures |a| == 1 && |b| > 1 ==> Relative(a, dirA) != Relative(b, dirB)
    ensures |a| == 1 && |b| == 1 ==> (Relative(a, dirA) == Relative(b, dirB) <==> Normalize(a[0]) == Normalize(b[0]))
  {
    RelativeIs(a, dirA);
    RelativeIs(b, dirB);
  }

  // ----- Extraction undoes composition

  /** A file whose directory is called `dir` and whose own name was varied when it was moved into place. */
  function PlacedAt(base: Path, subpath: Path, dir: string, name: string): Path
    requires subpath != []
  {
    var relative := Relative(subpath, dir);
    base + relative[..|relative| - 1] + [name]
  }

  lemma ExtractAt(base: Path, dir: string, tail: Path, subpath: Path)
    requires |subpath| == |tail| + 1 && tail != []
    ensures Extract(subpath, base + [dir] + tail) == Some((base + [subpath[0]], dir))
  {
    var full := base + [dir] + tail;
    assert full[..|base|] == base && full[|base|] == dir;
  }

  lemma PlacedSplits(base: Path, dir: string, rest: Path, name: string)
    requires rest != []
    ensures var relative := [dir] + rest;
            base + relative[..|relative| - 1] + [name] == base + [dir] + (rest[..|rest| - 1] + [name])
  {
    var relative := [dir] + rest;
    assert relative[..|relative| - 1] == [dir] + rest[..|rest| - 1];
  }

  lemma SameKey(base: Path, a: string, b: string)
    ensures base + [a] == base + [b] <==> a == b
  {
    assert (base + [a])[|base|] == a && (base + [b])[|base|] == b;
  }

  /** Whatever name the file itself got, its normalized subpath and its final path give back exactly the key
      and the directory name. The path received from the peer would do if and only if its root needs no
      replacement. */
  lemma ExtractUndoesCompose(base: Path, subpath: Path, dir: string, name: string)
    requires |subpath| > 1
    ensures Extract(NormalizedAll(subpath), PlacedAt(base, subpath, dir, name)) == Some((KeyOf(base, subpath), dir))
    ensures Extract(subpath, PlacedAt(base, subpath, dir, name)) == Some((KeyOf(base, subpath), dir)) <==> Clean(subpath[0])
  {
    var rest := NormalizedAll(subpath[1..]);
    var tail := rest[..|rest| - 1] + [name];
    PlacedSplits(base, dir, rest, name);
    ExtractAt(base, dir, tail, subpath);
    ExtractAt(base, dir, tail, NormalizedAll(subpath));
    SameKey(base, subpath[0], Normalize(subpath[0]));
  }

  // ----- Over runs and restarts

  /** The cache of the running process and the placed files in the tables. */
  datatype Placing = Placing(mappings: map<Path, string>, finished: seq<(Path, Path)>)

  /** `Place` composes the path of a file and places and records it; with `recorded` false the file is not
      placed after all, or its event is lost. */
  datatype Step = Place(base: Path, subpath: Path, free: string, name: string, recorded: bool) | Restart

  function After(p: Placing, step: Step): Placing {
    match step
    case Restart => p.(mappings := Rebuilt(map[], p.finished))
    case Place(base, subpath, free, name, recorded) =>
      if subpath == [] then p
      else
        var dir := DirOf(p.mappings, base, subpath, free);
        Placing(Remembering(p.mappings, base, subpath, free),
                if recorded then p.finished + [(NormalizedAll(subpath), PlacedAt(base, subpath, dir, name))] else p.finished)
  }

  function AfterAll(p: Placing, steps: seq<Step>): Placing
    decreases |steps|
  {
    if steps == [] then p else AfterAll(After(p, steps[0]), steps[1..])
  }

  /** The cache knows the directory of every placed file. */
  ghost predicate Inv(p: Placing) {
    forall i :: 0 <= i < |p.finished| ==> Kept(p, i)
  }

  ghost predicate Kept(p: Placing, i: nat)
    requires i < |p.finished|
  {
    var found := Extract(p.finished[i].0, p.finished[i].1);
    found.Some? ==> Remembers(p.mappings, found.value.0, found.value.1)
  }

  lemma {:induction false} RebuiltKeeps(p: Placing, n: nat, i: nat)
    requires Inv(p) && i < n <= |p.finished|
    ensures var found := Extract(p.finished[i].0, p.finished[i].1);
            found.Some? ==> Remembers(Rebuilt(map[], p.finished[..n]), found.value.0, found.value.1)
  {
    var last := Extract(p.finished[n - 1].0, p.finished[n - 1].1);
    assert p.finished[..n][..n - 1] == p.finished[..n - 1];
    assert Kept(p, i) && Kept(p, n - 1);
    if i < n - 1 {
      RebuiltKeeps(p, n - 1, i);
    }
  }

  lemma StepInv(p: Placing, step: Step)
    requires Inv(p)
    ensures Inv(After(p, step))
  {
    var p' := After(p, step);
    forall i | 0 <= i < |p'.finished|
      ensures Kept(p', i)
    {
      if step.Restart? {
        RebuiltKeeps(p, |p.finished|, i);
        assert p.finished[..|p.finished|] == p.finished;
      } else if i < |p.finished| {
        assert Kept(p, i);
      } else if |step.subpath| > 1 {
        ExtractUndoesCompose(step.base, step.subpath, DirOf(p.mappings, step.base, step.subpath, step.free), step.name);
      }
    }
  }

  lemma {:induction false} RunInv(p: Placing, steps: seq<Step>)
    requires Inv(p)
    ensures Inv(AfterAll(p, steps))
    decreases |steps|
  {
    if steps != [] {
      StepInv(p, steps[0]);
      RunInv(After(p, steps[0]), steps[1..]);
    }
  }

  /** Within a run a mapping never changes. */
  lemma {:induction false} MappingStays(p: Placing, steps: seq<Step>, key: Path)
    requires key in p.mappings && forall i :: 0 <= i < |steps| ==> !steps[i].Restart?
    ensures Remembers(AfterAll(p, steps).mappings, key, p.mappings[key])
    decreases |steps|
  {
    if steps != [] {
      MappingStays(After(p, steps[0]), steps[1..], key);
    }
  }

  /** Over any runs and restarts: once a file of a root was placed in a directory, every later file of the
      same root under the same destination composes into that directory, whatever name would be free. */
  lemma LaterFilesFollow(steps: seq<Step>, i: nat, base: Path, subpath: Path, free: string)
    requires subpath != []
    ensures var p := AfterAll(Placing(map[], []), steps);
            i < |p.finished| ==>
              var found := Extract(p.finished[i].0, p.finished[i].1);
              found.Some? && found.value.0 == KeyOf(base, subpath) ==>
                DirOf(p.mappings, base, subpath, free) == found.value.1
  {
    RunInv(Placing(map[], []), steps);
    var p := AfterAll(Placing(map[], []), steps);
    if i < |p.finished| {
      assert Kept(p, i);
    }
  }
}
