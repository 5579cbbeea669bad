/** File names received from a peer: what is replaced in them, their numbered variants, and the renaming of
    the roots of a transfer so that different roots stay different. */
module Names {
  import opened Base

  const ILLEGAL_CHARS: set<char> := {'<', '>', ':', '\"', '\\', '/', '|', '?', '*'}

  predicate AsciiControl(c: char) {
    c as int < 32 || c as int == 127
  }

  predicate Allowed(c: char) {
    c !in ILLEGAL_CHARS && !AsciiControl(c)
  }

  predicate Clean(name: string) {
    forall i :: 0 <= i < |name| ==> Allowed(name[i])
  }

  /** `normalize_filename` outside Windows. */
  function Normalize(name: string): (r: string)
    ensures |r| == |name| && Clean(r)
    ensures r == name <==> Clean(name)
    ensures forall i :: 0 <= i < |name| ==> r[i] == if Allowed(name[i]) then name[i] else '_'
  {
    if name == [] then [] else [if Allowed(name[0]) then name[0] else '_'] + Normalize(name[1..])
  }

  /** None of the nine characters, and nothing below the blank or the delete character, is left. */
  lemma NormalizedText(name: string, i: nat)
    requires i < |name|
    ensures var c := Normalize(name)[i];
            && 32 <= c as int != 127
            && c != '<' && c != '>' && c != ':' && c != '\"' && c != '\\' && c != '/' && c != '|' && c != '?' && c != '*'
  {
    assert Allowed(Normalize(name)[i]);
  }

  // ----- Stem and extension

  datatype Parts = Parts(stem: string, extension: Option<string>)

  /** The text behind the stem: nothing, or a dot and the extension. */
  function Suffix(p: Parts): string {
    match p.extension
    case None => ""
    case Some(e) => "." + e
  }

  function LastDot(name: string): (r: Option<nat>)
    ensures r.Some? ==> r.value < |name| && name[r.value] == '.'
    ensures forall i :: 0 <= i < |name| && name[i] == '.' ==> r.Some? && i <= r.value
  {
    if name == [] then None
    else if name[|name| - 1] == '.' then Some(|name| - 1)
    else LastDot(name[..|name| - 1])
  }

  /** How a path splits its file name; names that are no file name have no parts. */
  function PartsOf(name: string): (r: Option<Parts>)
    ensures r.None? <==> name in {"", ".", ".."}
    ensures r.Some? ==> r.value.stem + Suffix(r.value) == name && r.value.stem != ""
    ensures r.Some? ==> if r.value.extension.Some? then '.' !in r.value.extension.value else '.' !in name[1..]
  {
    if name in {"", ".", ".."} then None
    else
      var dot := LastDot(name);
      if dot.None? || dot.value == 0 then Some(Parts(name, None))
      else Some(Parts(name[..dot.value], Some(name[dot.value + 1..])))
  }

  // ----- Variants

  /** The number a text of digits stands for. */
  function NumberOf(s: string): nat
    requires forall i :: 0 <= i < |s| ==> '0' <= s[i] <= '9'
  {
    if s == [] then 0 else 10 * NumberOf(s[..|s| - 1]) + (s[|s| - 1] - '0') as nat
  }

  function Decimal(n: nat): (s: string)
    ensures s != [] && forall i :: 0 <= i < |s| ==> '0' <= s[i] <= '9'
  {
    var digit := ['0' + (n % 10) as char];
    if n < 10 then digit else Decimal(n / 10) + digit
  }

  /** A number is written as the digits that stand for it, without a zero in front. */
  lemma {:induction false} DecimalStandsFor(n: nat)
    ensures NumberOf(Decimal(n)) == n
    ensures |Decimal(n)| > 1 ==> Decimal(n)[0] != '0'
  {
    var s := Decimal(n);
    assert s[|s| - 1] == '0' + (n % 10) as char;
    if n >= 10 {
      assert s[..|s| - 1] == Decimal(n / 10);
      DecimalStandsFor(n / 10);
      assert |Decimal(n / 10)| == 1 ==> n / 10 < 10;
    } else {
      assert s[..|s| - 1] == [];
    }
  }

  lemma {:induction false} DecimalInjective(m: nat, n: nat)
    requires Decimal(m) == Decimal(n)
    ensures m == n
  {
    var s, t := Decimal(m), Decimal(n);
    assert s[|s| - 1] == '0' + (m % 10) as char && t[|t| - 1] == '0' + (n % 10) as char;
    if m >= 10 && n >= 10 {
      assert s[..|s| - 1] == Decimal(m / 10) && t[..|t| - 1] == Decimal(n / 10);
      DecimalInjective(m / 10, n / 10);
    }
  }

  /** Variant 0 is the name itself, variant `i` has `(i)` between stem and extension. */
  function Variant(name: string, i: nat): (v: string)
    requires PartsOf(name).Some?
    ensures Clean(name) ==> Clean(v)
    ensures i == 0 ==> v == name
  {
    var p := PartsOf(name).value;
    if i == 0 then name
    else
      DecimalClean(i);
      p.stem + "(" + Decimal(i) + ")" + Suffix(p)
  }

  lemma DecimalClean(i: nat)
    ensures Clean(Decimal(i))
  {
  }

  lemma PartsAt(v: string, stem: string, extension: string)
    requires stem != "" && '.' !in extension && v == stem + "." + extension && v !in {"", ".", ".."}
    ensures PartsOf(v) == Some(Parts(stem, Some(extension)))
  {
    assert v[|stem|] == '.' && v[|stem| + 1..] == extension && v[..|stem|] == stem;
    assert forall i :: |stem| < i < |v| ==> v[i] == extension[i - |stem| - 1];
  }

  /** A variant has the extension of the name, and its stem is that of the name with the number in parentheses. */
  lemma VariantParts(name: string, i: nat)
    requires PartsOf(name).Some? && i > 0
    ensures var p := PartsOf(name).value;
            PartsOf(Variant(name, i)) == Some(Parts(p.stem + "(" + Decimal(i) + ")", p.extension))
  {
    var p, v := PartsOf(name).value, Variant(name, i);
    var stem := p.stem + "(" + Decimal(i) + ")";
    if p.extension.Some? {
      assert v == stem + "." + p.extension.value && |v| > 2;
      PartsAt(v, stem, p.extension.value);
    } else {
      NoDotInside(name, stem, i);
      WholeStem(name, v, stem, i);
    }
  }

  lemma WholeStem(name: string, v: string, stem: string, i: nat)
    requires PartsOf(name).Some? && PartsOf(name).value.extension.None? && i > 0
    requires v == Variant(name, i) && stem == PartsOf(name).value.stem + "(" + Decimal(i) + ")"
    requires (LastDot(stem).None? || LastDot(stem).value == 0) && stem !in {"", ".", ".."}
    ensures PartsOf(v) == Some(Parts(stem, None))
  {
    assert v == stem;
  }

  lemma NoDotInside(name: string, stem: string, i: nat)
    requires name != "" && '.' !in name[1..] && stem == name + "(" + Decimal(i) + ")"
    ensures LastDot(stem).None? || LastDot(stem).value == 0
    ensures stem !in {"", ".", ".."}
  {
  }

  /** Different numbers give different variants. */
  lemma VariantsDiffer(name: string, i: nat, j: nat)
    requires PartsOf(name).Some? && Variant(name, i) == Variant(name, j)
    ensures i == j
  {
    var p := PartsOf(name).value;
    var a, b, n := Variant(name, i), Variant(name, j), |p.stem| + 1;
    if i > 0 && j > 0 {
      assert a[n..|a| - 1 - |Suffix(p)|] == Decimal(i);
      assert b[n..|b| - 1 - |Suffix(p)|] == Decimal(j);
      DecimalInjective(i, j);
    }
  }

  // ----- Renaming the roots of a transfer

  /** One file of a transfer request. */
  datatype File = File(path: seq<string>, id: string, size: nat)

  // The search is written over any numbering `spell(root, 0)`, `spell(root, 1)`, ... of the names a root may
  // get, and any test of which roots have names at all.

  type Spelling = (string, nat) -> string

  ghost predicate Distinct(spell: Spelling, root: string) {
    forall i: nat, j: nat :: spell(root, i) == spell(root, j) ==> i == j
  }

  /** The first `k` names of the root are in use, none of them for this root. */
  ghost predicate Taken(spell: Spelling, used: map<string, string>, root: string, k: nat) {
    forall j: nat :: j < k ==> spell(root, j) in used && used[spell(root, j)] != root
  }

  /** Name `v` belongs to root `used[v]`: it is one of that root's names and the earlier ones were taken. */
  ghost predicate Claimed(spell: Spelling, used: map<string, string>, v: string, k: nat) {
    v in used && v == spell(used[v], k) && Taken(spell, used, used[v], k)
  }

  ghost predicate HasClaim(spell: Spelling, used: map<string, string>, v: string) {
    exists k: nat :: Claimed(spell, used, v, k)
  }

  ghost predicate Consistent(spell: Spelling, used: map<string, string>) {
    && (forall v :: v in used ==> HasClaim(spell, used, v))
    && (forall v, w :: v in used && w in used && used[v] == used[w] ==> v == w)
  }

  /** A root that has a name finds no free one before it. */
  lemma KnownComesFirst(spell: Spelling, used: map<string, string>, root: string, i: nat, v: string)
    requires Consistent(spell, used) && v in used && used[v] == root && Taken(spell, used, root, i)
    ensures spell(root, i) in used
  {
    assert HasClaim(spell, used, v);
    var k: nat :| Claimed(spell, used, v, k);
    assert k >= i;
  }

  lemma ClaimSurvives(spell: Spelling, used: map<string, string>, v: string, root: string, w: string)
    requires Consistent(spell, used) && v !in used && w in used
    ensures HasClaim(spell, used[v := root], w)
  {
    assert HasClaim(spell, used, w);
    var k: nat :| Claimed(spell, used, w, k);
    assert Claimed(spell, used[v := root], w, k);
  }

  lemma ClaimAdded(spell: Spelling, used: map<string, string>, v: string, root: string, k: nat)
    requires Consistent(spell, used) && v !in used && v == spell(root, k) && Taken(spell, used, root, k)
    ensures root !in used.Values
    ensures Consistent(spell, used[v := root])
  {
    if w :| w in used && used[w] == root {
      KnownComesFirst(spell, used, root, k, w);
    }
    var used' := used[v := root];
    assert Claimed(spell, used', v, k);
    forall w | w in used'
      ensures HasClaim(spell, used', w)
    {
      if w != v {
        ClaimSurvives(spell, used, v, root, w);
      }
    }
  }

  // The search ends: the names tried are all different and in use.

  lemma Smaller(s: set<string>, t: set<string>)
    requires s <= t
    ensures |s| <= |t|
  {
    if s != {} {
      var x :| x in s;
      Smaller(s - {x}, t - {x});
    }
  }

  ghost function FirstNames(spell: Spelling, root: string, k: nat): set<string> {
    set j: nat | j < k :: spell(root, j)
  }

  lemma {:induction false} FirstNamesCount(spell: Spelling, root: string, k: nat)
    requires Distinct(spell, root)
    ensures |FirstNames(spell, root, k)| == k
  {
    if k > 0 {
      FirstNamesCount(spell, root, k - 1);
      assert FirstNames(spell, root, k) == FirstNames(spell, root, k - 1) + {spell(root, k - 1)};
    }
  }

  lemma TakenBound(spell: Spelling, used: map<string, string>, root: string, k: nat)
    requires Distinct(spell, root) && Taken(spell, used, root, k)
    ensures k <= |used|
  {
    FirstNamesCount(spell, root, k);
    Smaller(FirstNames(spell, root, k), used.Keys);
  }

  /** The search for one root: it ends within one more name than there are in use, with the name this root
      already has or, for a new root, the first free one. */
  method ClaimName(spell: Spelling, used: map<string, string>, root: string)
    returns (v: string, used': map<string, string>, ghost k: nat)
    requires Consistent(spell, used) && Distinct(spell, root)
    ensures Consistent(spell, used') && used' == used[v := root]
    ensures k <= |used| && v == spell(root, k) && Taken(spell, used, root, k)
    ensures if v in used then used[v] == root else root !in used.Values
  {
    var i: nat := 0;
    while spell(root, i) in used && used[spell(root, i)] != root
      invariant Taken(spell, used, root, i)
      decreases |used| - i
    {
      assert Taken(spell, used, root, i + 1);
      TakenBound(spell, used, root, i + 1);
      i := i + 1;
    }
    TakenBound(spell, used, root, i);
    v, k := spell(root, i), i;
    if v in used {
      used' := used;
      assert used == used[v := root];
    } else {
      used' := used[v := root];
      ClaimAdded(spell, used, v, root, k);
    }
  }

  function NormalizedAll(path: seq<string>): (r: seq<string>)
    ensures |r| == |path|
    ensures forall i :: 0 <= i < |path| ==> r[i] == Normalize(path[i])
  {
    if path == [] then [] else [Normalize(path[0])] + NormalizedAll(path[1..])
  }

  function RootOf(f: File): string {
    if f.path == [] then "" else f.path[0]
  }

  ghost predicate AmongFirst(spell: Spelling, root: string, name: string, most: nat) {
    exists k: nat :: k <= most && name == spell(root, k)
  }

  /** What renaming keeps of a file: everything but its root, up to the characters replaced. */
  predicate RestKept(before: File, after: File) {
    && before.path != []
    && after == File([RootOf(after)] + NormalizedAll(before.path[1..]), before.id, before.size)
  }

  ghost predicate SameRootsStay(files: seq<File>, out: seq<File>)
    requires |files| == |out|
  {
    forall i, j :: 0 <= i < |files| && 0 <= j < |files| ==>
      (RootOf(out[i]) == RootOf(out[j]) <==> RootOf(files[i]) == RootOf(files[j]))
  }

  /** The renamed roots so far, and the names in use. */
  ghost predicate RootsDone(spell: Spelling, files: seq<File>, out: seq<File>, used: map<string, string>) {
    && |out| <= |files| && |used| <= |out| && Consistent(spell, used)
    && forall j :: 0 <= j < |out| ==>
         && RootOf(out[j]) in used && used[RootOf(out[j])] == RootOf(files[j])
         && AmongFirst(spell, RootOf(files[j]), RootOf(out[j]), j)
  }

  lemma OneMoreRoot(spell: Spelling, files: seq<File>, out: seq<File>, used: map<string, string>, next: File, k: nat)
    requires RootsDone(spell, files, out, used) && |out| < |files|
    requires var root := RootOf(files[|out|]);
             && RootOf(next) == spell(root, k) && k <= |used|
             && (RootOf(next) in used ==> used[RootOf(next)] == root)
             && Consistent(spell, used[RootOf(next) := root])
    ensures RootsDone(spell, files, out + [next], used[RootOf(next) := RootOf(files[|out|])])
  {
    Grows(used, RootOf(next), RootOf(files[|out|]));
    assert AmongFirst(spell, RootOf(files[|out|]), RootOf(next), |out|);
  }

  /** One turn of the renaming loop. */
  method RenameNext(spell: Spelling, files: seq<File>, ghost out: seq<File>, used: map<string, string>, i: nat)
    returns (next: File, used': map<string, string>)
    requires i == |out| < |files| && RootsDone(spell, files, out, used)
    requires files[i].path != [] && Distinct(spell, RootOf(files[i]))
    requires RestDone(files, out)
    ensures RootsDone(spell, files, out + [next], used') && RestDone(files, out + [next])
  {
    var file := files[i];
    var v, claimed, k := ClaimName(spell, used, RootOf(file));
    next := File([v] + NormalizedAll(file.path[1..]), file.id, file.size);
    used' := claimed;
    OneMoreRoot(spell, files, out, used, next, k);
    OneMoreRest(files, out, next);
  }

  /** Every file renamed so far kept the rest. */
  ghost predicate RestDone(files: seq<File>, out: seq<File>) {
    |out| <= |files| && forall j :: 0 <= j < |out| ==> RestKept(files[j], out[j])
  }

  lemma OneMoreRest(files: seq<File>, out: seq<File>, next: File)
    requires RestDone(files, out) && |out| < |files| && RestKept(files[|out|], next)
    ensures RestDone(files, out + [next])
  {
  }

  lemma DoneKeepsRoots(spell: Spelling, files: seq<File>, out: seq<File>, used: map<string, string>)
    requires RootsDone(spell, files, out, used) && |out| == |files|
    ensures SameRootsStay(files, out)
    ensures forall i :: 0 <= i < |files| ==> AmongFirst(spell, RootOf(files[i]), RootOf(out[i]), i)
  {
  }

  method RenameRoots(spell: Spelling, named: string -> bool, files: seq<File>) returns (r: Result<seq<File>>)
    requires forall i :: 0 <= i < |files| ==> files[i].path != []
    requires forall root :: named(root) ==> Distinct(spell, root)
    ensures r.Ok? <==> forall i :: 0 <= i < |files| ==> named(RootOf(files[i]))
    ensures r.Ok? ==> |r.value| == |files| && SameRootsStay(files, r.value)
    ensures r.Ok? ==> forall i :: 0 <= i < |files| ==> RestKept(files[i], r.value[i])
    ensures r.Ok? ==> forall i :: 0 <= i < |files| ==> AmongFirst(spell, RootOf(files[i]), RootOf(r.value[i]), i)
  {
    var out: seq<File> := [];
    var used: map<string, string> := map[];
    for i := 0 to |files|
      invariant |out| == i && RootsDone(spell, files, out, used)
      invariant forall j :: 0 <= j < i ==> named(RootOf(files[j]))
      invariant RestDone(files, out)
    {
      if !named(RootOf(files[i])) {
        return Err(BadPath);
      }
      var next, used' := RenameNext(spell, files, out, used, i);
      used := used';
      out := out + [next];
    }
    DoneKeepsRoots(spell, files, out, used);
    return Ok(out);
  }

  lemma Grows(used: map<string, string>, v: string, root: string)
    ensures |used[v := root]| <= |used| + 1
  {
    assert used[v := root].Keys == used.Keys + {v};
    Smaller(used[v := root].Keys, used.Keys + {v});
  }

  predicate Named(root: string) {
    PartsOf(Normalize(root)).Some?
  }

  /** The names a root may get: the variants of its normalized form. */
  function RootName(root: string, k: nat): (v: string)
    ensures Clean(v)
    ensures Named(root) && k == 0 ==> v == Normalize(root)
  {
    if Named(root) then Variant(Normalize(root), k) else ""
  }

  /** `map_files`: fails on a root that is no file name, otherwise keeps order, ids, sizes and depths, uses
      allowed characters only, and gives two files the same root exactly when they had the same root. */
  method MapFiles(files: seq<File>) returns (r: Result<seq<File>>)
    requires forall i :: 0 <= i < |files| ==> files[i].path != []
    ensures r.Ok? <==> forall i :: 0 <= i < |files| ==> Named(RootOf(files[i]))
    ensures r.Ok? ==> |r.value| == |files| && SameRootsStay(files, r.value)
    ensures r.Ok? ==> forall i :: 0 <= i < |files| ==> RestKept(files[i], r.value[i]) && AllClean(r.value[i].path)
    ensures r.Ok? ==> forall i :: 0 <= i < |files| ==> AmongFirst(RootName, RootOf(files[i]), RootOf(r.value[i]), i)
    ensures r.Ok? ==> forall i :: 0 <= i < |files| ==>
              |r.value[i].path| == |files[i].path| && r.value[i].id == files[i].id && r.value[i].size == files[i].size
    ensures r.Ok? ==> forall i, c :: 0 <= i < |files| && 0 < c < |files[i].path| ==>
              r.value[i].path[c] == Normalize(files[i].path[c])
    ensures r.Ok? && files != [] ==> r.value[0].path[0] == Normalize(files[0].path[0])
  {
    forall root | Named(root)
      ensures Distinct(RootName, root)
    {
      RootNamesDiffer(root);
    }
    r := RenameRoots(RootName, Named, files);
    if r.Ok? {
      forall i | 0 <= i < |files|
        ensures AllClean(r.value[i].path)
      {
        CleanPath(files[i], r.value[i], i);
      }
      forall i | 0 <= i < |files|
        ensures BelowNormalized(files[i].path, r.value[i].path)
      {
        assert RestKept(files[i], r.value[i]);
      }
    }
  }

  /** The two paths are as long, and below the root the second is the first with its illegal characters replaced. */
  predicate BelowNormalized(before: seq<string>, after: seq<string>) {
    |after| == |before| && forall c :: 0 < c < |before| ==> after[c] == Normalize(before[c])
  }

  predicate AllClean(path: seq<string>) {
    forall c :: 0 <= c < |path| ==> Clean(path[c])
  }

  lemma CleanPath(before: File, after: File, most: nat)
    requires RestKept(before, after) && AmongFirst(RootName, RootOf(before), RootOf(after), most)
    ensures AllClean(after.path)
  {
  }

  lemma RootNamesDiffer(root: string)
    requires Named(root)
    ensures Distinct(RootName, root)
  {
    forall i: nat, j: nat | RootName(root, i) == RootName(root, j)
      ensures i == j
    {
      VariantsDiffer(Normalize(root), i, j);
    }
  }
}
