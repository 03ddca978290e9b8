// Ordering file descriptors for a registry: imports first.
module Descriptors {
  import opened Sequences

  datatype Result = Ok | NotSent(name: string)

  /** Each file's imports, by name: those the server sent, and the well-known
      ones of the global registry. */
  datatype Sources = Sources(protos: map<string, seq<string>>, global: map<string, seq<string>>)

  ghost predicate Known(src: Sources, name: string) {
    name in src.protos || name in src.global
  }

  /** A file's imports: the server's version first. */
  ghost function Imports(src: Sources, name: string): seq<string> {
    if name in src.protos then src.protos[name] else if name in src.global then src.global[name] else []
  }

  // ---------- Reachability ----------

  /** b is n imports away from a. */
  ghost predicate ReachesIn(src: Sources, a: string, b: string, n: nat)
    decreases n
  {
    if n == 0 then a == b else exists c :: c in Imports(src, a) && ReachesIn(src, c, b, n - 1)
  }

  ghost predicate Reaches(src: Sources, a: string, b: string) {
    exists n: nat :: ReachesIn(src, a, b, n)
  }

  /** No file imports itself, directly or through others. */
  ghost predicate Acyclic(src: Sources) {
    forall a, n: nat :: 0 < n ==> !ReachesIn(src, a, a, n)
  }

  /** What the server's files import, at any distance, and they themselves. */
  ghost predicate Needed(src: Sources, name: string) {
    exists root :: root in src.protos && Reaches(src, root, name)
  }

  lemma ReachesItself(src: Sources, a: string)
    ensures Reaches(src, a, a)
  {
    assert ReachesIn(src, a, a, 0);
  }

  lemma {:induction false} OneImportMore(src: Sources, a: string, b: string, c: string, n: nat)
    requires ReachesIn(src, a, b, n) && c in Imports(src, b)
    ensures ReachesIn(src, a, c, n + 1)
    decreases n
  {
    if n == 0 {
      assert ReachesIn(src, c, c, 0);
    } else {
      var d :| d in Imports(src, a) && ReachesIn(src, d, b, n - 1);
      OneImportMore(src, d, b, c, n - 1);
    }
  }

  lemma ReachesImport(src: Sources, a: string, b: string, c: string)
    requires Reaches(src, a, b) && c in Imports(src, b)
    ensures Reaches(src, a, c)
    ensures Acyclic(src) ==> c != a
  {
    var n: nat :| ReachesIn(src, a, b, n);
    OneImportMore(src, a, b, c, n);
  }

  lemma ReachesThrough(src: Sources, a: string, b: string, c: string)
    requires b in Imports(src, a) && Reaches(src, b, c)
    ensures Reaches(src, a, c)
  {
    var n: nat :| ReachesIn(src, b, c, n);
    assert ReachesIn(src, a, c, n + 1);
  }

  /** A set that contains the imports of its members contains all that its members reach. */
  lemma {:induction false} ClosedContainsReachable(src: Sources, s: set<string>, a: string, b: string, n: nat)
    requires ReachesIn(src, a, b, n) && a in s
    requires forall m, d :: m in s && d in Imports(src, m) ==> d in s
    ensures b in s
    decreases n
  {
    if n == 0 {
    } else {
      var c :| c in Imports(src, a) && ReachesIn(src, c, b, n - 1);
      ClosedContainsReachable(src, s, c, b, n - 1);
    }
  }

  // ---------- The walk ----------

  ghost function Listed(files: seq<string>): set<string> {
    set n | n in files
  }

  /** Every file comes after all of its imports. */
  ghost predicate ImportsFirst(src: Sources, files: seq<string>) {
    forall i, d :: 0 <= i < |files| && d in Imports(src, files[i]) ==> d in files[..i]
  }

  /** The files listed so far are known, listed once, and only import files that
      have been seen. What is seen but not listed is still being walked. */
  ghost predicate Good(src: Sources, seen: set<string>, files: seq<string>) {
    && Distinct(files) && Listed(files) <= seen
    && (forall n :: n in files ==> Known(src, n) && ImportsSeen(src, n, seen))
    && (Acyclic(src) ==> ImportsFirst(src, files))
  }

  ghost predicate ImportsSeen(src: Sources, n: string, seen: set<string>) {
    forall d :: d in Imports(src, n) ==> d in seen
  }

  ghost function Pending(seen: set<string>, files: seq<string>): set<string> {
    seen - Listed(files)
  }

  /** Everything being walked leads to name. */
  ghost predicate LeadTo(src: Sources, pending: set<string>, name: string) {
    forall g :: g in pending ==> Reaches(src, g, name)
  }

  /** name leads to everything in s. */
  ghost predicate LeadsTo(src: Sources, name: string, s: set<string>) {
    forall n :: n in s ==> Reaches(src, name, n)
  }

  lemma LeadToImport(src: Sources, pending: set<string>, name: string, d: string)
    requires LeadTo(src, pending, name) && d in Imports(src, name)
    ensures LeadTo(src, pending, d)
  {
    forall g | g in pending ensures Reaches(src, g, d) {
      ReachesImport(src, g, name, d);
    }
  }

  lemma LeadsThrough(src: Sources, name: string, d: string, s: set<string>)
    requires d in Imports(src, name) && LeadsTo(src, d, s)
    ensures LeadsTo(src, name, s)
  {
    forall n | n in s ensures Reaches(src, name, n) {
      ReachesThrough(src, name, d, n);
    }
  }

  /** Listing a file once all of its imports have been walked. */
  lemma FinishKeepsGood(src: Sources, seen: set<string>, files: seq<string>, name: string)
    requires Good(src, seen, files) && Known(src, name) && ImportsSeen(src, name, seen)
    requires name in Pending(seen, files) && LeadTo(src, Pending(seen, files), name)
    ensures Good(src, seen, files + [name])
    ensures Pending(seen, files + [name]) == Pending(seen, files) - {name}
  {
    if Acyclic(src) {
      forall d | d in Imports(src, name) ensures d in files {
        if d in Pending(seen, files) { ReachesImport(src, d, name, d); }
      }
    }
    var more := files + [name];
    assert Listed(more) == Listed(files) + {name};
    assert more[..|files|] == files && forall i :: 0 <= i < |files| ==> more[..i] == files[..i];
  }

  /** Every file listed comes from one of the sources, the server's first, with all that
      source says it imports listed too, and listed before it if so it says. */
  ghost predicate ListsImports(src: Sources, files: seq<string>, before: bool) {
    forall i :: 0 <= i < |files| ==>
      if files[i] in src.protos
      then forall d :: d in src.protos[files[i]] ==> d in if before then files[..i] else files
      else files[i] in src.global && forall d :: d in src.global[files[i]] ==> d in if before then files[..i] else files
  }

  class Builder {
    const src: Sources
    var seen: set<string>
    var files: seq<string>

    constructor (src: Sources)
      ensures this.src == src && seen == {} && files == []
    {
      this.src := src;
      seen, files := {}, [];
    }

    /** Adds a file after everything it imports. The files being walked all lead to it. */
    method Add(name: string) returns (r: Result)
      requires Good(src, seen, files) && LeadTo(src, Pending(seen, files), name)
      modifies this
      ensures r.Ok? ==> Good(src, seen, files) && name in seen && Pending(seen, files) == old(Pending(seen, files))
      ensures r.Ok? ==> old(files) <= files && old(seen) <= seen && LeadsTo(src, name, seen - old(seen))
      ensures r.NotSent? ==> Reaches(src, name, r.name) && !Known(src, r.name)
      decreases src.protos.Keys + src.global.Keys - seen
    {
      if name in seen {
        return Ok;
      }
      ReachesItself(src, name);
      seen := seen + {name};
      var deps;
      if name in src.protos {
        deps := src.protos[name];
      } else if name in src.global {
        deps := src.global[name];
      } else {
        return NotSent(name);
      }
      for i := 0 to |deps|
        invariant Good(src, seen, files) && Pending(seen, files) == old(Pending(seen, files)) + {name}
        invariant old(files) <= files && old(seen) + {name} <= seen && LeadsTo(src, name, seen - old(seen))
        invariant forall j :: 0 <= j < i ==> deps[j] in seen
      {
        LeadToImport(src, Pending(seen, files), name, deps[i]);
        ghost var before := seen;
        r := Add(deps[i]);
        if r.NotSent? {
          ReachesThrough(src, name, deps[i], r.name);
          return;
        }
        LeadsThrough(src, name, deps[i], seen - before);
      }
      FinishKeepsGood(src, seen, files, name);
      files := files + [name];
      return Ok;
    }
  }

  /** buildFiles, up to making a registry of the list: for every order in which
      the map's names may come. */
  method BuildFiles(src: Sources) returns (r: Result, files: seq<string>)
    ensures r.Ok? ==> Distinct(files) && (forall n :: n in files <==> Needed(src, n)) && (Acyclic(src) ==> ImportsFirst(src, files))
    ensures r.Ok? ==> (forall n :: n in src.protos ==> n in files) && ListsImports(src, files, false)
    ensures r.Ok? && Acyclic(src) ==> ListsImports(src, files, true)
    ensures r.NotSent? ==> Needed(src, r.name) && r.name !in src.protos && r.name !in src.global
    ensures r.NotSent? <==> exists n :: Needed(src, n) && !Known(src, n)
  {
    var b := new Builder(src);
    var todo := src.protos.Keys;
    while todo != {}
      invariant fresh(b) && b.src == src && Good(src, b.seen, b.files) && Pending(b.seen, b.files) == {}
      invariant todo <= src.protos.Keys && src.protos.Keys - todo <= b.seen
      invariant AllNeeded(src, b.seen)
    {
      var name :| name in todo;
      todo := todo - {name};
      ghost var before := b.seen;
      r := b.Add(name);
      if r.NotSent? {
        return r, [];
      }
      assert forall n :: n in b.seen - before ==> Needed(src, n);
    }
    ListedIsNeeded(src, b.seen, b.files);
    ImportsListed(src, b.seen, b.files);
    return Ok, b.files;
  }

  ghost predicate AllNeeded(src: Sources, s: set<string>) {
    forall n :: n in s ==> Needed(src, n)
  }

  /** When the walk is over, exactly the needed files are listed. */
  lemma ListedIsNeeded(src: Sources, seen: set<string>, files: seq<string>)
    requires Good(src, seen, files) && Pending(seen, files) == {}
    requires src.protos.Keys <= seen && AllNeeded(src, seen)
    ensures forall n :: n in files <==> Needed(src, n)
    ensures forall n :: Needed(src, n) ==> Known(src, n)
  {
    assert forall n :: n in Listed(files) <==> n in files;
    EmptyDifference(seen, Listed(files));
    forall m, d | m in seen && d in Imports(src, m) ensures d in seen {
      assert ImportsSeen(src, m, seen);
    }
    forall n | Needed(src, n) ensures n in seen {
      NeededIsSeen(src, seen, n);
    }
  }

  lemma ImportsListed(src: Sources, seen: set<string>, files: seq<string>)
    requires Good(src, seen, files) && Pending(seen, files) == {} && src.protos.Keys <= seen
    ensures (forall n :: n in src.protos ==> n in files) && ListsImports(src, files, false)
    ensures Acyclic(src) ==> ListsImports(src, files, true)
  {
    EmptyDifference(seen, Listed(files));
    forall i, d | 0 <= i < |files| && d in Imports(src, files[i]) ensures d in files && (Acyclic(src) ==> d in files[..i]) {
      assert files[i] in files && d in Listed(files);
    }
    forall i | 0 <= i < |files| ensures Known(src, files[i]) {
      assert files[i] in files;
    }
  }

  lemma EmptyDifference(a: set<string>, b: set<string>)
    requires b <= a && a - b == {}
    ensures a == b
  {
    forall x | x in a ensures x in b {
      assert x !in a - b;
    }
  }

  lemma NeededIsSeen(src: Sources, seen: set<string>, n: string)
    requires src.protos.Keys <= seen && Needed(src, n)
    requires forall m, d :: m in seen && d in Imports(src, m) ==> d in seen
    ensures n in seen
  {
    var root :| root in src.protos && Reaches(src, root, n);
    var m: nat :| ReachesIn(src, root, n, m);
    ClosedContainsReachable(src, seen, root, n, m);
  }

  // ---------- Registering a compiled file ----------

  datatype File = File(path: string, imports: seq<File>)

  /** f is g or among what g imports, at any distance. */
  ghost predicate Contains(g: File, f: File) {
    g == f || exists i :: 0 <= i < |g.imports| && Contains(g.imports[i], f)
  }

  /** g is among what f imports, at any distance. */
  ghost predicate Below(f: File, g: File) {
    exists i :: 0 <= i < |f.imports| && Contains(f.imports[i], g)
  }

  function Size(f: File): nat {
    1 + Sizes(f.imports)
  }

  function Sizes(fs: seq<File>): nat {
    if fs == [] then 0 else Size(fs[0]) + Sizes(fs[1..])
  }

  lemma {:induction false} OneOfSizes(fs: seq<File>, i: nat)
    requires i < |fs|
    ensures Size(fs[i]) <= Sizes(fs)
  {
    if i == 0 {
    } else {
      OneOfSizes(fs[1..], i - 1);
    }
  }

  lemma {:induction false} ContainedIsSmaller(g: File, f: File)
    requires Contains(g, f)
    ensures Size(f) <= Size(g)
    decreases g
  {
    if g == f {
    } else {
      var i :| 0 <= i < |g.imports| && Contains(g.imports[i], f);
      ContainedIsSmaller(g.imports[i], f);
      OneOfSizes(g.imports, i);
    }
  }

  /** No file is among its own imports. */
  lemma NotBelowItself(f: File)
    ensures !Below(f, f)
  {
    if i :| 0 <= i < |f.imports| && Contains(f.imports[i], f) {
      ContainedIsSmaller(f.imports[i], f);
      OneOfSizes(f.imports, i);
    }
  }

  /** Among the files registered and those f contains, a path names one file. */
  ghost predicate OnePerPath(f: File, files: seq<File>) {
    && (forall g, h :: Contains(f, g) && Contains(f, h) && g.path == h.path ==> g == h)
    && (forall g, k :: Contains(f, g) && 0 <= k < |files| && files[k].path == g.path ==> files[k] == g)
  }

  lemma {:induction false} ContainsThrough(f: File, i: nat, g: File)
    requires i < |f.imports| && Contains(f.imports[i], g)
    ensures Contains(f, g)
  {
  }

  /** It stays so for each import, while files that f contains are registered. */
  lemma OnePerPathBelow(f: File, i: nat, before: seq<File>, files: seq<File>)
    requires OnePerPath(f, before) && i < |f.imports| && before <= files
    requires forall k :: |before| <= k < |files| ==> Contains(f, files[k])
    ensures OnePerPath(f.imports[i], files)
  {
    forall g | Contains(f.imports[i], g) ensures Contains(f, g) {
      ContainsThrough(f, i, g);
    }
  }

  /** Each file's imports are registered, by their paths. */
  ghost predicate Closed(files: seq<File>) {
    forall k, i :: 0 <= k < |files| && 0 <= i < |files[k].imports| ==> HasPath(files, files[k].imports[i].path)
  }

  /** Each file comes after files with its imports' paths. */
  ghost predicate ImportsBefore(files: seq<File>) {
    forall k, i :: 0 <= k < |files| && 0 <= i < |files[k].imports| ==> HasPath(files[..k], files[k].imports[i].path)
  }

  lemma OrderedIsClosed(files: seq<File>)
    requires ImportsBefore(files)
    ensures Closed(files)
  {
    forall k, i | 0 <= k < |files| && 0 <= i < |files[k].imports| ensures HasPath(files, files[k].imports[i].path) {
      assert HasPath(files[..k], files[k].imports[i].path);
    }
  }

  lemma ClosedMore(files: seq<File>, f: File)
    requires Closed(files) && forall i :: 0 <= i < |f.imports| ==> HasPath(files, f.imports[i].path)
    ensures Closed(files + [f])
  {
    var more := files + [f];
    forall k, i | 0 <= k < |more| && 0 <= i < |more[k].imports| ensures HasPath(more, more[k].imports[i].path) {
      var g := if k < |files| then files[k] else f;
      assert HasPath(files, g.imports[i].path);
      var m :| 0 <= m < |files| && files[m].path == g.imports[i].path;
      assert more[m].path == g.imports[i].path;
    }
  }

  /** What has been registered on behalf of f's imports. */
  ghost predicate Added(f: File, first: seq<File>, files: seq<File>, refused: set<File>) {
    first <= files && forall k :: |first| <= k < |files| ==> Below(f, files[k]) && files[k] !in refused
  }

  lemma AddedOne(f: File, i: nat, first: seq<File>, before: seq<File>, files: seq<File>, refused: set<File>)
    requires i < |f.imports| && Added(f, first, before, refused) && before <= files
    requires forall k :: |before| <= k < |files| ==> Contains(f.imports[i], files[k]) && files[k] !in refused
    ensures Added(f, first, files, refused)
  {
  }

  lemma AddedAreContained(f: File, first: seq<File>, files: seq<File>, refused: set<File>)
    requires Added(f, first, files, refused)
    ensures forall k :: |first| <= k < |files| ==> Contains(f, files[k]) && files[k] !in refused
    ensures Contains(f, f)
  {
    forall k | |first| <= k < |files| ensures Contains(f, files[k]) {
      assert Below(f, files[k]);
    }
  }

  lemma {:induction false} AllRegistered(f: File, files: seq<File>, g: File)
    requires OnePerPath(f, files) && Closed(files) && f in files && Contains(f, g)
    ensures g in files
    decreases f
  {
    if g == f {
    } else {
      var i :| 0 <= i < |f.imports| && Contains(f.imports[i], g);
      var h := f.imports[i];
      assert Contains(h, h) && Contains(f, h);
      assert HasPath(files, h.path);
      OnePerPathBelow(f, i, files, files);
      AllRegistered(h, files, g);
    }
  }

  /** The registry refuses none of the files that f contains and that are not registered. */
  ghost predicate NoneRefused(f: File, files: seq<File>, refused: set<File>) {
    forall g :: Contains(f, g) && !HasPath(files, g.path) ==> g !in refused
  }

  ghost predicate HasPath(files: seq<File>, path: string) {
    exists k :: 0 <= k < |files| && files[k].path == path
  }

  class Registry {
    var files: seq<File>

    constructor ()
      ensures Valid() && files == []
    {
      files := [];
    }

    /** One file per path, and every file after files with its imports' paths. */
    ghost predicate Valid()
      reads this
    {
      && (forall j, k :: 0 <= j < k < |files| ==> files[j].path != files[k].path)
      && ImportsBefore(files)
    }

    method FindFileByPath(path: string) returns (found: bool)
      ensures found <==> HasPath(files, path)
    {
      for k := 0 to |files|
        invariant !HasPath(files[..k], path)
      {
        if files[k].path == path {
          return true;
        }
        assert files[..k + 1] == files[..k] + [files[k]];
      }
      assert files[..|files|] == files;
      return false;
    }

    /** Registering one file. It is refused for a path that is taken, or for a reason
        outside this model (a name another file already declares). */
    method RegisterFile(f: File, refused: set<File>) returns (ok: bool)
      requires Valid() && forall i :: 0 <= i < |f.imports| ==> HasPath(files, f.imports[i].path)
      modifies this
      ensures Valid() && files == if ok then old(files) + [f] else old(files)
      ensures ok <==> !HasPath(old(files), f.path) && f !in refused
    {
      var found := FindFileByPath(f.path);
      if found {
        return false;
      }
      if f in refused {
        return false;
      }
      files := files + [f];
      assert forall k :: 0 <= k < |files| - 1 ==> files[..k] == old(files)[..k];
      return true;
    }

    /** Registers f and, first, what it imports. Whether or not it succeeds, the registry
        stays closed under imports. If a path names one file, it fails exactly if a file
        it has to register is refused. */
    method RegisterWithImports(f: File, refused: set<File>) returns (ok: bool)
      requires Valid()
      modifies this
      ensures Valid() && old(files) <= files
      ensures ok ==> HasPath(files, f.path)
      ensures forall k :: |old(files)| <= k < |files| ==> Contains(f, files[k]) && files[k] !in refused
      ensures OnePerPath(f, old(files)) ==> (ok <==> NoneRefused(f, old(files), refused))
      decreases f
    {
      var found := FindFileByPath(f.path);
      if found {
        RegisteredIsWhole(f, files, refused);
        return true;
      }
      for i := 0 to |f.imports|
        invariant Valid() && Added(f, old(files), files, refused)
        invariant forall j :: 0 <= j < i ==> HasPath(files, f.imports[j].path)
      {
        ghost var before := files;
        ok := RegisterWithImports(f.imports[i], refused);
        AddedOne(f, i, old(files), before, files, refused);
        if !ok {
          RefusedBelow(f, i, old(files), before, refused);
          AddedAreContained(f, old(files), files, refused);
          return;
        }
      }
      ghost var before := files;
      AddedAreContained(f, old(files), files, refused);
      ok := RegisterFile(f, refused);
      assert ok ==> files[|before|].path == f.path;
      Registered(f, old(files), before, refused, ok);
    }
  }

  lemma RegisteredIsWhole(f: File, files: seq<File>, refused: set<File>)
    requires ImportsBefore(files) && HasPath(files, f.path)
    ensures OnePerPath(f, files) ==> NoneRefused(f, files, refused)
  {
    OrderedIsClosed(files);
    if OnePerPath(f, files) {
      assert Contains(f, f) && f in files;
      forall g | Contains(f, g) ensures HasPath(files, g.path) {
        AllRegistered(f, files, g);
        var k :| 0 <= k < |files| && files[k] == g;
        assert files[k].path == g.path;
      }
      assert NoneRefused(f, files, refused);
    }
  }

  lemma RefusedBelow(f: File, i: nat, first: seq<File>, files: seq<File>, refused: set<File>)
    requires i < |f.imports| && Added(f, first, files, refused)
    requires OnePerPath(f.imports[i], files) ==> !NoneRefused(f.imports[i], files, refused)
    ensures OnePerPath(f, first) ==> !NoneRefused(f, first, refused)
  {
    if OnePerPath(f, first) {
      OnePerPathBelow(f, i, first, files);
      var g :| Contains(f.imports[i], g) && !HasPath(files, g.path) && g in refused;
      ContainsThrough(f, i, g);
    }
  }

  /** Registering f itself, once its imports are. */
  lemma Registered(f: File, first: seq<File>, files: seq<File>, refused: set<File>, ok: bool)
    requires ImportsBefore(files) && Added(f, first, files, refused) && !HasPath(first, f.path)
    requires forall i :: 0 <= i < |f.imports| ==> HasPath(files, f.imports[i].path)
    requires ok <==> !HasPath(files, f.path) && f !in refused
    ensures OnePerPath(f, first) ==> (ok <==> NoneRefused(f, first, refused))
  {
    assert Contains(f, f);
    if OnePerPath(f, first) {
      NotBelowItself(f);
      assert !HasPath(files, f.path);
      if ok {
        forall g | Contains(f, g) && !HasPath(first, g.path) ensures g !in refused {
          NewIsNotRefused(f, first, files, refused, g);
        }
      }
    }
  }

  lemma NewIsNotRefused(f: File, first: seq<File>, files: seq<File>, refused: set<File>, g: File)
    requires ImportsBefore(files) && Added(f, first, files, refused) && f !in refused
    requires forall i :: 0 <= i < |f.imports| ==> HasPath(files, f.imports[i].path)
    requires OnePerPath(f, first) && Contains(f, g) && !HasPath(first, g.path)
    ensures g !in refused
  {
    var more := files + [f];
    OrderedIsClosed(files);
    ClosedMore(files, f);
    assert more[|files|] == f && Contains(f, f);
    assert OnePerPath(f, more);
    AllRegistered(f, more, g);
  }
}
