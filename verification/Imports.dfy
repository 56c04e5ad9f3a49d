/**
 Loading a file and, recursively, its imports.

 A path stands for one file: imports are canonicalised before they are followed.  The
 recursive loader shares one list of already parsed files.
 */
module Imports {
  import opened Wrappers
  import opened Ast

  type Path = string

  /** What reading and parsing a file yields. */
  datatype File =
    | Unreadable
    | Unparsable
    | Parsed(types: seq<Model>, modules: seq<Module>, imports: seq<Path>)

  type FileSystem = map<Path, File>

  datatype LoadError = FileNotFound(path: Path) | ReadFailed(path: Path) | ParseFailed(path: Path)

  function FileError(fs: FileSystem, p: Path): Option<LoadError> {
    if p !in fs then Some(FileNotFound(p))
    else if fs[p].Unreadable? then Some(ReadFailed(p))
    else if fs[p].Unparsable? then Some(ParseFailed(p))
    else None
  }

  predicate Good(fs: FileSystem, p: Path) {
    FileError(fs, p).None?
  }

  // ----- The reference order: a depth-first walk with an explicit stack -----

  function Elements(s: seq<Path>): set<Path> {
    set p | p in s
  }

  /** Visits the paths on the stack, first one first, putting a new file's imports on top. */
  function Walk(fs: FileSystem, todo: seq<Path>, seen: seq<Path>): Result<seq<Path>, LoadError>
    decreases |fs.Keys - Elements(seen)|, |todo|
  {
    if todo == [] then Ok(seen)
    else if todo[0] in seen then Walk(fs, todo[1..], seen)
    else
      match FileError(fs, todo[0])
      case Some(e) => Err(e)
      case None =>
        FewerLeft(fs, todo[0], seen);
        Walk(fs, fs[todo[0]].imports + todo[1..], seen + [todo[0]])
  }

  lemma FewerLeft(fs: FileSystem, p: Path, seen: seq<Path>)
    requires p in fs && p !in seen
    ensures |fs.Keys - Elements(seen + [p])| < |fs.Keys - Elements(seen)|
  {
    var before, after := fs.Keys - Elements(seen), fs.Keys - Elements(seen + [p]);
    assert p in before && p !in after && after <= before;
    Subset(after, before - {p});
  }

  lemma {:induction false} Subset(a: set<Path>, b: set<Path>)
    requires a <= b
    ensures |a| <= |b|
  {
    if a != {} {
      var x :| x in a;
      Subset(a - {x}, b - {x});
    }
  }

  // ----- The loader -----

  /** The list of already parsed files, shared by all recursive calls. */
  class AlreadyParsed {
    var paths: seq<Path>

    constructor ()
      ensures paths == []
    {
      paths := [];
    }
  }

  function OwnTypes(fs: FileSystem, p: Path): seq<Model> {
    if Good(fs, p) then fs[p].types else []
  }

  function OwnModules(fs: FileSystem, p: Path): seq<Module> {
    if Good(fs, p) then fs[p].modules else []
  }

  /** The types of the files in order. */
  function TypesOf(fs: FileSystem, ps: seq<Path>): seq<Model> {
    if ps == [] then [] else OwnTypes(fs, ps[0]) + TypesOf(fs, ps[1..])
  }

  function ModulesOf(fs: FileSystem, ps: seq<Path>): seq<Module> {
    if ps == [] then [] else OwnModules(fs, ps[0]) + ModulesOf(fs, ps[1..])
  }

  lemma {:induction false} ContentsAppend(fs: FileSystem, a: seq<Path>, b: seq<Path>)
    ensures TypesOf(fs, a + b) == TypesOf(fs, a) + TypesOf(fs, b)
    ensures ModulesOf(fs, a + b) == ModulesOf(fs, a) + ModulesOf(fs, b)
  {
    if a == [] {
      assert a + b == b;
    } else {
      assert (a + b)[1..] == a[1..] + b;
      ContentsAppend(fs, a[1..], b);
    }
  }

  /** What has been merged when the first `i` imports of `input` are done. */
  ghost predicate Merged(fs: FileSystem, input: Path, rest: seq<Path>, before: seq<Path>, i: nat,
                         now: seq<Path>, types: seq<Model>, modules: seq<Module>) {
    && Good(fs, input) && i <= |fs[input].imports| && before <= now
    && |fs.Keys - Elements(now)| < |fs.Keys - Elements(before)|
    && types == TypesOf(fs, now[|before|..]) && modules == ModulesOf(fs, now[|before|..])
    && (forall p :: p in now[|before|..] ==> Good(fs, p))
    && Walk(fs, [input] + rest, before) == Walk(fs, fs[input].imports[i..] + rest, now)
  }

  lemma MergeStart(fs: FileSystem, input: Path, rest: seq<Path>, before: seq<Path>)
    requires input !in before && Good(fs, input)
    ensures Merged(fs, input, rest, before, 0, before + [input], fs[input].types, fs[input].modules)
  {
    var now := before + [input];
    FewerLeft(fs, input, before);
    assert now[|before|..] == [input];
    assert TypesOf(fs, [input]) == fs[input].types + [] && ModulesOf(fs, [input]) == fs[input].modules + [];
    assert ([input] + rest)[1..] == rest && fs[input].imports[0..] == fs[input].imports;
  }

  lemma MergeSkip(fs: FileSystem, input: Path, rest: seq<Path>, before: seq<Path>, i: nat,
                  now: seq<Path>, types: seq<Model>, modules: seq<Module>)
    requires Merged(fs, input, rest, before, i, now, types, modules) && i < |fs[input].imports| &&
             fs[input].imports[i] in now
    ensures Merged(fs, input, rest, before, i + 1, now, types, modules)
  {
    var todo := fs[input].imports;
    assert (todo[i..] + rest)[1..] == todo[i + 1..] + rest;
  }

  lemma AddedContents(fs: FileSystem, before: seq<Path>, now: seq<Path>, later: seq<Path>)
    requires before <= now <= later
    ensures TypesOf(fs, later[|before|..]) == TypesOf(fs, now[|before|..]) + TypesOf(fs, later[|now|..])
    ensures ModulesOf(fs, later[|before|..]) == ModulesOf(fs, now[|before|..]) + ModulesOf(fs, later[|now|..])
    ensures forall p :: p in later[|before|..] ==> p in now[|before|..] || p in later[|now|..]
  {
    assert later[|before|..] == now[|before|..] + later[|now|..];
    ContentsAppend(fs, now[|before|..], later[|now|..]);
  }

  lemma MergeLoaded(fs: FileSystem, input: Path, rest: seq<Path>, before: seq<Path>, i: nat,
                    now: seq<Path>, types: seq<Model>, modules: seq<Module>, later: seq<Path>)
    requires Merged(fs, input, rest, before, i, now, types, modules) && i < |fs[input].imports| && now <= later
    requires forall p :: p in later[|now|..] ==> Good(fs, p)
    requires var todo := fs[input].imports;
             Walk(fs, [todo[i]] + (todo[i + 1..] + rest), now) == Walk(fs, todo[i + 1..] + rest, later)
    ensures Merged(fs, input, rest, before, i + 1, later,
                   types + TypesOf(fs, later[|now|..]), modules + ModulesOf(fs, later[|now|..]))
  {
    var todo := fs[input].imports;
    assert todo[i..] + rest == [todo[i]] + (todo[i + 1..] + rest);
    AddedContents(fs, before, now, later);
    FewerOrSame(fs, now, later);
  }

  lemma MergeFailed(fs: FileSystem, input: Path, rest: seq<Path>, before: seq<Path>, i: nat,
                    now: seq<Path>, types: seq<Model>, modules: seq<Module>, e: LoadError)
    requires Merged(fs, input, rest, before, i, now, types, modules) && i < |fs[input].imports|
    requires var todo := fs[input].imports; Walk(fs, [todo[i]] + (todo[i + 1..] + rest), now) == Err(e)
    ensures Walk(fs, [input] + rest, before) == Err(e)
  {
    var todo := fs[input].imports;
    assert todo[i..] + rest == [todo[i]] + (todo[i + 1..] + rest);
  }

  lemma MergeEnd(fs: FileSystem, input: Path, rest: seq<Path>, before: seq<Path>,
                 now: seq<Path>, types: seq<Model>, modules: seq<Module>)
    requires Good(fs, input) && Merged(fs, input, rest, before, |fs[input].imports|, now, types, modules)
    ensures Walk(fs, [input] + rest, before) == Walk(fs, rest, now)
  {
    var todo := fs[input].imports;
    assert todo[|todo|..] + rest == rest;
  }

  /** `_parse_file`.  With any work `rest` still to do, loading `input` is what the walk does with
      it on top of the stack; the merged contents are those of the files added, in order. */
  method LoadFile(input: Path, fs: FileSystem, already: AlreadyParsed, ghost rest: seq<Path>)
      returns (res: Result<AstSystem, LoadError>)
    requires input !in already.paths
    modifies already
    ensures old(already.paths) <= already.paths
    ensures Walk(fs, [input] + rest, old(already.paths)) ==
            if res.Ok? then Walk(fs, rest, already.paths) else Err(res.error)
    ensures var added := already.paths[|old(already.paths)|..];
            res.Ok? ==>
              (forall p :: p in added ==> Good(fs, p)) &&
              res.value == AstSystem(TypesOf(fs, added), ModulesOf(fs, added))
    decreases |fs.Keys - Elements(already.paths)|
  {
    ghost var before := already.paths;
    if input !in fs {
      return Err(FileNotFound(input));
    }
    if fs[input].Unreadable? {
      return Err(ReadFailed(input));
    }
    if fs[input].Unparsable? {
      return Err(ParseFailed(input));
    }
    var imports, types, modules := fs[input].imports, fs[input].types, fs[input].modules;
    already.paths := already.paths + [input];
    MergeStart(fs, input, rest, before);
    for i := 0 to |imports|
      invariant Merged(fs, input, rest, before, i, already.paths, types, modules)
    {
      ghost var here := already.paths;
      if imports[i] !in already.paths {
        var imported := LoadFile(imports[i], fs, already, imports[i + 1..] + rest);
        if imported.Err? {
          MergeFailed(fs, input, rest, before, i, here, types, modules, imported.error);
          return imported;
        }
        MergeLoaded(fs, input, rest, before, i, here, types, modules, already.paths);
        types, modules := types + imported.value.types, modules + imported.value.modules;
      } else {
        MergeSkip(fs, input, rest, before, i, here, types, modules);
      }
    }
    MergeEnd(fs, input, rest, before, already.paths, types, modules);
    res := Ok(AstSystem(types, modules));
  }

  lemma FewerOrSame(fs: FileSystem, a: seq<Path>, b: seq<Path>)
    requires a <= b
    ensures |fs.Keys - Elements(b)| <= |fs.Keys - Elements(a)|
  {
    assert Elements(a) <= Elements(b);
    Subset(fs.Keys - Elements(b), fs.Keys - Elements(a));
  }

  // ----- What the walk visits -----

  /** A chain of imports. */
  predicate Chain(fs: FileSystem, ps: seq<Path>) {
    |ps| > 0 && forall i :: 0 <= i < |ps| - 1 ==> Good(fs, ps[i]) && ps[i + 1] in fs[ps[i]].imports
  }

  ghost predicate Reachable(fs: FileSystem, from: Path, to: Path) {
    exists ps :: Chain(fs, ps) && ps[0] == from && ps[|ps| - 1] == to
  }

  predicate NoDuplicates(s: seq<Path>) {
    forall i, j :: 0 <= i < j < |s| ==> s[i] != s[j]
  }

  lemma ReachableStep(fs: FileSystem, root: Path, p: Path, q: Path)
    requires Reachable(fs, root, p) && Good(fs, p) && q in fs[p].imports
    ensures Reachable(fs, root, q)
  {
    var ps :| Chain(fs, ps) && ps[0] == root && ps[|ps| - 1] == p;
    var qs := ps + [q];
    forall i | 0 <= i < |qs| - 1 ensures Good(fs, qs[i]) && qs[i + 1] in fs[qs[i]].imports {
      assert qs[i] == ps[i];
      if i < |ps| - 1 { assert qs[i + 1] == ps[i + 1]; }
    }
    assert Chain(fs, qs) && qs[0] == root && qs[|qs| - 1] == q;
  }

  /** The walk only visits what is reachable, visits each file once, and fails at a reachable
      bad file. */
  lemma {:induction false} WalkVisits(fs: FileSystem, root: Path, todo: seq<Path>, seen: seq<Path>)
    requires NoDuplicates(seen) && forall p :: p in seen ==> Good(fs, p)
    requires forall p :: p in todo || p in seen ==> Reachable(fs, root, p)
    ensures var r := Walk(fs, todo, seen);
            && (r.Ok? ==> seen <= r.value && NoDuplicates(r.value) &&
                          forall p :: p in r.value ==> Good(fs, p) && Reachable(fs, root, p))
            && (r.Err? ==> exists p :: Reachable(fs, root, p) && FileError(fs, p) == Some(r.error))
    decreases |fs.Keys - Elements(seen)|, |todo|
  {
    if todo == [] {
    } else if todo[0] in seen {
      WalkVisits(fs, root, todo[1..], seen);
    } else if Good(fs, todo[0]) {
      var p := todo[0];
      forall q | q in fs[p].imports ensures Reachable(fs, root, q) { ReachableStep(fs, root, p, q); }
      FewerLeft(fs, p, seen);
      WalkVisits(fs, root, fs[p].imports + todo[1..], seen + [p]);
    }
  }

  /** Every import of a visited file is visited or still on the stack. */
  predicate Pending(fs: FileSystem, todo: seq<Path>, seen: seq<Path>) {
    forall p, q :: p in seen && Good(fs, p) && q in fs[p].imports ==> q in seen || q in todo
  }

  lemma {:induction false} WalkCloses(fs: FileSystem, todo: seq<Path>, seen: seq<Path>)
    requires Pending(fs, todo, seen)
    ensures var r := Walk(fs, todo, seen);
            r.Ok? ==> Pending(fs, [], r.value) && (forall p :: p in todo || p in seen ==> p in r.value)
    decreases |fs.Keys - Elements(seen)|, |todo|
  {
    if todo == [] {
    } else if todo[0] in seen {
      forall p, q | p in seen && Good(fs, p) && q in fs[p].imports ensures q in seen || q in todo[1..] {
        assert q in todo ==> q == todo[0] || q in todo[1..];
      }
      WalkCloses(fs, todo[1..], seen);
    } else if Good(fs, todo[0]) {
      var p0 := todo[0];
      var todo', seen' := fs[p0].imports + todo[1..], seen + [p0];
      forall p, q | p in seen' && Good(fs, p) && q in fs[p].imports ensures q in seen' || q in todo' {
        if p in seen { assert q in seen || q in todo; }
      }
      FewerLeft(fs, p0, seen);
      WalkCloses(fs, todo', seen');
      forall p | p in todo ensures p in todo' || p in seen' { assert p == p0 || p in todo[1..]; }
    }
  }

  lemma {:induction false} ClosedReaches(fs: FileSystem, all: seq<Path>, ps: seq<Path>)
    requires Pending(fs, [], all) && Chain(fs, ps) && ps[0] in all
    ensures ps[|ps| - 1] in all
  {
    if |ps| > 1 {
      assert ps[1] in fs[ps[0]].imports;
      ClosedReaches(fs, all, ps[1..]);
    }
  }

  /** From one root, the walk visits exactly the reachable files, and fails exactly when one of
      them is bad. */
  lemma WalkFromRoot(fs: FileSystem, root: Path)
    ensures var r := Walk(fs, [root], []);
            && (r.Ok? <==> forall p :: Reachable(fs, root, p) ==> Good(fs, p))
            && (r.Ok? ==> NoDuplicates(r.value) && forall p :: p in r.value <==> Reachable(fs, root, p))
            && (r.Err? ==> exists p :: Reachable(fs, root, p) && FileError(fs, p) == Some(r.error))
  {
    assert Chain(fs, [root]);
    assert Reachable(fs, root, root);
    WalkVisits(fs, root, [root], []);
    WalkCloses(fs, [root], []);
    var r := Walk(fs, [root], []);
    if r.Ok? {
      forall p | Reachable(fs, root, p) ensures p in r.value {
        var ps :| Chain(fs, ps) && ps[0] == root && ps[|ps| - 1] == p;
        ClosedReaches(fs, r.value, ps);
      }
    }
  }

  // ----- In which order, read off the files -----

  predicate Loadable(fs: FileSystem, p: Path) {
    p in fs && fs[p].Parsed?
  }

  predicate AllLoaded(fs: FileSystem, p: Path, loaded: seq<Path>) {
    Loadable(fs, p) && forall q :: q in fs[p].imports ==> q in loaded
  }

  /** `p` is import `i` of file `k`, the latest loaded file with an import that is not loaded, and the first such
      import of that file. */
  predicate NextAt(fs: FileSystem, loaded: seq<Path>, k: nat, i: nat, p: Path) {
    && k < |loaded| && Loadable(fs, loaded[k]) && i < |fs[loaded[k]].imports| && fs[loaded[k]].imports[i] == p
    && p !in loaded
    && (forall j :: 0 <= j < i ==> fs[loaded[k]].imports[j] in loaded)
    && (forall l :: k < l < |loaded| ==> AllLoaded(fs, loaded[l], loaded))
  }

  /** `p` comes after `loaded`. */
  ghost predicate Next(fs: FileSystem, root: Path, loaded: seq<Path>, p: Path) {
    if loaded == [] then p == root else exists k: nat, i: nat :: NextAt(fs, loaded, k, i, p)
  }

  ghost predicate LoadedInOrder(fs: FileSystem, root: Path, order: seq<Path>) {
    forall n :: 0 <= n < |order| ==> Loadable(fs, order[n]) && Next(fs, root, order[..n], order[n])
  }

  /** Loading stops at `p` with the error. */
  ghost predicate StopsAt(fs: FileSystem, root: Path, order: seq<Path>, p: Path, e: LoadError) {
    && LoadedInOrder(fs, root, order) && Next(fs, root, order, p)
    && match e
       case FileNotFound(q) => q == p && p !in fs
       case ReadFailed(q) => q == p && p in fs && fs[p] == Unreadable
       case ParseFailed(q) => q == p && p in fs && fs[p] == Unparsable
  }

  lemma NotLater(fs: FileSystem, loaded: seq<Path>, k: nat, i: nat, p: Path, l: nat)
    requires NextAt(fs, loaded, k, i, p)
    ensures k < l < |loaded| ==> AllLoaded(fs, loaded[l], loaded)
    ensures !AllLoaded(fs, loaded[k], loaded)
  {
    assert p in fs[loaded[k]].imports;
  }

  /** The order is determined. */
  lemma NextUnique(fs: FileSystem, root: Path, loaded: seq<Path>, p: Path, q: Path)
    requires Next(fs, root, loaded, p) && Next(fs, root, loaded, q)
    ensures p == q
  {
    if loaded != [] {
      var k: nat, i: nat :| NextAt(fs, loaded, k, i, p);
      var l: nat, j: nat :| NextAt(fs, loaded, l, j, q);
      NotLater(fs, loaded, k, i, p, l);
      NotLater(fs, loaded, l, j, q, k);
    }
  }

  function ImportsOf(fs: FileSystem, p: Path): seq<Path> {
    if Good(fs, p) then fs[p].imports else []
  }

  /** The imports of the files, those of later files first. */
  function Frontier(fs: FileSystem, seen: seq<Path>): seq<Path> {
    if seen == [] then [] else ImportsOf(fs, seen[|seen| - 1]) + Frontier(fs, seen[..|seen| - 1])
  }

  function Unseen(ps: seq<Path>, seen: seq<Path>): seq<Path> {
    if ps == [] then [] else (if ps[0] in seen then [] else [ps[0]]) + Unseen(ps[1..], seen)
  }

  lemma {:induction false} UnseenAppend(a: seq<Path>, b: seq<Path>, seen: seq<Path>)
    ensures Unseen(a + b, seen) == Unseen(a, seen) + Unseen(b, seen)
  {
    if a == [] {
      assert a + b == b;
    } else {
      assert (a + b)[1..] == a[1..] + b;
      UnseenAppend(a[1..], b, seen);
    }
  }

  lemma {:induction false} UnseenNext(ps: seq<Path>, seen: seq<Path>, p: Path)
    ensures Unseen(ps, seen + [p]) == Unseen(Unseen(ps, seen), [p])
  {
    if ps != [] {
      UnseenNext(ps[1..], seen, p);
      var few := Unseen(ps[1..], seen);
      if ps[0] in seen {
        assert ps[0] in seen + [p] && Unseen(ps, seen) == few;
      } else {
        UnseenAppend([ps[0]], few, [p]);
        assert Unseen(ps, seen) == [ps[0]] + few;
        assert ps[0] in seen + [p] <==> ps[0] == p;
      }
    }
  }

  lemma {:induction false} UnseenSplit(ps: seq<Path>, seen: seq<Path>) returns (i: nat)
    ensures i <= |ps| && forall j :: 0 <= j < i ==> ps[j] in seen
    ensures i < |ps| ==> ps[i] !in seen && Unseen(ps, seen) != [] && Unseen(ps, seen)[0] == ps[i]
    ensures i == |ps| ==> Unseen(ps, seen) == []
  {
    if ps == [] || ps[0] !in seen {
      i := 0;
    } else {
      var j := UnseenSplit(ps[1..], seen);
      i := j + 1;
      forall l | 0 <= l < i ensures ps[l] in seen { if l > 0 { assert ps[l] == ps[1..][l - 1]; } }
    }
  }

  /** The first unseen path of the frontier comes next; if there is none, nothing is left. */
  lemma {:induction false} FrontierNext(fs: FileSystem, seen: seq<Path>, n: nat)
    requires n <= |seen| && forall p :: p in seen ==> Good(fs, p)
    requires forall l :: n <= l < |seen| ==> AllLoaded(fs, seen[l], seen)
    ensures var left := Unseen(Frontier(fs, seen[..n]), seen);
            if left == [] then forall l :: 0 <= l < |seen| ==> AllLoaded(fs, seen[l], seen)
            else exists k: nat, i: nat :: NextAt(fs, seen, k, i, left[0])
  {
    if n > 0 {
      var last := n - 1;
      assert seen[..n][..last] == seen[..last] && seen[..n][last] == seen[last];
      assert seen[last] in seen;
      var own := fs[seen[last]].imports;
      var rest := Frontier(fs, seen[..last]);
      assert Frontier(fs, seen[..n]) == own + rest;
      UnseenAppend(own, rest, seen);
      var i := UnseenSplit(own, seen);
      if i < |own| {
        assert NextAt(fs, seen, last, i, own[i]);
        assert Unseen(own + rest, seen)[0] == own[i];
      } else {
        assert AllLoaded(fs, seen[last], seen);
        assert Unseen(own + rest, seen) == Unseen(rest, seen);
        FrontierNext(fs, seen, last);
      }
    }
  }

  /** What is still to be visited is the frontier, as far as it is not seen. */
  predicate OnStack(fs: FileSystem, root: Path, todo: seq<Path>, seen: seq<Path>) {
    if seen == [] then todo == [root] else Unseen(todo, seen) == Unseen(Frontier(fs, seen), seen)
  }

  lemma {:induction false} StackNext(fs: FileSystem, root: Path, todo: seq<Path>, seen: seq<Path>)
    requires todo != [] && todo[0] !in seen && Good(fs, todo[0]) && OnStack(fs, root, todo, seen)
    ensures OnStack(fs, root, ImportsOf(fs, todo[0]) + todo[1..], seen + [todo[0]])
  {
    var p, rest := todo[0], todo[1..];
    var own, seen' := ImportsOf(fs, p), seen + [p];
    assert seen'[..|seen|] == seen;
    UnseenAppend(own, rest, seen');
    UnseenAppend(own, Frontier(fs, seen), seen');
    if seen == [] {
      assert rest == [] && Frontier(fs, seen) == [];
    } else {
      UnseenNext(todo, seen, p);
      UnseenNext(Frontier(fs, seen), seen, p);
      assert p in seen';
    }
  }

  lemma StackTop(fs: FileSystem, root: Path, todo: seq<Path>, seen: seq<Path>)
    requires todo != [] && todo[0] !in seen && OnStack(fs, root, todo, seen)
    requires forall p :: p in seen ==> Good(fs, p)
    ensures Next(fs, root, seen, todo[0])
  {
    if seen != [] {
      FrontierNext(fs, seen, |seen|);
      assert seen[..|seen|] == seen;
    }
  }

  lemma OneMore(fs: FileSystem, root: Path, seen: seq<Path>, p: Path)
    requires LoadedInOrder(fs, root, seen) && Next(fs, root, seen, p) && Good(fs, p)
    ensures LoadedInOrder(fs, root, seen + [p])
  {
    var seen' := seen + [p];
    forall n | 0 <= n < |seen'| ensures Loadable(fs, seen'[n]) && Next(fs, root, seen'[..n], seen'[n]) {
      assert seen'[..n] == seen[..n];
    }
  }

  lemma BadStops(fs: FileSystem, root: Path, seen: seq<Path>, p: Path)
    requires LoadedInOrder(fs, root, seen) && Next(fs, root, seen, p) && !Good(fs, p)
    ensures StopsAt(fs, root, seen, p, FileError(fs, p).value)
  {
  }

  /** Files are loaded in order, up to the first one that fails. */
  lemma {:induction false} WalkInOrder(fs: FileSystem, root: Path, todo: seq<Path>, seen: seq<Path>)
    requires OnStack(fs, root, todo, seen) && LoadedInOrder(fs, root, seen)
    requires forall p :: p in seen ==> Good(fs, p)
    ensures var r := Walk(fs, todo, seen);
            if r.Ok? then LoadedInOrder(fs, root, r.value)
            else exists order, p :: StopsAt(fs, root, order, p, r.error)
    decreases |fs.Keys - Elements(seen)|, |todo|
  {
    if todo == [] {
    } else if todo[0] in seen {
      WalkInOrder(fs, root, todo[1..], seen);
    } else {
      var p := todo[0];
      StackTop(fs, root, todo, seen);
      if Good(fs, p) {
        OneMore(fs, root, seen, p);
        StackNext(fs, root, todo, seen);
        FewerLeft(fs, p, seen);
        WalkInOrder(fs, root, ImportsOf(fs, p) + todo[1..], seen + [p]);
      } else {
        BadStops(fs, root, seen, p);
      }
    }
  }

  /** `parse_file`: terminates on every import graph, cyclic or not; succeeds exactly when every
      reachable file can be read and parsed, and then merges exactly the reachable files, each
      once, in depth-first order. */
  method ParseFile(root: Path, fs: FileSystem) returns (res: Result<AstSystem, LoadError>, ghost order: seq<Path>)
    ensures res.Ok? <==> forall p :: Reachable(fs, root, p) ==> Good(fs, p)
    ensures res.Ok? ==> Walk(fs, [root], []) == Ok(order) && NoDuplicates(order)
    ensures res.Ok? ==> forall p :: p in order <==> Reachable(fs, root, p)
    ensures res.Ok? ==> res.value == AstSystem(TypesOf(fs, order), ModulesOf(fs, order))
    ensures res.Ok? ==> LoadedInOrder(fs, root, order)
    ensures res.Err? ==> exists p :: Reachable(fs, root, p) && FileError(fs, p) == Some(res.error)
    ensures res.Err? ==> exists loaded, p :: StopsAt(fs, root, loaded, p, res.error)
  {
    var already := new AlreadyParsed();
    res := LoadFile(root, fs, already, []);
    order := already.paths;
    assert [root] + [] == [root];
    assert already.paths[0..] == already.paths;
    WalkFromRoot(fs, root);
    WalkInOrder(fs, root, [root], []);
  }
}
