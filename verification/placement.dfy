/** The destination of Install: filepath.Clean and a directory tree that is filled in place. */
module Placement {
  import opened Options

  /** A path below the destination directory, as its components. */
  type Path = seq<string>

  function SplitSlash(s: string): (parts: seq<string>)
    ensures parts != []
  {
    if s == [] then [""]
    else
      var rest := SplitSlash(s[1..]);
      if s[0] == '/' then [""] + rest else [[s[0]] + rest[0]] + rest[1..]
  }

  /** filepath.Clean("/" + name): empty and "." components vanish, ".." takes one back, never above the root. */
  function Resolve(parts: seq<string>, at: Path): Path
    decreases |parts|
  {
    if parts == [] then at
    else if parts[0] == "" || parts[0] == "." then Resolve(parts[1..], at)
    else if parts[0] == ".." then Resolve(parts[1..], if at == [] then [] else at[..|at| - 1])
    else Resolve(parts[1..], at + [parts[0]])
  }

  function Clean(name: string): Path {
    Resolve(SplitSlash(name), [])
  }

  predicate Plain(p: Path) {
    forall c <- p :: c != "" && c != "." && c != ".." && '/' !in c
  }

  lemma {:induction false} SplitHasNoSlash(s: string)
    ensures forall c <- SplitSlash(s) :: '/' !in c
  {
    if s != [] {
      SplitHasNoSlash(s[1..]);
      var rest := SplitSlash(s[1..]);
      assert '/' !in rest[0];
    }
  }

  lemma {:induction false} ResolvePlain(parts: seq<string>, at: Path)
    requires Plain(at) && forall c <- parts :: '/' !in c
    ensures Plain(Resolve(parts, at))
    decreases |parts|
  {
    if parts != [] {
      assert parts[0] in parts && forall c <- parts[1..] :: c in parts;
      if parts[0] == "" || parts[0] == "." {
        ResolvePlain(parts[1..], at);
      } else if parts[0] == ".." {
        ResolvePlain(parts[1..], if at == [] then [] else at[..|at| - 1]);
      } else {
        ResolvePlain(parts[1..], at + [parts[0]]);
      }
    }
  }

  /** Whatever the archive calls a file, it lands below the destination. */
  lemma CleanPlain(name: string)
    ensures Plain(Clean(name))
  {
    SplitHasNoSlash(name);
    ResolvePlain(SplitSlash(name), []);
  }

  lemma {:induction false} SplitOne(c: string)
    requires '/' !in c
    ensures SplitSlash(c) == [c]
  {
    if c != [] {
      SplitOne(c[1..]);
      assert [c[0]] + c[1..] == c;
    }
  }

  lemma SplitNext(s: string, rest: seq<string>)
    requires s != [] && rest == SplitSlash(s[1..])
    ensures SplitSlash(s) == if s[0] == '/' then [""] + rest else [[s[0]] + rest[0]] + rest[1..]
  {
  }

  lemma {:induction false} SplitLast(name: string, c: string)
    requires '/' !in c
    ensures SplitSlash(name + "/" + c) == SplitSlash(name) + [c]
  {
    var s := name + "/" + c;
    if name == [] {
      SplitOne(c);
      assert s[1..] == c;
      SplitNext(s, [c]);
    } else {
      assert s[1..] == name[1..] + "/" + c;
      SplitLast(name[1..], c);
      var rest := SplitSlash(name[1..]);
      SplitNext(s, rest + [c]);
      SplitNext(name, rest);
      assert (rest + [c])[1..] == rest[1..] + [c];
    }
  }

  lemma {:induction false} ResolveInTurn(p: seq<string>, q: seq<string>, at: Path)
    ensures Resolve(p + q, at) == Resolve(q, Resolve(p, at))
    decreases |p|
  {
    if p == [] {
      assert p + q == q;
    } else {
      assert (p + q)[1..] == p[1..] + q;
      if p[0] == "" || p[0] == "." {
        ResolveInTurn(p[1..], q, at);
      } else if p[0] == ".." {
        ResolveInTurn(p[1..], q, if at == [] then [] else at[..|at| - 1]);
      } else {
        ResolveInTurn(p[1..], q, at + [p[0]]);
      }
    }
  }

  /** A name without a slash lands directly below the destination, or on it. */
  lemma CleanOne(c: string)
    requires '/' !in c
    ensures Clean(c) == if c == "" || c == "." || c == ".." then [] else [c]
  {
    SplitOne(c);
    var parts := [c];
    assert parts[1..] == [] && [] + [c] == [c];
    assert Clean(c) == Resolve(parts, []);
  }

  /** What one more component does: nothing, one step back but never above the destination, or one step down. */
  lemma CleanStep(name: string, c: string)
    requires '/' !in c
    ensures Clean(name + "/" + c) ==
      if c == "" || c == "." then Clean(name)
      else if c != ".." then Clean(name) + [c]
      else if Clean(name) == [] then [] else Clean(name)[..|Clean(name)| - 1]
  {
    SplitLast(name, c);
    assert [c][1..] == [];
    ResolveInTurn(SplitSlash(name), [c], []);
  }

  /** A path printed with a slash before every component. */
  function Joined(p: Path): string {
    if p == [] then "" else "/" + p[0] + Joined(p[1..])
  }

  lemma {:induction false} SplitJoined(c: string, p: Path)
    requires '/' !in c && Plain(p)
    ensures SplitSlash(c + Joined(p)) == [c] + p
    decreases |p|, |c|
  {
    var s := c + Joined(p);
    if c != [] {
      SplitJoined(c[1..], p);
      assert s[1..] == c[1..] + Joined(p) && s[0] == c[0];
      var rest := [c[1..]] + p;
      assert SplitSlash(s) == [[c[0]] + rest[0]] + rest[1..];
      assert [c[0]] + c[1..] == c && rest[1..] == p;
    } else if p != [] {
      SplitJoined(p[0], p[1..]);
      assert s[1..] == p[0] + Joined(p[1..]);
      assert [p[0]] + p[1..] == p;
    } else {
      assert s == [];
    }
  }

  lemma {:induction false} ResolveAppends(p: Path, at: Path)
    requires Plain(p)
    ensures Resolve(p, at) == at + p
    decreases |p|
  {
    if p == [] {
      assert at + p == at;
    } else {
      assert p[0] in p;
      ResolveAppends(p[1..], at + [p[0]]);
      assert at + [p[0]] + p[1..] == at + p;
    }
  }

  /** Cleaning the printed form of a clean path gives the path back. */
  lemma CleanIdempotent(name: string)
    ensures Clean(Joined(Clean(name))) == Clean(name)
  {
    var p := Clean(name);
    CleanPlain(name);
    SplitJoined("", p);
    assert "" + Joined(p) == Joined(p);
    assert ([""] + p)[1..] == p;
    ResolveAppends(p, []);
  }

  // ---------------------------------------------------------------- the tree

  datatype File = File(content: string, mode: nat)

  /** Everything below destDir; the root of the tree is destDir itself, the path []. */
  class Tree {
    var files: map<Path, File>
    var dirs: set<Path>

    constructor ()
      ensures files == map[] && dirs == {[]}
    {
      files, dirs := map[], {[]};
    }

    /** os.MkdirAll of the parent of p: fails when a file stands in the way. */
    method MkdirParents(p: Path) returns (ok: bool)
      modifies this`dirs
      ensures ok <==> forall f <- files :: !(f < p)
      ensures dirs == if ok then old(dirs) + Above(p) else old(dirs)
    {
      ok := forall f | f in files :: !(f < p);
      if ok {
        dirs := dirs + Above(p);
      }
    }

    /** os.WriteFile and os.Chmod: fails on a directory. */
    method Write(p: Path, content: string, mode: nat) returns (ok: bool)
      modifies this`files
      ensures ok <==> p !in dirs
      ensures files == if ok then old(files)[p := File(content, mode)] else old(files)
    {
      ok := p !in dirs;
      if ok {
        files := files[p := File(content, mode)];
      }
    }
  }

  /** The proper prefixes of p. */
  function Above(p: Path): (s: set<Path>)
    ensures forall d :: d in s <==> d < p
  {
    var s := set i | 0 <= i < |p| :: p[..i];
    assert forall d :: d < p ==> d == p[..|d|];
    s
  }

  // ---------------------------------------------------------------- placing many files

  predicate Lands(n: string, p: Path) {
    Clean(n) == p
  }

  /** No name lands on or below a file, on a directory, or on the way to another name. */
  ghost predicate Placeable(names: set<string>, files: map<Path, File>, dirs: set<Path>) {
    && (forall n <- names :: Clean(n) !in dirs && forall f <- files :: !(f < Clean(n)))
    && (forall n, k :: n in names && k in names ==> !(Clean(n) < Clean(k)))
  }

  /** `after` at p is what some name wanted there, or what was there before. */
  ghost predicate FilledAt(want: map<string, File>, names: set<string>, before: map<Path, File>,
                           after: map<Path, File>, p: Path)
    requires names <= want.Keys
  {
    if exists n :: n in names && Lands(n, p) then
      p in after && exists n :: n in names && Lands(n, p) && after[p] == want[n]
    else
      (p in after <==> p in before) && (p in before ==> after[p] == before[p])
  }

  ghost predicate Filled(want: map<string, File>, names: set<string>, before: map<Path, File>, after: map<Path, File>)
    requires names <= want.Keys
  {
    forall p :: FilledAt(want, names, before, after, p)
  }

  predicate Leads(d: Path, n: string) {
    d < Clean(n)
  }

  ghost predicate DirsGrown(names: set<string>, before: set<Path>, after: set<Path>) {
    forall d :: d in after <==> d in before || exists n :: n in names && Leads(d, n)
  }

  lemma FilledGrows(want: map<string, File>, names: set<string>, before: map<Path, File>, mid: map<Path, File>,
                    n: string)
    requires names <= want.Keys && n in want && Filled(want, names, before, mid)
    ensures Filled(want, names + {n}, before, mid[Clean(n) := want[n]])
  {
    var after := mid[Clean(n) := want[n]];
    forall p ensures FilledAt(want, names + {n}, before, after, p) {
      assert FilledAt(want, names, before, mid, p);
      if p == Clean(n) {
        assert Lands(n, p);
      } else if exists k :: k in names && Lands(k, p) {
        var k :| k in names && Lands(k, p) && mid[p] == want[k];
        assert k in names + {n};
      }
    }
  }

  lemma DirsGrow(names: set<string>, before: set<Path>, mid: set<Path>, n: string)
    requires DirsGrown(names, before, mid)
    ensures DirsGrown(names + {n}, before, mid + Above(Clean(n)))
  {
  }

  /** The next name fits exactly when neither MkdirAll nor WriteFile is stopped. */
  lemma PlaceableGrows(names: set<string>, want: map<string, File>, files: map<Path, File>, dirs: set<Path>,
                       files': map<Path, File>, dirs': set<Path>, n: string)
    requires names <= want.Keys && Placeable(names, files, dirs) && Filled(want, names, files, files')
    requires DirsGrown(names, dirs, dirs')
    ensures Placeable(names + {n}, files, dirs) <==> (forall f <- files' :: !(f < Clean(n))) && Clean(n) !in dirs'
  {
    var p := Clean(n);
    if Placeable(names + {n}, files, dirs) {
      forall f <- files' ensures !(f < p) {
        assert FilledAt(want, names, files, files', f);
        if exists k :: k in names && Lands(k, f) {
          var k :| k in names && Lands(k, f);
          assert k in names + {n} && n in names + {n};
        }
      }
      forall k <- names ensures !Leads(p, k) {
        assert k in names + {n} && n in names + {n};
      }
    }
    if (forall f <- files' :: !(f < p)) && p !in dirs' {
      forall f <- files ensures !(f < p) {
        assert FilledAt(want, names, files, files', f);
      }
      forall k <- names ensures !(Clean(k) < p) && !(p < Clean(k)) {
        assert FilledAt(want, names, files, files', Clean(k)) && Lands(k, Clean(k));
        assert Leads(p, k) ==> p in dirs';
      }
    }
  }

  /** Names that land on different paths: an empty directory ends up with exactly the wanted files. */
  lemma FilledExactly(want: map<string, File>, after: map<Path, File>)
    requires Filled(want, want.Keys, map[], after)
    requires forall n, k :: n in want && k in want && Clean(n) == Clean(k) ==> n == k
    ensures forall p :: p in after <==> exists n :: n in want && Lands(n, p)
    ensures forall n <- want :: Clean(n) in after && after[Clean(n)] == want[n]
  {
    forall p ensures p in after <==> exists n :: n in want && Lands(n, p) {
      assert FilledAt(want, want.Keys, map[], after, p);
    }
    forall n <- want ensures Clean(n) in after && after[Clean(n)] == want[n] {
      assert FilledAt(want, want.Keys, map[], after, Clean(n)) && Lands(n, Clean(n));
    }
  }

  predicate HoldsAt(files: map<Path, File>, p: Path, f: File) {
    p in files && files[p] == f
  }

  ghost function Winner(want: map<string, File>, n: string, p: Path): string
    requires exists x :: x in want && Lands(x, p)
  {
    if Lands(n, p) then n else var k :| k in want && Lands(k, p); k
  }

  /** In some order of the entries the name n is placed last. */
  lemma FilledWith(want: map<string, File>, before: map<Path, File>, n: string) returns (after: map<Path, File>)
    requires n in want
    ensures Filled(want, want.Keys, before, after) && HoldsAt(after, Clean(n), want[n])
  {
    var paths := set x <- want :: Clean(x);
    forall p | p in paths ensures exists x :: x in want && Lands(x, p) {
      var x :| x in want && Clean(x) == p;
      assert Lands(x, p);
    }
    after := before + map p | p in paths :: want[Winner(want, n, p)];
    forall p ensures FilledAt(want, want.Keys, before, after, p) {
      if exists x :: x in want && Lands(x, p) {
        var x :| x in want && Lands(x, p);
        assert p in paths && Lands(Winner(want, n, p), p);
      }
    }
  }

  /**
   What lies at the path of a name once all are placed: in every order what that name
   wants, exactly when all names that land there want the same.
   */
  lemma HeldIff(want: map<string, File>, before: map<Path, File>, n: string)
    requires n in want
    ensures (forall after :: Filled(want, want.Keys, before, after) ==> HoldsAt(after, Clean(n), want[n])) <==>
      forall k <- want :: Lands(k, Clean(n)) ==> want[k] == want[n]
  {
    if forall k <- want :: Lands(k, Clean(n)) ==> want[k] == want[n] {
      forall after | Filled(want, want.Keys, before, after) ensures HoldsAt(after, Clean(n), want[n]) {
        assert FilledAt(want, want.Keys, before, after, Clean(n)) && Lands(n, Clean(n));
      }
    } else {
      var k :| k in want && Lands(k, Clean(n)) && want[k] != want[n];
      var after := FilledWith(want, before, k);
      assert !HoldsAt(after, Clean(n), want[n]);
    }
  }

  /** A further name on a path that is taken fits as well as the first. */
  lemma SamePathFits(names: set<string>, n: string, added: string, files: map<Path, File>, dirs: set<Path>)
    requires n in names && Clean(added) == Clean(n)
    ensures Placeable(names + {added}, files, dirs) <==> Placeable(names, files, dirs)
  {
  }

  /** Two names, one path. */
  lemma DotSlashSame(name: string)
    ensures Clean("./" + name) == Clean(name)
  {
    var s := "./" + name;
    assert s[1..] == "/" + name && ("/" + name)[1..] == name;
    assert SplitSlash("/" + name) == [""] + SplitSlash(name);
    assert SplitSlash(s) == [['.'] + ""] + SplitSlash(name) && ['.'] + "" == ".";
    assert ([['.'] + ""] + SplitSlash(name))[1..] == SplitSlash(name);
  }

  lemma PlaceableShrinks(names: set<string>, more: set<string>, files: map<Path, File>, dirs: set<Path>)
    requires names <= more && Placeable(more, files, dirs)
    ensures Placeable(names, files, dirs)
  {
  }

  /**
   The loop of Install, over the entries in any order. It stops at the first name that does
   not fit beside those placed before it, which stay.
   */
  method PlaceAll(want: map<string, File>, dest: Tree) returns (stopped: Option<string>, ghost placed: set<string>)
    modifies dest
    ensures stopped.None? <==> Placeable(want.Keys, old(dest.files), old(dest.dirs))
    ensures placed <= want.Keys && Placeable(placed, old(dest.files), old(dest.dirs))
    ensures Filled(want, placed, old(dest.files), dest.files)
    ensures stopped.None? ==> placed == want.Keys && DirsGrown(placed, old(dest.dirs), dest.dirs)
    ensures stopped.Some? ==> stopped.value in want && stopped.value !in placed
    ensures stopped.Some? ==> !Placeable(placed + {stopped.value}, old(dest.files), old(dest.dirs))
    ensures stopped.Some? ==>
      DirsGrown(placed, old(dest.dirs), dest.dirs) || DirsGrown(placed + {stopped.value}, old(dest.dirs), dest.dirs)
  {
    var rest := want.Keys;
    placed := {};
    ghost var files0, dirs0 := dest.files, dest.dirs;
    while rest != {}
      invariant placed == want.Keys - rest && rest <= want.Keys
      invariant Placeable(placed, files0, dirs0)
      invariant Filled(want, placed, files0, dest.files)
      invariant DirsGrown(placed, dirs0, dest.dirs)
      decreases rest
    {
      var n :| n in rest;
      PlaceableGrows(placed, want, files0, dirs0, dest.files, dest.dirs, n);
      FilledGrows(want, placed, files0, dest.files, n);
      DirsGrow(placed, dirs0, dest.dirs, n);
      var ok := dest.MkdirParents(Clean(n));
      if ok {
        ok := dest.Write(Clean(n), want[n].content, want[n].mode);
      }
      if !ok {
        assert !Placeable(want.Keys, files0, dirs0) by {
          if Placeable(want.Keys, files0, dirs0) { PlaceableShrinks(placed + {n}, want.Keys, files0, dirs0); }
        }
        return Some(n), placed;
      }
      rest, placed := rest - {n}, placed + {n};
    }
    assert placed == want.Keys;
    stopped := None;
  }
}
