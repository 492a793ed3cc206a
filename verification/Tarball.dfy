/**
  The project archive: what the client packs of a directory tree, where the server puts each entry,
  and that extracting a packed tree gives exactly the files a flat filter keeps.
*/
module Tarball {
  import opened Common
  import opened GoStrings
  import opened PathClean

  type Bytes = seq<bv8>

  /** A directory listing: its files and sub-directories in the order of the walk. */
  datatype Listing =
    | End
    | File(name: string, content: Bytes, rest: Listing)
    | Dir(name: string, sub: Listing, rest: Listing)

  datatype Entry = Entry(name: string, isDir: bool, content: Bytes)

  /** What is on disk: files with their contents, and directories that were made, by path elements. */
  datatype Disk = Disk(files: map<Path, Bytes>, dirs: set<Path>)

  // ----- packing

  const SKIP_DIRS := {".git", "node_modules", "__pycache__", ".venv", "venv", "dist", "build", ".next", ".nuxt",
                      "coverage", ".turbo"}

  /** The gitignore test on a relative path and its base name; glob matching is left to it. */
  type Ignore = (string, string) -> bool

  predicate Dropped(base: string) {
    base == ".DS_Store" || HasSuffix(base, ".pyc")
  }

  /** The walk does not enter this directory. */
  predicate Pruned(ignored: Ignore, path: Path)
    requires path != []
  {
    var base := path[|path| - 1];
    !Dropped(base) && (base in SKIP_DIRS || ignored(Join(path, '/'), base))
  }

  /** The archive entries of a listing at relative path `rel`. */
  function Walk(ignored: Ignore, rel: Path, l: Listing): seq<Entry>
    decreases l
  {
    match l
    case End => []
    case File(name, content, rest) =>
      (if Dropped(name) then [] else [Entry(Join(rel + [name], '/'), false, content)]) + Walk(ignored, rel, rest)
    case Dir(name, sub, rest) =>
      (if Pruned(ignored, rel + [name]) then [] else Walk(ignored, rel + [name], sub)) + Walk(ignored, rel, rest)
  }

  /** createTarball's walk, appending to the archive as it goes. */
  class Packer {
    var archive: seq<Entry>
    const ignored: Ignore

    constructor (ignored: Ignore)
      ensures archive == [] && this.ignored == ignored
    {
      this.ignored, archive := ignored, [];
    }

    method Visit(rel: Path, l: Listing)
      modifies this
      ensures archive == old(archive) + Walk(ignored, rel, l)
      decreases l
    {
      match l {
        case End =>
        case File(name, content, rest) =>
          if !(name == ".DS_Store" || HasSuffix(name, ".pyc")) {
            archive := archive + [Entry(Join(rel + [name], '/'), false, content)];
          }
          Visit(rel, rest);
        case Dir(name, sub, rest) =>
          var path := rel + [name];
          var enter := true;
          if !(name == ".DS_Store" || HasSuffix(name, ".pyc")) {
            if name in SKIP_DIRS || ignored(Join(path, '/'), name) {
              enter := false;
            }
          }
          if enter {
            Visit(path, sub);
          }
          Visit(rel, rest);
      }
    }
  }

  // ----- the flat filter

  /** The content of the file at a path below a listing. */
  function FileAt(l: Listing, p: Path): Option<Bytes> {
    match l
    case End => None
    case File(name, content, rest) => if p == [name] then Some(content) else FileAt(rest, p)
    case Dir(name, sub, rest) => if |p| > 1 && p[0] == name then FileAt(sub, p[1..]) else FileAt(rest, p)
  }

  /** Said of the path alone: its base is not dropped and no directory above it is pruned. */
  ghost predicate Kept(ignored: Ignore, rel: Path, p: Path) {
    && p != [] && !Dropped(p[|p| - 1])
    && forall i :: 1 <= i < |p| ==> !Pruned(ignored, rel + p[..i])
  }

  function Names(l: Listing): set<string> {
    match l
    case End => {}
    case File(name, _, rest) => {name} + Names(rest)
    case Dir(name, _, rest) => {name} + Names(rest)
  }

  /** Names are single path elements, and differ within a directory. */
  predicate WellFormed(l: Listing) {
    match l
    case End => true
    case File(name, _, rest) => Ordinary(name) && name !in Names(rest) && WellFormed(rest)
    case Dir(name, sub, rest) => Ordinary(name) && name !in Names(rest) && WellFormed(sub) && WellFormed(rest)
  }

  lemma {:induction false} FileAtName(l: Listing, p: Path)
    requires WellFormed(l) && FileAt(l, p).Some?
    ensures p != [] && p[0] in Names(l) && forall e :: e in p ==> Ordinary(e)
  {
    match l
    case File(name, _, rest) => if p != [name] { FileAtName(rest, p); }
    case Dir(name, sub, rest) =>
      if |p| > 1 && p[0] == name {
        FileAtName(sub, p[1..]);
        assert p == [p[0]] + p[1..];
      } else {
        FileAtName(rest, p);
      }
  }

  /** A file has nothing below it. */
  lemma {:induction false} FilesAreLeaves(l: Listing, p: Path, q: Path)
    requires WellFormed(l) && FileAt(l, p).Some? && FileAt(l, q).Some? && p <= q
    ensures p == q
  {
    FileAtName(l, p);
    FileAtName(l, q);
    assert p[0] == q[0];
    match l
    case File(name, _, rest) =>
      if p[0] == name {
        if p != [name] { FileAtName(rest, p); }
        if q != [name] { FileAtName(rest, q); }
      } else {
        FilesAreLeaves(rest, p, q);
      }
    case Dir(name, sub, rest) =>
      if p[0] == name {
        if |p| == 1 { FileAtName(rest, p); }
        if |q| == 1 { FileAtName(rest, q); }
        FilesAreLeaves(sub, p[1..], q[1..]);
        assert p == [p[0]] + p[1..] && q == [q[0]] + q[1..];
      } else {
        FilesAreLeaves(rest, p, q);
      }
  }

  /** An entry of the archive is a file of the tree that the filter keeps. */
  ghost predicate Packs(ignored: Ignore, rel: Path, l: Listing, p: Path, e: Entry) {
    Kept(ignored, rel, p) && FileAt(l, p) == Some(e.content) && e == Entry(Join(rel + p, '/'), false, e.content)
  }

  lemma KeptBelow(ignored: Ignore, rel: Path, name: string, p: Path)
    requires p != []
    ensures Kept(ignored, rel, [name] + p) <==> !Pruned(ignored, rel + [name]) && Kept(ignored, rel + [name], p)
  {
    var q := [name] + p;
    assert q[|q| - 1] == p[|p| - 1];
    assert forall i :: 1 <= i <= |p| ==> rel + q[..i] == (rel + [name]) + p[..i - 1];
    assert (rel + [name]) + p[..0] == rel + [name];
    if Kept(ignored, rel, q) {
      assert !Pruned(ignored, rel + q[..1]);
      forall i | 1 <= i < |p|
        ensures !Pruned(ignored, (rel + [name]) + p[..i])
      {
        assert !Pruned(ignored, rel + q[..i + 1]);
      }
    }
  }

  lemma WalksFile(ignored: Ignore, rel: Path, l: Listing, e: Entry)
    requires l.File? && WellFormed(l) && e in Walk(ignored, rel, l)
    requires e in Walk(ignored, rel, l.rest) ==> exists p :: Packs(ignored, rel, l.rest, p, e)
    ensures exists p :: Packs(ignored, rel, l, p, e)
  {
    if e in Walk(ignored, rel, l.rest) {
      var p :| Packs(ignored, rel, l.rest, p, e);
      FileAtName(l.rest, p);
      assert Packs(ignored, rel, l, p, e);
    } else {
      assert Packs(ignored, rel, l, [l.name], e);
    }
  }

  lemma PacksBelow(ignored: Ignore, rel: Path, l: Listing, p: Path, e: Entry)
    requires l.Dir? && !Pruned(ignored, rel + [l.name]) && Packs(ignored, rel + [l.name], l.sub, p, e) && p != []
    ensures Packs(ignored, rel, l, [l.name] + p, e)
  {
    KeptBelow(ignored, rel, l.name, p);
    hide Kept, Pruned;
    assert rel + ([l.name] + p) == (rel + [l.name]) + p && ([l.name] + p)[1..] == p;
  }

  lemma WalksDir(ignored: Ignore, rel: Path, l: Listing, e: Entry)
    requires l.Dir? && WellFormed(l) && e in Walk(ignored, rel, l)
    requires e in Walk(ignored, rel, l.rest) ==> exists p :: Packs(ignored, rel, l.rest, p, e)
    requires e in Walk(ignored, rel + [l.name], l.sub) ==> exists p :: Packs(ignored, rel + [l.name], l.sub, p, e)
    ensures exists p :: Packs(ignored, rel, l, p, e)
  {
    if e in Walk(ignored, rel, l.rest) {
      var p :| Packs(ignored, rel, l.rest, p, e);
      FileAtName(l.rest, p);
      assert Packs(ignored, rel, l, p, e);
    } else {
      var p :| Packs(ignored, rel + [l.name], l.sub, p, e);
      PacksBelow(ignored, rel, l, p, e);
    }
  }

  /** A file is packed by the walk of the directory's contents, or by that of the rest of the listing. */
  lemma KeptInDir(ignored: Ignore, rel: Path, l: Listing, p: Path)
    requires l.Dir? && FileAt(l, p).Some? && Kept(ignored, rel, p)
    requires var inside := |p| > 1 && p[0] == l.name;
             if inside
             then Kept(ignored, rel + [l.name], p[1..]) ==>
                    Entry(Join(rel + [l.name] + p[1..], '/'), false, FileAt(l, p).value) in Walk(ignored, rel + [l.name], l.sub)
             else Entry(Join(rel + p, '/'), false, FileAt(l, p).value) in Walk(ignored, rel, l.rest)
    ensures Entry(Join(rel + p, '/'), false, FileAt(l, p).value) in Walk(ignored, rel, l)
  {
    hide Kept, Pruned, Join;
    if |p| > 1 && p[0] == l.name {
      assert p == [l.name] + p[1..];
      KeptBelow(ignored, rel, l.name, p[1..]);
      assert rel + p == rel + [l.name] + p[1..];
    }
  }

  /** The walk packs the kept files, all of them and nothing else. */
  lemma {:induction false} WalkPacksKept(ignored: Ignore, rel: Path, l: Listing)
    requires WellFormed(l)
    ensures forall e :: e in Walk(ignored, rel, l) ==> exists p :: Packs(ignored, rel, l, p, e)
    ensures forall p :: FileAt(l, p).Some? && Kept(ignored, rel, p) ==>
              Entry(Join(rel + p, '/'), false, FileAt(l, p).value) in Walk(ignored, rel, l)
    decreases l
  {
    match l
    case End =>
    case File(name, content, rest) =>
      WalkPacksKept(ignored, rel, rest);
      forall e | e in Walk(ignored, rel, l)
        ensures exists p :: Packs(ignored, rel, l, p, e)
      {
        WalksFile(ignored, rel, l, e);
      }
    case Dir(name, sub, rest) =>
      WalkPacksKept(ignored, rel, rest);
      WalkPacksKept(ignored, rel + [name], sub);
      forall e | e in Walk(ignored, rel, l)
        ensures exists p :: Packs(ignored, rel, l, p, e)
      {
        WalksDir(ignored, rel, l, e);
      }
      forall p | FileAt(l, p).Some? && Kept(ignored, rel, p)
        ensures Entry(Join(rel + p, '/'), false, FileAt(l, p).value) in Walk(ignored, rel, l)
      {
        KeptInDir(ignored, rel, l, p);
      }
  }

  /** The directories that are not entered, whatever the ignore file says; the others are as it says. */
  lemma PrunedExactly(ignored: Ignore, path: Path)
    requires path != []
    ensures var base := path[|path| - 1];
            Pruned(ignored, path) <==>
              && !(base == ".DS_Store" || (|base| >= 4 && base[|base| - 4..] == ".pyc"))
              && (base == ".git" || base == "node_modules" || base == "__pycache__" || base == ".venv" ||
                  base == "venv" || base == "dist" || base == "build" || base == ".next" || base == ".nuxt" ||
                  base == "coverage" || base == ".turbo" || ignored(Join(path, '/'), base))
  {
  }

  lemma NamesApart(rel: Path, p: Path, q: Path)
    requires (forall e :: e in rel || e in p || e in q ==> Ordinary(e)) && p != [] && q != [] && p[0] != q[0]
    ensures Join(rel + p, '/') != Join(rel + q, '/')
  {
    hide Join, Split;
    SplitJoin(rel + p, '/');
    SplitJoin(rel + q, '/');
    assert (rel + p)[|rel|] == p[0] && (rel + q)[|rel|] == q[0];
  }

  /** An entry of the walk of a listing is not one of the walk of a directory beside it, or of a file beside it. */
  lemma EntryApart(ignored: Ignore, rel: Path, rest: Listing, name: string, q: Path, e: Entry)
    requires WellFormed(rest) && (forall x :: x in rel ==> Ordinary(x)) && name !in Names(rest)
    requires q != [] && q[0] == name && (forall x :: x in q ==> Ordinary(x)) && e in Walk(ignored, rel, rest)
    ensures e.name != Join(rel + q, '/')
  {
    hide Join, Walk, WellFormed, Ordinary, Kept;
    WalkPacksKept(ignored, rel, rest);
    var p :| Packs(ignored, rel, rest, p, e);
    FileAtName(rest, p);
    NamesApart(rel, p, q);
  }

  predicate Once(entries: seq<Entry>) {
    forall i, j :: 0 <= i < j < |entries| ==> entries[i].name != entries[j].name
  }

  /** Every packed file is in the archive once. */
  lemma {:induction false} WalkOnce(ignored: Ignore, rel: Path, l: Listing)
    requires WellFormed(l) && forall x :: x in rel ==> Ordinary(x)
    ensures Once(Walk(ignored, rel, l))
    decreases l
  {
    match l
    case End =>
    case File(name, content, rest) =>
      WalkOnce(ignored, rel, rest);
      forall e | e in Walk(ignored, rel, rest)
        ensures e.name != Join(rel + [name], '/')
      {
        EntryApart(ignored, rel, rest, name, [name], e);
      }
    case Dir(name, sub, rest) =>
      WalkOnce(ignored, rel, rest);
      WalkOnce(ignored, rel + [name], sub);
      var inside, beside := Walk(ignored, rel + [name], sub), Walk(ignored, rel, rest);
      forall d, e | d in inside && e in beside
        ensures d.name != e.name
      {
        DirApart(ignored, rel, l, d, e);
      }
      OnceTogether(inside, beside);
  }

  lemma OnceTogether(a: seq<Entry>, b: seq<Entry>)
    requires Once(a) && Once(b) && forall d, e :: d in a && e in b ==> d.name != e.name
    ensures Once(a + b)
  {
    assert forall i :: 0 <= i < |a| ==> a[i] in a;
    assert forall i :: 0 <= i < |b| ==> b[i] in b;
  }

  lemma DirApart(ignored: Ignore, rel: Path, l: Listing, d: Entry, e: Entry)
    requires l.Dir? && WellFormed(l) && forall x :: x in rel ==> Ordinary(x)
    requires d in Walk(ignored, rel + [l.name], l.sub) && e in Walk(ignored, rel, l.rest)
    ensures d.name != e.name
  {
    hide Join, Walk, Ordinary, Kept;
    WalkPacksKept(ignored, rel + [l.name], l.sub);
    var p :| Packs(ignored, rel + [l.name], l.sub, p, d);
    FileAtName(l.sub, p);
    assert rel + [l.name] + p == rel + ([l.name] + p);
    EntryApart(ignored, rel, l.rest, l.name, [l.name] + p, e);
  }

  // ----- placing

  /** Where an entry goes: nothing when it is skipped. */
  function Target(dir: string, name: string): Option<string> {
    var clean := Clean(name);
    if HasPrefix(clean, "/") || HasPrefix(clean, "..") then None
    else
      var target := JoinPath(dir, clean);
      if HasPrefix(target, Clean(dir) + "/") then Some(target) else None
  }

  /** A name that stays below the directory: relative, naming something, its first element not starting with two dots. */
  predicate Inside(name: string) {
    !Rooted(name) && Elements(name) != [] && !HasPrefix(Elements(name)[0], "..")
  }

  lemma InsideOrdinary(name: string)
    requires Inside(name)
    ensures forall e :: e in Elements(name) ==> Ordinary(e)
  {
    ElementsNormal(name);
    var es := Elements(name);
    forall i | 0 <= i < |es|
      ensures Ordinary(es[i])
    {
      assert es[0] != "..";
    }
  }

  lemma PrefixOfJoin(es: Path)
    requires es != [] && forall e :: e in es ==> e != "" && '/' !in e
    ensures HasPrefix(Join(es, '/'), "..") <==> HasPrefix(es[0], "..")
    ensures !HasPrefix(Join(es, '/'), "/") && Join(es, '/') != ""
  {
    var s := Join(es, '/');
    assert es[0] in es;
    FirstChar(es);
    assert forall i :: 0 <= i < |es[0]| ==> s[i] == es[0][i];
    assert |es[0]| == 1 ==> |s| == 1 || s[1] == '/';
  }

  lemma JoinAppend(a: Path, b: Path)
    requires a != [] && b != []
    ensures Join(a + b, '/') == Join(a, '/') + "/" + Join(b, '/')
  {
    if |a| == 1 {
      assert (a + b)[1..] == b;
    } else {
      assert (a + b)[1..] == a[1..] + b;
      JoinAppend(a[1..], b);
    }
  }

  /** Cleaning a path followed by ordinary elements appends them. */
  lemma ElementsBelow(dir: string, name: string, es: Path)
    requires dir != "" && forall e :: e in es ==> Ordinary(e)
    requires Split(name, '/') == if es == [] then ["."] else es
    ensures Elements(dir + "/" + name) == Elements(dir) + es && Rooted(dir + "/" + name) == Rooted(dir)
  {
    hide Split, Reduce, Normal, Ordinary;
    JoinedSplit(dir, name);
    ReduceAppend(Rooted(dir), Split(dir, '/'), Split(name, '/'), []);
    var d := Elements(dir);
    if es == [] {
      ReduceDot(Rooted(dir), d);
      assert d + es == d;
    } else {
      ElementsNormal(dir);
      NormalAppend(Rooted(dir), d, es);
      ReduceAppends(Rooted(dir), es, d);
    }
  }

  lemma JoinedSplit(dir: string, name: string)
    requires dir != ""
    ensures Rooted(dir + "/" + name) == Rooted(dir)
    ensures Split(dir + "/" + name, '/') == Split(dir, '/') + Split(name, '/')
  {
    hide Split;
    assert dir + "/" + name == dir + (['/'] + name);
    SplitConcat(dir, name, '/');
  }

  lemma ReduceDot(rooted: bool, d: Path)
    ensures Reduce(rooted, ["."], d) == d
  {
    assert ["."][1..] == [];
  }

  lemma JoinedElements(dir: string, es: Path)
    requires dir != "" && forall e :: e in es ==> Ordinary(e)
    ensures JoinPath(dir, Render(false, es)) == Render(Rooted(dir), Elements(dir) + es)
  {
    if es != [] {
      SplitJoin(es, '/');
      PrefixOfJoin(es);
    } else {
      assert Split(".", '/') == ["."];
    }
    ElementsBelow(dir, Render(false, es), es);
  }

  /** Only below a directory with a name of its own can the prefix test be passed; there it rejects `.` alone. */
  lemma PrefixTest(rooted: bool, d: Path, es: Path)
    requires Normal(rooted, d) && forall e :: e in es ==> Ordinary(e)
    ensures HasPrefix(Render(rooted, d + es), Render(rooted, d) + "/") <==> d != [] && es != []
    ensures d != [] && es != [] ==> Render(rooted, d + es) == Render(rooted, d) + "/" + Join(es, '/')
  {
    hide Normal, Join, Ordinary;
    var full, base := Render(rooted, d + es), Render(rooted, d) + "/";
    if es == [] {
      assert d + es == d;
      assert |full| < |base|;
    } else if d == [] {
      assert d + es == es;
      EmptyDirectory(rooted, es);
    } else {
      JoinAppend(d, es);
    }
  }

  lemma EmptyDirectory(rooted: bool, es: Path)
    requires es != [] && forall e :: e in es ==> Ordinary(e)
    ensures !HasPrefix(Render(rooted, es), Render(rooted, []) + "/")
  {
    assert Join([], '/') == "";
    hide Join;
    PrefixOfJoin(es);
    DotSlash(es);
    assert rooted ==> Render(rooted, []) + "/" == "//";
    var j := Join(es, '/');
    if rooted {
      assert Render(rooted, es)[1] == j[0];
    }
  }

  lemma DotSlash(es: Path)
    requires es != [] && forall e :: e in es ==> Ordinary(e)
    ensures !HasPrefix(Join(es, '/'), "./")
  {
    var s, e := Join(es, '/'), es[0];
    assert e in es;
    assert forall i :: 0 <= i < |e| ==> s[i] == e[i];
    if |e| == 1 {
      assert e == [e[0]];
    } else {
      assert s[1] == e[1] && e[1] in e;
    }
  }

  lemma TargetSkipped(dir: string, name: string)
    requires Rooted(name) || (Elements(name) != [] && HasPrefix(Elements(name)[0], ".."))
    ensures Target(dir, name) == None
  {
    hide Clean, JoinPath, Elements, Rooted;
    CleanPrefix(name);
  }

  lemma CleanPrefix(name: string)
    ensures Rooted(name) ==> HasPrefix(Clean(name), "/")
    ensures !Rooted(name) && Elements(name) != [] && HasPrefix(Elements(name)[0], "..") ==> HasPrefix(Clean(name), "..")
  {
    hide Elements, Join;
    ElementsNormal(name);
    if !Rooted(name) && Elements(name) != [] {
      PrefixOfJoin(Elements(name));
    }
  }

  lemma TargetPlaced(dir: string, name: string)
    requires dir != "" && !Rooted(name) && (Elements(name) == [] || !HasPrefix(Elements(name)[0], ".."))
    ensures var d, es := Elements(dir), Elements(name);
            if d != [] && es != [] then
              Target(dir, name) == Some(Clean(dir) + "/" + Join(es, '/')) && Elements(Target(dir, name).value) == d + es
            else Target(dir, name) == None
  {
    var es, d := Elements(name), Elements(dir);
    ElementsNormal(name);
    ElementsNormal(dir);
    if es != [] {
      InsideOrdinary(name);
      PrefixOfJoin(es);
    }
    JoinedElements(dir, es);
    PrefixTest(Rooted(dir), d, es);
    NormalAppend(Rooted(dir), d, es);
    ElementsRender(Rooted(dir), d + es);
    assert Clean(name) == Render(false, es) && Clean(dir) == Render(Rooted(dir), d);
    hide Elements, Join, JoinPath, Normal, Clean, Ordinary, Rooted, HasPrefix;
  }

  /**
    For every entry name the target is strictly below the directory, or the entry is skipped: it is
    placed exactly when the name stays inside and the directory has a name of its own.
  */
  lemma TargetBelow(dir: string, name: string)
    requires dir != ""
    ensures Target(dir, name).Some? <==> Inside(name) && Elements(dir) != []
    ensures Target(dir, name).Some? ==>
              Target(dir, name).value == Clean(dir) + "/" + Join(Elements(name), '/') &&
              Elements(Target(dir, name).value) == Elements(dir) + Elements(name) &&
              Elements(dir) < Elements(Target(dir, name).value)
  {
    hide Target, Elements, Clean, Join, Rooted, HasPrefix;
    if Rooted(name) || (Elements(name) != [] && HasPrefix(Elements(name)[0], "..")) {
      TargetSkipped(dir, name);
    } else {
      TargetPlaced(dir, name);
    }
  }

  lemma NormalAppend(rooted: bool, d: Path, es: Path)
    requires Normal(rooted, d) && forall e :: e in es ==> Ordinary(e)
    ensures Normal(rooted, d + es)
  {
    forall i | 0 <= i < |d + es|
      ensures Ordinary((d + es)[i]) || ((d + es)[i] == ".." && !rooted && forall j :: 0 <= j < i ==> (d + es)[j] == "..")
    {
      assert i >= |d| ==> (d + es)[i] == es[i - |d|] && es[i - |d|] in es;
    }
  }

  /** Given a cleaned name that is relative and does not start with two dots, the prefix test rejects only `.`. */
  lemma PrefixTestRejectsDot(dir: string, name: string)
    requires dir != "" && Elements(dir) != []
    requires !HasPrefix(Clean(name), "/") && !HasPrefix(Clean(name), "..")
    ensures Target(dir, name).None? <==> Clean(name) == "."
  {
    TargetBelow(dir, name);
    ElementsNormal(name);
    var es := Elements(name);
    if es != [] {
      PrefixOfJoin(es);
      assert Inside(name);
      InsideOrdinary(name);
      assert Ordinary(es[0]);
      assert |es| == 1 ==> Clean(name) == es[0];
      assert |es| > 1 ==> '/' in Clean(name);
    }
  }

  // ----- extracting

  predicate IsDir(disk: Disk, p: Path) {
    exists d | d in disk.dirs :: p <= d
  }

  /** os.MkdirAll fails when a file is in the way. */
  function MkdirAll(disk: Disk, p: Path): (Disk, bool) {
    if exists f | f in disk.files :: f <= p then (disk, false) else (disk.(dirs := disk.dirs + {p}), true)
  }

  /** Opening for writing, with truncation, fails on a directory. */
  function WriteFile(disk: Disk, p: Path, content: Bytes): (Disk, bool) {
    if IsDir(disk, p) then (disk, false) else (disk.(files := disk.files[p := content]), true)
  }

  function Parent(p: Path): Path {
    if p == [] then [] else p[..|p| - 1]
  }

  function ExtractEntry(disk: Disk, dir: string, e: Entry): (Disk, bool) {
    match Target(dir, e.name)
    case None => (disk, true)
    case Some(target) =>
      var p := Elements(target);
      if e.isDir then MkdirAll(disk, p)
      else
        var (made, ok) := MkdirAll(disk, Parent(p));
        if ok then WriteFile(made, p, e.content) else (made, false)
  }

  /** The disk and the verdict after extracting the entries; a broken archive fails after its last whole entry. */
  function Extract(disk: Disk, dir: string, entries: seq<Entry>, broken: bool): (Disk, bool)
    decreases |entries|
  {
    if entries == [] then (disk, !broken)
    else
      var (next, ok) := ExtractEntry(disk, dir, entries[0]);
      if ok then Extract(next, dir, entries[1..], broken) else (next, false)
  }

  class Extractor {
    var disk: Disk

    constructor (disk: Disk)
      ensures this.disk == disk
    {
      this.disk := disk;
    }

    method ExtractTarball(entries: seq<Entry>, broken: bool, dir: string) returns (ok: bool)
      modifies this
      ensures (disk, ok) == Extract(old(disk), dir, entries, broken)
    {
      hide Clean, JoinPath, Elements, MkdirAll, WriteFile, Parent, HasPrefix;
      var cleanDir := Clean(dir) + "/";
      var i := 0;
      while i < |entries|
        invariant 0 <= i <= |entries|
        invariant Extract(old(disk), dir, entries, broken) == Extract(disk, dir, entries[i..], broken)
      {
        var e := entries[i];
        assert entries[i..][0] == e && entries[i..][1..] == entries[i + 1..];
        i := i + 1;
        var clean := Clean(e.name);
        if HasPrefix(clean, "/") || HasPrefix(clean, "..") {
          continue;
        }
        var target := JoinPath(dir, clean);
        if !HasPrefix(target, cleanDir) {
          continue;
        }
        var p := Elements(target);
        var made := MkdirAll(disk, if e.isDir then p else Parent(p));
        disk := made.0;
        if !made.1 {
          return false;
        }
        if !e.isDir {
          var written := WriteFile(disk, p, e.content);
          disk := written.0;
          if !written.1 {
            return false;
          }
        }
      }
      return !broken;
    }
  }

  /** Outside directory d the files are the same, and new directories are in it. */
  ghost predicate OnlyBelow(before: Disk, after: Disk, d: Path) {
    && (forall p :: !(d < p) ==> (p in after.files <==> p in before.files))
    && (forall p :: !(d < p) && p in before.files ==> after.files[p] == before.files[p])
    && (forall e :: e in after.dirs && e !in before.dirs ==> d <= e)
    && before.dirs <= after.dirs
  }

  lemma DirStaysBelow(disk: Disk, d: Path, p: Path)
    requires d <= p
    ensures OnlyBelow(disk, MkdirAll(disk, p).0, d)
  {
  }

  lemma FileStaysBelow(disk: Disk, d: Path, p: Path, content: Bytes)
    requires d < p
    ensures OnlyBelow(disk, WriteFile(disk, p, content).0, d)
  {
  }

  lemma BelowTwice(a: Disk, b: Disk, c: Disk, d: Path)
    requires OnlyBelow(a, b, d) && OnlyBelow(b, c, d)
    ensures OnlyBelow(a, c, d)
  {
  }

  lemma EntryStaysBelow(disk: Disk, dir: string, e: Entry)
    requires dir != ""
    ensures OnlyBelow(disk, ExtractEntry(disk, dir, e).0, Elements(dir))
  {
    TargetBelow(dir, e.name);
    hide Target, Elements, Clean, Join, MkdirAll, WriteFile, OnlyBelow;
    var d, target := Elements(dir), Target(dir, e.name);
    if target == None {
      NothingBelow(disk, d);
    } else {
      var p := Elements(target.value);
      var made := MkdirAll(disk, Parent(p)).0;
      DirStaysBelow(disk, d, p);
      DirStaysBelow(disk, d, Parent(p));
      FileStaysBelow(made, d, p, e.content);
      BelowTwice(disk, made, WriteFile(made, p, e.content).0, d);
    }
  }

  lemma NothingBelow(disk: Disk, d: Path)
    ensures OnlyBelow(disk, disk, d)
  {
  }

  /** Outside the directory nothing changes, whatever the archive and whether or not extraction succeeds. */
  lemma {:induction false} ExtractionStaysBelow(disk: Disk, dir: string, entries: seq<Entry>, broken: bool)
    requires dir != ""
    ensures OnlyBelow(disk, Extract(disk, dir, entries, broken).0, Elements(dir))
    decreases |entries|
  {
    hide OnlyBelow, ExtractEntry, Elements;
    if entries == [] {
      NothingBelow(disk, Elements(dir));
    } else {
      EntryStaysBelow(disk, dir, entries[0]);
      var (next, ok) := ExtractEntry(disk, dir, entries[0]);
      if ok {
        ExtractionStaysBelow(next, dir, entries[1..], broken);
        BelowTwice(disk, next, Extract(next, dir, entries[1..], broken).0, Elements(dir));
      }
    }
  }

  /** The disk has something in the way of an entry: a file above it, or a directory in a file's place. */
  predicate Blocked(disk: Disk, dir: string, e: Entry) {
    match Target(dir, e.name)
    case None => false
    case Some(target) =>
      var p := Elements(target);
      || (exists f :: f in disk.files && f <= (if e.isDir || p == [] then p else p[..|p| - 1]))
      || (!e.isDir && exists d :: d in disk.dirs && p <= d)
  }

  lemma EntryVerdict(disk: Disk, dir: string, e: Entry)
    requires dir != ""
    ensures ExtractEntry(disk, dir, e).1 <==> !Blocked(disk, dir, e)
  {
    hide Target, Elements, Clean, Join, MkdirAll, WriteFile, Inside;
    TargetBelow(dir, e.name);
    if Target(dir, e.name).Some? {
      var p := Elements(Target(dir, e.name).value);
      assert p != [];
      DirVerdict(disk, p);
      DirVerdict(disk, p[..|p| - 1]);
      FileVerdict(disk, p, e.content);
    }
  }

  lemma DirVerdict(disk: Disk, p: Path)
    ensures MkdirAll(disk, p).1 <==> !exists f :: f in disk.files && f <= p
  {
  }

  lemma FileVerdict(disk: Disk, p: Path, content: Bytes)
    requires p != []
    ensures MkdirAll(disk, Parent(p)).1 ==>
              (WriteFile(MkdirAll(disk, Parent(p)).0, p, content).1 <==> !exists d :: d in disk.dirs && p <= d)
  {
    assert !(p <= Parent(p));
  }

  /** Extraction succeeds exactly when the archive is whole and no entry, in its turn, finds something in its way. */
  lemma {:induction false} VerdictExactly(disk: Disk, dir: string, entries: seq<Entry>, broken: bool)
    requires dir != ""
    ensures Extract(disk, dir, entries, broken).1 <==>
            !broken && forall i :: 0 <= i < |entries| ==>
                         !Blocked(Extract(disk, dir, entries[..i], false).0, dir, entries[i])
    decreases |entries|
  {
    hide Blocked, ExtractEntry;
    if entries != [] {
      var (next, ok) := ExtractEntry(disk, dir, entries[0]);
      EntryVerdict(disk, dir, entries[0]);
      assert Extract(disk, dir, entries[..0], false).0 == disk;
      if ok {
        var rest := entries[1..];
        VerdictExactly(next, dir, rest, broken);
        forall i | 0 <= i < |rest|
          ensures Extract(disk, dir, entries[..i + 1], false) == Extract(next, dir, rest[..i], false)
          ensures entries[i + 1] == rest[i]
        {
          assert entries[..i + 1][0] == entries[0] && entries[..i + 1][1..] == rest[..i];
        }
        Shifted(disk, next, dir, entries);
      }
    }
  }

  lemma Shifted(disk: Disk, next: Disk, dir: string, entries: seq<Entry>)
    requires entries != [] && !Blocked(Extract(disk, dir, entries[..0], false).0, dir, entries[0])
    requires forall i :: 0 <= i < |entries| - 1 ==>
               Extract(disk, dir, entries[..i + 1], false) == Extract(next, dir, entries[1..][..i], false)
    ensures (forall i :: 0 <= i < |entries| ==> !Blocked(Extract(disk, dir, entries[..i], false).0, dir, entries[i])) <==>
            (forall i :: 0 <= i < |entries[1..]| ==>
               !Blocked(Extract(next, dir, entries[1..][..i], false).0, dir, entries[1..][i]))
  {
    hide Blocked, Extract;
    var rest := entries[1..];
    if forall i :: 0 <= i < |entries| ==> !Blocked(Extract(disk, dir, entries[..i], false).0, dir, entries[i]) {
      forall i | 0 <= i < |rest|
        ensures !Blocked(Extract(next, dir, rest[..i], false).0, dir, rest[i])
      {
        assert !Blocked(Extract(disk, dir, entries[..i + 1], false).0, dir, entries[i + 1]);
      }
    }
    if forall i :: 0 <= i < |rest| ==> !Blocked(Extract(next, dir, rest[..i], false).0, dir, rest[i]) {
      forall i | 0 <= i < |entries|
        ensures !Blocked(Extract(disk, dir, entries[..i], false).0, dir, entries[i])
      {
        if i > 0 {
          assert !Blocked(Extract(next, dir, rest[..i - 1], false).0, dir, rest[i - 1]);
          assert entries[..(i - 1) + 1] == entries[..i];
        }
      }
    }
  }

  // ----- extracting what was packed

  /** Everything on disk comes from the tree: files with their contents, and directories on the way to files. */
  ghost predicate FromTree(disk: Disk, d: Path, l: Listing) {
    && (forall f :: f in disk.files ==> d <= f && FileAt(l, f[|d|..]) == Some(disk.files[f]))
    && (forall e :: e in disk.dirs ==> e <= d || (d <= e && exists p :: FileAt(l, p).Some? && e == d + Parent(p)))
  }

  lemma PrefixBelow(d: Path, a: Path, b: Path)
    ensures d + a <= d + b <==> a <= b
  {
    if d + a <= d + b {
      assert forall i :: 0 <= i < |a| ==> (d + a)[|d| + i] == a[i] && (d + b)[|d| + i] == b[i];
    }
  }

  lemma NothingInTheWay(disk: Disk, d: Path, l: Listing, p: Path)
    requires WellFormed(l) && FromTree(disk, d, l) && FileAt(l, p).Some?
    ensures forall f :: f in disk.files ==> !(f <= d + Parent(p))
    ensures !IsDir(disk, d + p)
  {
    FileAtName(l, p);
    forall f | f in disk.files
      ensures !(f <= d + Parent(p))
    {
      var q := f[|d|..];
      FileAtName(l, q);
      assert f == d + q;
      PrefixBelow(d, q, Parent(p));
      if q <= p {
        FilesAreLeaves(l, q, p);
      }
    }
    forall e | e in disk.dirs
      ensures !(d + p <= e)
    {
      if !(e <= d) {
        var q :| FileAt(l, q).Some? && e == d + Parent(q);
        FileAtName(l, q);
        PrefixBelow(d, p, Parent(q));
        if p <= q {
          FilesAreLeaves(l, p, q);
        }
      }
    }
  }

  /** Writing a file of the tree where it belongs. */
  lemma WrittenFromTree(disk: Disk, d: Path, l: Listing, p: Path)
    requires WellFormed(l) && FromTree(disk, d, l) && FileAt(l, p).Some?
    ensures var made := disk.(dirs := disk.dirs + {d + Parent(p)});
            FromTree(made, d, l) && FromTree(made.(files := made.files[d + p := FileAt(l, p).value]), d, l)
  {
    assert (d + p)[|d|..] == p;
  }

  /** The path of a packed entry can be read off its name. */
  lemma PackedPath(ignored: Ignore, l: Listing, p: Path, e: Entry)
    requires WellFormed(l) && Packs(ignored, [], l, p, e)
    ensures Elements(e.name) == p && (Inside(e.name) <==> !HasPrefix(p[0], ".."))
  {
    FileAtName(l, p);
    assert [] + p == p;
    ElementsRender(false, p);
  }

  /** The entries' files that stay inside, placed below directory d. */
  function Placed(d: Path, entries: seq<Entry>): set<Path> {
    set e | e in entries && Inside(e.name) :: d + Elements(e.name)
  }

  /** e is what the walk packed for the file its name leads to. */
  ghost predicate Packed(ignored: Ignore, l: Listing, e: Entry) {
    Packs(ignored, [], l, Elements(e.name), e)
  }

  lemma ExtractPacked(disk: Disk, dir: string, ignored: Ignore, l: Listing, e: Entry)
    requires dir != "" && Elements(dir) != [] && WellFormed(l)
    requires FromTree(disk, Elements(dir), l) && Packed(ignored, l, e)
    ensures var (next, ok) := ExtractEntry(disk, dir, e);
            && ok && FromTree(next, Elements(dir), l)
            && next.files.Keys == disk.files.Keys + Placed(Elements(dir), [e])
  {
    hide FromTree, Elements, Inside, Target, WellFormed, FileAt, Kept;
    var d, p := Elements(dir), Elements(e.name);
    PackedPath(ignored, l, p, e);
    TargetBelow(dir, e.name);
    assert e in [e];
    assert Placed(d, [e]) == if Inside(e.name) then {d + p} else {};
    if Inside(e.name) {
      FileAtName(l, p);
      NothingInTheWay(disk, d, l, p);
      assert Parent(d + p) == d + Parent(p);
      WrittenFromTree(disk, d, l, p);
      NothingInTheWay(disk.(dirs := disk.dirs + {d + Parent(p)}), d, l, p);
    }
  }

  lemma {:induction false} ExtractAllPacked(disk: Disk, dir: string, ignored: Ignore, l: Listing, entries: seq<Entry>)
    requires dir != "" && Elements(dir) != [] && WellFormed(l) && FromTree(disk, Elements(dir), l)
    requires forall e :: e in entries ==> Packed(ignored, l, e)
    ensures var (after, ok) := Extract(disk, dir, entries, false);
            && ok && FromTree(after, Elements(dir), l)
            && after.files.Keys == disk.files.Keys + Placed(Elements(dir), entries)
    decreases |entries|
  {
    hide FromTree, WellFormed, Packed, ExtractEntry, Elements, Inside;
    if entries == [] {
      assert Placed(Elements(dir), entries) == {};
    } else {
      hide Placed;
      var e, d := entries[0], Elements(dir);
      assert e in entries && forall x :: x in entries[1..] ==> x in entries;
      ExtractPacked(disk, dir, ignored, l, e);
      ExtractAllPacked(ExtractEntry(disk, dir, e).0, dir, ignored, l, entries[1..]);
      assert entries == [e] + entries[1..];
    }
  }

  /** The file at path p arrives: it is in the tree, the filter keeps it, and it does not start with two dots. */
  ghost predicate Arrives(ignored: Ignore, l: Listing, p: Path) {
    FileAt(l, p).Some? && Kept(ignored, [], p) && !HasPrefix(p[0], "..")
  }

  lemma PlacedArrives(d: Path, ignored: Ignore, l: Listing, p: Path)
    requires WellFormed(l)
    ensures d + p in Placed(d, Walk(ignored, [], l)) <==> Arrives(ignored, l, p)
  {
    var entries := Walk(ignored, [], l);
    AllPacked(ignored, l);
    if Arrives(ignored, l, p) {
      var e := Entry(Join([] + p, '/'), false, FileAt(l, p).value);
      WalkPacksKept(ignored, [], l);
      assert e in entries && Packs(ignored, [], l, p, e);
      PackedPath(ignored, l, p, e);
    }
    if d + p in Placed(d, entries) {
      var e :| e in entries && Inside(e.name) && d + Elements(e.name) == d + p;
      var q := Elements(e.name);
      assert q == (d + q)[|d|..] && p == (d + p)[|d|..];
      PackedPath(ignored, l, q, e);
    }
  }

  lemma AllPacked(ignored: Ignore, l: Listing)
    requires WellFormed(l)
    ensures forall e :: e in Walk(ignored, [], l) ==> Packed(ignored, l, e)
  {
    WalkPacksKept(ignored, [], l);
    forall e | e in Walk(ignored, [], l)
      ensures Packed(ignored, l, e)
    {
      var p :| Packs(ignored, [], l, p, e);
      PackedPath(ignored, l, p, e);
    }
  }

  /**
    Extracting the packed tree into a fresh directory succeeds and gives, below that directory, exactly
    the files the flat filter keeps, with their contents, less those whose path starts with two dots.
  */
  lemma RoundTrip(dir: string, ignored: Ignore, l: Listing)
    requires dir != "" && Elements(dir) != [] && WellFormed(l)
    ensures var d := Elements(dir);
            var (after, ok) := Extract(Disk(map[], {d}), dir, Walk(ignored, [], l), false);
            && ok
            && (forall f :: f in after.files ==> d <= f)
            && (forall p :: d + p in after.files <==> Arrives(ignored, l, p))
            && (forall p :: d + p in after.files ==> FileAt(l, p) == Some(after.files[d + p]))
  {
    var d, entries := Elements(dir), Walk(ignored, [], l);
    AllPacked(ignored, l);
    ExtractAllPacked(Disk(map[], {d}), dir, ignored, l, entries);
    var after := Extract(Disk(map[], {d}), dir, entries, false).0;
    forall p
      ensures d + p in after.files <==> Arrives(ignored, l, p)
      ensures d + p in after.files ==> FileAt(l, p) == Some(after.files[d + p])
    {
      PlacedArrives(d, ignored, l, p);
      assert (d + p)[|d|..] == p;
    }
  }

  /** So nothing the filter keeps is lost exactly when no kept file's path starts with two dots. */
  lemma RoundTripComplete(dir: string, ignored: Ignore, l: Listing)
    requires dir != "" && Elements(dir) != [] && WellFormed(l)
    ensures var d := Elements(dir);
            var after := Extract(Disk(map[], {d}), dir, Walk(ignored, [], l), false).0;
            (forall p :: FileAt(l, p).Some? && Kept(ignored, [], p) ==> d + p in after.files)
            <==> (forall p :: FileAt(l, p).Some? && Kept(ignored, [], p) ==> !HasPrefix(p[0], ".."))
  {
    RoundTrip(dir, ignored, l);
  }

  /** For example: a file `..env` at the top is packed, and not extracted. */
  lemma TwoDotsLost(dir: string, ignored: Ignore, content: Bytes)
    requires dir != "" && Elements(dir) != []
    ensures var l := File("..env", content, End);
            && WellFormed(l) && Walk(ignored, [], l) == [Entry("..env", false, content)]
            && Elements(dir) + ["..env"] !in Extract(Disk(map[], {Elements(dir)}), dir, Walk(ignored, [], l), false).0.files
  {
    hide Elements, Extract, Clean;
    var l := File("..env", content, End);
    assert !Dropped("..env") by {
      assert "..env"[1..][3] == 'v' && ".pyc"[3] == 'c';
    }
    assert [] + ["..env"] == ["..env"];
    RoundTrip(dir, ignored, l);
    assert HasPrefix("..env", "..");
    assert !Arrives(ignored, l, ["..env"]);
  }
}
