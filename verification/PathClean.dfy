/** Lexical cleaning and joining of slash-separated paths, as Go's `path/filepath` documents them for Unix. */
module PathClean {
  import opened Common
  import opened GoStrings

  type Path = seq<string>

  predicate Rooted(path: string) {
    HasPrefix(path, "/")
  }

  /** An empty or `.` element adds nothing; `..` undoes the ordinary element before it. */
  function Push(rooted: bool, done: Path, e: string): Path {
    if e == "" || e == "." then done
    else if e != ".." then done + [e]
    else if done != [] && done[|done| - 1] != ".." then done[..|done| - 1]
    else if rooted then done
    else done + [".."]
  }

  function Reduce(rooted: bool, elements: Path, done: Path): Path
    decreases |elements|
  {
    if elements == [] then done
    else
      Reduce(rooted, elements[1..], Push(rooted, done, elements[0]))
  }

  function Elements(path: string): Path {
    Reduce(Rooted(path), Split(path, '/'), [])
  }

  function Render(rooted: bool, elements: Path): string {
    if rooted then "/" + Join(elements, '/') else if elements == [] then "." else Join(elements, '/')
  }

  function Clean(path: string): string {
    Render(Rooted(path), Elements(path))
  }

  /** filepath.Join of two elements, which ignores an empty one. */
  function JoinPath(dir: string, name: string): string {
    if dir == "" then (if name == "" then "" else Clean(name))
    else if name == "" then Clean(dir) else Clean(dir + "/" + name)
  }

  predicate Ordinary(e: string) {
    e != "" && e != "." && e != ".." && '/' !in e
  }

  /** What cleaning leaves: ordinary elements, after a leading run of `..` that only a relative path has. */
  predicate Normal(rooted: bool, elements: Path) {
    forall i :: 0 <= i < |elements| ==>
      Ordinary(elements[i]) || (elements[i] == ".." && !rooted && forall j :: 0 <= j < i ==> elements[j] == "..")
  }

  lemma {:induction false} ReduceNormal(rooted: bool, elements: Path, done: Path)
    requires Normal(rooted, done) && forall e :: e in elements ==> '/' !in e
    ensures Normal(rooted, Reduce(rooted, elements, done))
    decreases |elements|
  {
    if elements != [] {
      ReduceNormal(rooted, elements[1..], Push(rooted, done, elements[0]));
    }
  }

  lemma {:induction false} ReduceAppend(rooted: bool, a: Path, b: Path, done: Path)
    ensures Reduce(rooted, a + b, done) == Reduce(rooted, b, Reduce(rooted, a, done))
    decreases |a|
  {
    if a == [] {
      assert a + b == b;
    } else {
      assert (a + b)[1..] == a[1..] + b && (a + b)[0] == a[0];
      ReduceAppend(rooted, a[1..], b, Push(rooted, done, a[0]));
    }
  }

  /** Normal elements are appended as they are: ordinary ones anywhere, a leading `..` run at the start. */
  lemma {:induction false} ReduceAppends(rooted: bool, elements: Path, done: Path)
    requires Normal(rooted, done + elements)
    ensures Reduce(rooted, elements, done) == done + elements
    decreases |elements|
  {
    if elements == [] {
      assert done + elements == done;
    } else {
      var e := elements[0];
      assert (done + elements)[|done|] == e;
      assert (done + [e]) + elements[1..] == done + elements;
      if e == ".." && done != [] {
        assert (done + elements)[|done| - 1] == done[|done| - 1];
      }
      ReduceAppends(rooted, elements[1..], done + [e]);
    }
  }

  lemma ElementsNormal(path: string)
    ensures Normal(Rooted(path), Elements(path))
  {
    JoinSplit(path, '/');
    ReduceNormal(Rooted(path), Split(path, '/'), []);
  }

  lemma {:induction false} SplitConcat(a: string, b: string, c: char)
    ensures Split(a + ([c] + b), c) == Split(a, c) + Split(b, c)
    decreases |a|
  {
    hide IndexOf;
    var k := IndexOf(a, c);
    if k < 0 {
      SplitFirst(a, b, c);
    } else {
      SplitConcat(a[k + 1..], b, c);
      SplitRest(a[..k], a[k + 1..], b, c);
      assert a == a[..k] + ([c] + a[k + 1..]);
    }
  }

  lemma SplitRest(front: string, rest: string, b: string, c: char)
    requires c !in front && Split(rest + ([c] + b), c) == Split(rest, c) + Split(b, c)
    ensures var a := front + ([c] + rest); Split(a + ([c] + b), c) == Split(a, c) + Split(b, c)
  {
    SplitFirst(front, rest, c);
    SplitFirst(front, rest + ([c] + b), c);
    hide Split;
    ConcatAssociates(front, [c] + rest, [c] + b);
    ConcatAssociates([c], rest, [c] + b);
    ConcatAssociates([front], Split(rest, c), Split(b, c));
  }

  /** The elements of a rendered normal path are its elements again. */
  lemma ElementsRender(rooted: bool, elements: Path)
    requires Normal(rooted, elements)
    ensures Rooted(Render(rooted, elements)) == rooted && Elements(Render(rooted, elements)) == elements
  {
    var path := Render(rooted, elements);
    var body := Join(elements, '/');
    assert [] + elements == elements;
    if elements == [] {
      SplitConcat("", "", '/');
      assert Reduce(rooted, ["", ""][1..], []) == [];
      assert Reduce(rooted, ["."][1..], []) == [];
      assert path == if rooted then "" + (['/'] + "") else ".";
    } else {
      SplitJoin(elements, '/');
      FirstChar(elements);
      ReduceAppends(rooted, elements, []);
      if rooted {
        SplitConcat("", body, '/');
        assert path == "" + (['/'] + body);
        assert Split(path, '/') == [""] + elements && ([""] + elements)[1..] == elements;
      }
    }
  }

  lemma FirstChar(elements: Path)
    requires elements != [] && elements[0] != "" && '/' !in elements[0]
    ensures HasPrefix(Join(elements, '/'), elements[0]) && !Rooted(Join(elements, '/'))
  {
    assert Join(elements, '/')[0] == elements[0][0];
  }

  /** Cleaning twice is cleaning once. */
  lemma CleanIdempotent(path: string)
    ensures Clean(Clean(path)) == Clean(path)
  {
    ElementsNormal(path);
    ElementsRender(Rooted(path), Elements(path));
  }

  /** Splitting a cleaned path gives its elements, after an empty one when it is rooted. */
  lemma SplitClean(path: string)
    ensures var es := Elements(path);
            Split(Clean(path), '/') ==
            if Rooted(path) then [""] + (if es == [] then [""] else es) else if es == [] then ["."] else es
  {
    ElementsNormal(path);
    var es := Elements(path);
    if es != [] {
      SplitJoin(es, '/');
    }
    SplitFirst("", Join(es, '/'), '/');
    assert "/" + Join(es, '/') == "" + (['/'] + Join(es, '/'));
    hide Elements;
    assert es == [] ==> Split(Join(es, '/'), '/') == [""] && Split(".", '/') == ["."];
    hide Split;
  }

  /** In a cleaned relative path `..` occurs only as a leading run, in a rooted one not at all. */
  lemma DotsLead(path: string)
    ensures var es := Split(Clean(path), '/');
            forall i :: 0 <= i < |es| && es[i] == ".." ==> !Rooted(path) && forall j :: 0 <= j < i ==> es[j] == ".."
  {
    ElementsNormal(path);
    SplitClean(path);
    hide Split, Clean, Elements;
    var es, all := Elements(path), Split(Clean(path), '/');
    if Rooted(path) {
      forall i | 1 <= i < |all|
        ensures all[i] != ".."
      {
        assert all[i] == (if es == [] then [""] else es)[i - 1];
      }
    }
  }

  // ----- the rules of cleaning, said of the text

  function Below(a: string, b: string): string {
    a + ("/" + b)
  }

  lemma SplitBelow(a: string, b: string)
    ensures Split(Below(a, b), '/') == Split(a, '/') + Split(b, '/')
    ensures a != "" ==> Rooted(Below(a, b)) == Rooted(a)
  {
    SplitConcat(a, b, '/');
  }

  lemma SplitPlain(e: string)
    requires '/' !in e
    ensures Split(e, '/') == [e]
  {
  }

  /** Elements that leave whatever came before them as it was leave a path as it was. */
  lemma Absorbed(a: string, middle: Path, b: string, path: string)
    requires a != "" && Rooted(path) == Rooted(a) && Split(path, '/') == Split(a, '/') + (middle + Split(b, '/'))
    requires forall done :: Reduce(Rooted(a), middle, done) == done
    ensures Clean(path) == Clean(Below(a, b))
  {
    hide Split, Render;
    var rooted := Rooted(a);
    SplitBelow(a, b);
    ReduceAppend(rooted, Split(a, '/'), middle + Split(b, '/'), []);
    ReduceAppend(rooted, middle, Split(b, '/'), Reduce(rooted, Split(a, '/'), []));
    ReduceAppend(rooted, Split(a, '/'), Split(b, '/'), []);
  }

  /** Doubled slashes and `.` elements go; an ordinary element goes with the `..` behind it. */
  lemma CleanRules(a: string, e: string, b: string)
    requires a != "" && Ordinary(e)
    ensures Clean(Below(a, "/" + b)) == Clean(Below(a, b))
    ensures Clean(Below(a, Below(".", b))) == Clean(Below(a, b))
    ensures Clean(Below(a, Below(e, Below("..", b)))) == Clean(Below(a, b))
  {
    hide Split, Clean, Render, Rooted, Below;
    var rooted := Rooted(a);
    SplitBelow("", b);
    SplitBelow(".", b);
    SplitBelow("..", b);
    SplitBelow(e, Below("..", b));
    SplitPlain("");
    SplitPlain(".");
    SplitPlain("..");
    SplitPlain(e);
    EmptyBelow(b);
    SplitBelow(a, "/" + b);
    SplitBelow(a, Below(".", b));
    SplitBelow(a, Below(e, Below("..", b)));
    ReduceMiddle(rooted, e);
    Absorbed(a, [""], b, Below(a, "/" + b));
    Absorbed(a, ["."], b, Below(a, Below(".", b)));
    assert [e] + ([".."] + Split(b, '/')) == [e, ".."] + Split(b, '/');
    Absorbed(a, [e, ".."], b, Below(a, Below(e, Below("..", b))));
  }

  lemma EmptyBelow(b: string)
    ensures Below("", b) == "/" + b
  {
  }

  lemma ReduceMiddle(rooted: bool, e: string)
    requires Ordinary(e)
    ensures forall done :: Reduce(rooted, [""], done) == done && Reduce(rooted, ["."], done) == done
    ensures forall done :: Reduce(rooted, [e, ".."], done) == done
  {
    forall done
      ensures Reduce(rooted, [""], done) == done && Reduce(rooted, ["."], done) == done
      ensures Reduce(rooted, [e, ".."], done) == done
    {
      assert [""][1..] == [] && ["."][1..] == [] && [e, ".."][1..] == [".."] && [".."][1..] == [];
      assert Push(rooted, Push(rooted, done, e), "..") == done;
    }
  }

  /** Above the root there is nothing but the root. */
  lemma CleanRoot(b: string)
    ensures Clean("/" + Below("..", b)) == Clean("/" + b)
  {
    hide Split, Render;
    SplitBelow("", b);
    SplitBelow("..", b);
    SplitBelow("", Below("..", b));
    SplitPlain("");
    SplitPlain("..");
    EmptyBelow(b);
    EmptyBelow(Below("..", b));
    RootAbsorbs(Split(b, '/'));
    assert Split("/" + Below("..", b), '/') == [""] + ([".."] + Split(b, '/'));
    assert Rooted("/" + b) && Rooted("/" + Below("..", b));
  }

  lemma RootAbsorbs(rest: Path)
    ensures Reduce(true, [""] + ([".."] + rest), []) == Reduce(true, [""] + rest, [])
  {
    assert ([""] + ([".."] + rest))[1..] == [".."] + rest && ([".."] + rest)[1..] == rest && ([""] + rest)[1..] == rest;
  }

  /** A path of ordinary elements, after a leading run of `..` if it is relative, is clean. */
  lemma CleanFixes(rooted: bool, elements: Path)
    requires Normal(rooted, elements)
    ensures Clean(Render(rooted, elements)) == Render(rooted, elements)
  {
    ElementsRender(rooted, elements);
  }
}
