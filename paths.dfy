/**
 * POSIX paths as `pathlib` sees them: absolute or relative, and a sequence
 * of components. `Path("a//./b")` has the components `a` and `b`; `..` is
 * kept until the path is resolved. Resolution makes a path absolute against
 * the working directory and folds `..` lexically; symbolic links are not
 * followed.
 */
module Paths {
  import opened Wrappers
  import opened Strings

  datatype Path = Path(absolute: bool, parts: seq<string>)

  /** A component as `pathlib` stores one: not empty, not `.`, without a separator. */
  predicate ValidPart(s: string) {
    s != "" && s != "." && '/' !in s
  }

  predicate WellFormed(p: Path) {
    forall i :: 0 <= i < |p.parts| ==> ValidPart(p.parts[i])
  }

  /** The components of a split, with the empty ones and `.` dropped. */
  function Clean(pieces: seq<string>): (r: seq<string>)
    ensures forall i :: 0 <= i < |r| ==> r[i] in pieces && r[i] != "" && r[i] != "."
  {
    if |pieces| == 0 then []
    else
      var rest := Clean(pieces[1..]);
      if pieces[0] == "" || pieces[0] == "." then rest else [pieces[0]] + rest
  }

  /** `Path(s)` */
  function FromText(s: string): (p: Path)
    ensures WellFormed(p)
  {
    Path(|s| > 0 && s[0] == '/', Clean(Split(s, '/')))
  }

  /** `str(p)` */
  function ToText(p: Path): string {
    if p.absolute then "/" + Join(p.parts, "/")
    else if p.parts == [] then "."
    else Join(p.parts, "/")
  }

  /** `p.name`: the last component, or `""` for a root or `.`. */
  function Name(p: Path): string {
    if p.parts == [] then "" else p.parts[|p.parts| - 1]
  }

  /** `p.parent`: the root and `.` are their own parents. */
  function Parent(p: Path): Path {
    if p.parts == [] then p else Path(p.absolute, p.parts[..|p.parts| - 1])
  }

  /** `p / q`: an absolute `q` replaces `p`. */
  function Div(p: Path, q: Path): Path {
    if q.absolute then q else Path(p.absolute, p.parts + q.parts)
  }

  /** `p / name` for a string operand. */
  function Child(p: Path, name: string): Path {
    Div(p, FromText(name))
  }

  /** `p.with_name(name)`: `Failure` is the `ValueError` for a path without a name or an invalid name. */
  function WithName(p: Path, name: string): (r: Result<Path, string>)
    ensures r.Success? <==> Name(p) != "" && ValidPart(name)
    ensures r.Success? ==> Name(r.value) == name && Parent(r.value) == Parent(p)
  {
    if Name(p) == "" || !ValidPart(name) then Failure("ValueError")
    else
      var r := Path(p.absolute, p.parts[..|p.parts| - 1] + [name]);
      assert r.parts[..|r.parts| - 1] == p.parts[..|p.parts| - 1];
      Success(r)
  }

  /** `p.expanduser()`: a leading `~` component becomes the home directory. */
  function ExpandUser(p: Path, home: Path): Path {
    if !p.absolute && |p.parts| > 0 && p.parts[0] == "~" then Div(home, Path(false, p.parts[1..])) else p
  }

  /** `..` removes the component before it; at the root it stays at the root. */
  function Fold(parts: seq<string>): (r: seq<string>)
    ensures |r| <= |parts|
  {
    if |parts| == 0 then []
    else
      var front := Fold(parts[..|parts| - 1]);
      var last := parts[|parts| - 1];
      if last == ".." then (if front == [] then [] else front[..|front| - 1])
      else front + [last]
  }

  /** `p.resolve()` against the working directory `cwd`, without symbolic links. */
  function Resolve(p: Path, cwd: Path): (r: Path)
    ensures r.absolute
  {
    Path(true, Fold(if p.absolute then p.parts else cwd.parts + p.parts))
  }

  /** `child.relative_to(parent)` succeeds: `parent` is `child` or one of its ancestors. */
  predicate Within(child: Path, parent: Path) {
    child.absolute == parent.absolute
    && |parent.parts| <= |child.parts| && child.parts[..|parent.parts|] == parent.parts
  }

  /** A resolved path: absolute, well formed, without `..`. */
  predicate Normal(p: Path) {
    p.absolute && WellFormed(p) && forall i :: 0 <= i < |p.parts| ==> p.parts[i] != ".."
  }

  // Properties

  lemma {:induction false} CleanKeeps(pieces: seq<string>)
    requires forall i :: 0 <= i < |pieces| ==> pieces[i] != "" && pieces[i] != "."
    ensures Clean(pieces) == pieces
  {
    if |pieces| > 0 {
      CleanKeeps(pieces[1..]);
    }
  }

  lemma {:induction false} CleanNoSeparator(pieces: seq<string>)
    requires forall i :: 0 <= i < |pieces| ==> '/' !in pieces[i]
    ensures forall i :: 0 <= i < |Clean(pieces)| ==> '/' !in Clean(pieces)[i]
  {
    if |pieces| > 0 {
      CleanNoSeparator(pieces[1..]);
    }
  }

  /** `Path(str(p))` gives back a well-formed `p`. */
  lemma TextRoundTrip(p: Path)
    requires WellFormed(p)
    ensures FromText(ToText(p)) == p
  {
    if p.absolute {
      AbsoluteText(p.parts);
    } else if p.parts == [] {
      SplitNoSeparator(".", '/');
      assert Clean(["."]) == [];
    } else {
      RelativeText(p.parts);
    }
  }

  lemma AbsoluteText(parts: seq<string>)
    requires forall i :: 0 <= i < |parts| ==> ValidPart(parts[i])
    ensures FromText("/" + Join(parts, "/")) == Path(true, parts)
  {
    var j := Join(parts, "/");
    var t := "/" + j;
    assert Split(t, '/') == [""] + Split(j, '/') by {
      SplitPrefix("", '/', j);
      assert "" + ['/'] + j == t;
    }
    CleanEmptyHead(Split(j, '/'));
    if parts == [] {
      assert Clean(Split(j, '/')) == [] by {
        assert Split("", '/') == [""];
        assert Clean([""]) == [];
      }
    } else {
      SplitJoin(parts, '/');
      CleanKeeps(parts);
    }
  }

  lemma CleanEmptyHead(pieces: seq<string>)
    ensures Clean([""] + pieces) == Clean(pieces)
  {
    assert ([""] + pieces)[1..] == pieces;
  }

  lemma RelativeText(parts: seq<string>)
    requires |parts| > 0
    requires forall i :: 0 <= i < |parts| ==> ValidPart(parts[i])
    ensures FromText(Join(parts, "/")) == Path(false, parts)
  {
    SplitJoin(parts, '/');
    CleanKeeps(parts);
    JoinHead(parts, "/");
    assert parts[0][0] in parts[0];
  }

  lemma {:induction false} JoinHead(parts: seq<string>, sep: string)
    requires |parts| > 0 && parts[0] != ""
    ensures |Join(parts, sep)| > 0 && Join(parts, sep)[0] == parts[0][0]
  {
  }

  /** A valid single component read as a path is that one relative component. */
  lemma PartText(name: string)
    requires ValidPart(name)
    ensures FromText(name) == Path(false, [name])
  {
    SplitNoSeparator(name, '/');
    CleanKeeps([name]);
    assert name[0] != '/' by {
      assert name[0] in name;
    }
  }

  /** Joining a valid component appends it; the result is named after it and has `p` as parent. */
  lemma ChildPart(p: Path, name: string)
    requires ValidPart(name)
    ensures Child(p, name) == Path(p.absolute, p.parts + [name])
    ensures Name(Child(p, name)) == name && Parent(Child(p, name)) == p
  {
    PartText(name);
    assert (p.parts + [name])[..|p.parts|] == p.parts;
  }

  /** A folded path holds no `..` and keeps only components it was given. */
  lemma {:induction false} FoldNormal(parts: seq<string>)
    ensures forall i :: 0 <= i < |Fold(parts)| ==> Fold(parts)[i] != ".." && Fold(parts)[i] in parts
  {
    if |parts| > 0 {
      var front := parts[..|parts| - 1];
      FoldNormal(front);
      assert forall x :: x in front ==> x in parts;
    }
  }

  /** Folding a path without `..` changes nothing. */
  lemma {:induction false} FoldPlain(parts: seq<string>)
    requires forall i :: 0 <= i < |parts| ==> parts[i] != ".."
    ensures Fold(parts) == parts
  {
    if |parts| > 0 {
      FoldPlain(parts[..|parts| - 1]);
    }
  }

  /** A resolved path is normal, and resolving it again changes nothing. */
  lemma ResolveNormal(p: Path, cwd: Path)
    requires WellFormed(p) && WellFormed(cwd)
    ensures Normal(Resolve(p, cwd))
    ensures Resolve(Resolve(p, cwd), cwd) == Resolve(p, cwd)
  {
    var full := if p.absolute then p.parts else cwd.parts + p.parts;
    assert forall x :: x in full ==> ValidPart(x);
    FoldNormal(full);
    FoldPlain(Fold(full));
  }

  /** A normal path resolves to itself. */
  lemma ResolveOfNormal(p: Path, cwd: Path)
    requires Normal(p)
    ensures Resolve(p, cwd) == p
  {
    FoldPlain(p.parts);
  }

  /** `Within` is a partial order: reflexive, antisymmetric and transitive. */
  lemma WithinOrder(a: Path, b: Path, c: Path)
    ensures Within(a, a)
    ensures Within(a, b) && Within(b, a) ==> a == b
    ensures Within(a, b) && Within(b, c) ==> Within(a, c)
  {
    if Within(a, b) && Within(b, c) {
      assert a.parts[..|c.parts|] == a.parts[..|b.parts|][..|c.parts|];
    }
  }
}
