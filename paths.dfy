/**
 * Paths as a Unix file system parses them: `Paths.get` drops empty names
 * (repeated and trailing slashes), `toString` joins the names with '/', and
 * `toFile().getName()` is the last name.
 */
module Paths {
  import opened Wrappers

  const Separator: char := '/'

  /** A parsed path: rooted or relative, and its names in order. */
  datatype Path = Path(absolute: bool, names: seq<string>)

  /** `s` does not contain `c`. */
  predicate Lacks(s: string, c: char)
  {
    forall k :: 0 <= k < |s| ==> s[k] != c
  }

  /** A single path name: non-empty and free of the separator. */
  predicate IsName(s: string)
  {
    s != "" && Lacks(s, Separator)
  }

  predicate ValidPath(p: Path)
  {
    forall i :: 0 <= i < |p.names| ==> IsName(p.names[i])
  }

  /** The first position of `c` in `s`, if any. */
  function IndexOf(s: string, c: char): (r: Option<nat>)
    ensures r.None? ==> Lacks(s, c)
    ensures r.Some? ==> r.value < |s| && s[r.value] == c && Lacks(s[..r.value], c)
  {
    if s == [] then None
    else if s[0] == c then Some(0)
    else
      match IndexOf(s[1..], c)
      case None => None
      case Some(i) => Some(i + 1)
  }

  /** The first occurrence of `c` is found after a prefix that lacks it. */
  lemma IndexOfAfterPrefix(a: string, c: char, t: string)
    requires Lacks(a, c)
    ensures IndexOf(a + [c] + t, c) == Some(|a|)
  {
    var s := a + [c] + t;
    assert s[|a|] == c;
    assert forall k :: 0 <= k < |a| ==> s[k] == a[k];
  }

  /** A string without `c` has no position of `c`. */
  lemma IndexOfLacking(s: string, c: char)
    requires Lacks(s, c)
    ensures IndexOf(s, c) == None
  {
  }

  /** The non-empty names of `s` between separators, in order. */
  function Components(s: string): seq<string>
    decreases |s|
  {
    match IndexOf(s, Separator)
    case None => if s == "" then [] else [s]
    case Some(i) => (if i == 0 then [] else [s[..i]]) + Components(s[i + 1..])
  }

  /** Every component is a name. */
  lemma {:induction false} ComponentsAreNames(s: string)
    ensures forall i :: 0 <= i < |Components(s)| ==> IsName(Components(s)[i])
    decreases |s|
  {
    match IndexOf(s, Separator)
    case None =>
    case Some(i) =>
      ComponentsAreNames(s[i + 1..]);
  }

  /** `Paths.get(s)`. */
  function Get(s: string): (p: Path)
    ensures ValidPath(p)
    ensures p.absolute <==> |s| > 0 && s[0] == Separator
  {
    ComponentsAreNames(s);
    Path(|s| > 0 && s[0] == Separator, Components(s))
  }

  /** `Paths.get(first, more)`: an empty `more` adds nothing, otherwise it is joined with '/'. */
  function GetChild(first: string, more: string): Path
  {
    Get(if more == "" then first else if first == "" then more else first + [Separator] + more)
  }

  /** `p.toFile().getName()`: the last name, or "" for a path without names. */
  function FileName(p: Path): string
  {
    if p.names == [] then "" else p.names[|p.names| - 1]
  }

  /** The names joined by the separator. */
  function Join(names: seq<string>): string
  {
    if names == [] then ""
    else if |names| == 1 then names[0]
    else names[0] + [Separator] + Join(names[1..])
  }

  /** `p.toString()`. */
  function Render(p: Path): string
  {
    (if p.absolute then [Separator] else []) + Join(p.names)
  }

  lemma JoinStartsWithFirstName(names: seq<string>)
    requires |names| > 0 && names[0] != ""
    ensures |Join(names)| > 0 && Join(names)[0] == names[0][0]
  {
  }

  /** A name alone is one component. */
  lemma ComponentsOfName(a: string)
    requires IsName(a)
    ensures Components(a) == [a]
  {
    IndexOfLacking(a, Separator);
  }

  /** A name followed by a separator contributes that name first. */
  lemma ComponentsAfterName(a: string, t: string)
    requires IsName(a)
    ensures Components(a + [Separator] + t) == [a] + Components(t)
  {
    var s := a + [Separator] + t;
    IndexOfAfterPrefix(a, Separator, t);
    assert s[..|a|] == a;
    assert s[|a| + 1..] == t;
  }

  /** Splitting the joined names gives the names back. */
  lemma {:induction false} ComponentsOfJoin(names: seq<string>)
    requires forall i :: 0 <= i < |names| ==> IsName(names[i])
    ensures Components(Join(names)) == names
    decreases |names|
  {
    if |names| == 1 {
      assert Join(names) == names[0];
      ComponentsOfName(names[0]);
    } else if |names| > 1 {
      var rest := names[1..];
      assert Join(names) == names[0] + [Separator] + Join(rest);
      ComponentsAfterName(names[0], Join(rest));
      ComponentsOfJoin(rest);
      assert names == [names[0]] + rest;
    }
  }

  /** The first occurrence of `c` in `s` stays first when text is appended. */
  lemma IndexOfExtended(s: string, c: char, t: string)
    requires IndexOf(s, c).Some?
    ensures IndexOf(s + t, c) == IndexOf(s, c)
  {
    var i := IndexOf(s, c).value;
    var u := s + t;
    assert u == u[..i] + [c] + u[i + 1..];
    assert u[..i] == s[..i];
    IndexOfAfterPrefix(u[..i], c, u[i + 1..]);
  }

  /** Splitting at a separator: the names before it, then the names after it. */
  lemma {:induction false} ComponentsAroundSeparator(a: string, b: string)
    ensures Components(a + [Separator] + b) == Components(a) + Components(b)
    decreases |a|
  {
    var s := a + [Separator] + b;
    match IndexOf(a, Separator)
    case None =>
      IndexOfAfterPrefix(a, Separator, b);
      assert s[..|a|] == a;
      assert s[|a| + 1..] == b;
    case Some(i) =>
      IndexOfExtended(a, Separator, [Separator] + b);
      assert s == a + ([Separator] + b);
      assert s[..i] == a[..i];
      assert s[i + 1..] == a[i + 1..] + [Separator] + b;
      ComponentsAroundSeparator(a[i + 1..], b);
      var head: seq<string> := if i == 0 then [] else [a[..i]];
      SeqAppendAssoc(head, Components(a[i + 1..]), Components(b));
  }

  lemma SeqAppendAssoc<T>(x: seq<T>, y: seq<T>, z: seq<T>)
    ensures (x + y) + z == x + (y + z)
  {
  }

  /**
   * The file name of a path ending in `/name`, with or without one trailing
   * separator, is `name`, whatever comes before it.
   */
  lemma FileNameAfterSeparator(prefix: string, name: string)
    requires IsName(name)
    ensures FileName(Get(prefix + [Separator] + name)) == name
    ensures FileName(Get(prefix + [Separator] + name + [Separator])) == name
  {
    ComponentsAroundSeparator(prefix, name);
    ComponentsOfName(name);
    var path := prefix + [Separator] + name;
    ComponentsAroundSeparator(path, "");
    assert path + [Separator] + "" == path + [Separator];
    assert Components("") == [];
  }

  /** A leading separator adds no name. */
  lemma LeadingSeparatorAddsNoName(s: string)
    ensures Components([Separator] + s) == Components(s)
  {
    assert IndexOf([Separator] + s, Separator) == Some(0);
    assert ([Separator] + s)[1..] == s;
  }

  /** Parsing a rendered path gives the path back: `Paths.get(p.toString())` equals `p`. */
  lemma GetOfRender(p: Path)
    requires ValidPath(p)
    ensures Get(Render(p)) == p
  {
    ComponentsOfJoin(p.names);
    if p.absolute {
      LeadingSeparatorAddsNoName(Join(p.names));
    } else if p.names != [] {
      assert Render(p) == Join(p.names);
      JoinStartsWithFirstName(p.names);
    }
  }
}
