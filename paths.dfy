/**
 * POSIX path operations as Python's `posixpath` performs them: `join`,
 * `dirname` and `normpath`. Paths are plain strings separated by '/'.
 */
module Paths {
  import Strings

  /** A single path component: non-empty and free of '/' */
  predicate IsComponent(s: string) {
    s != [] && '/' !in s
  }

  /** `os.path.join(a, b)`: an absolute `b` discards `a`; otherwise one '/' separates them. */
  function Join(a: string, b: string): string {
    if |b| > 0 && b[0] == '/' then b
    else if a == [] || a[|a| - 1] == '/' then a + b
    else a + "/" + b
  }

  /** `os.path.join(a, *parts)` */
  function JoinAll(a: string, parts: seq<string>): string
    decreases |parts|
  {
    if parts == [] then a else JoinAll(Join(a, parts[0]), parts[1..])
  }

  /** Joining components onto a directory that does not end in '/' just inserts separators. */
  lemma JoinComponent(a: string, b: string)
    requires a != [] && a[|a| - 1] != '/'
    requires IsComponent(b)
    ensures Join(a, b) == a + "/" + b
  {
  }

  /** `os.path.join(folder, category, id)` for a non-empty folder and two components. */
  lemma JoinThree(folder: string, c: string, i: string)
    requires folder != [] && folder[|folder| - 1] != '/'
    requires IsComponent(c) && IsComponent(i)
    ensures JoinAll(folder, [c, i]) == folder + "/" + c + "/" + i
  {
    var fc := folder + "/" + c;
    JoinComponent(folder, c);
    assert fc[|fc| - 1] == c[|c| - 1];
    JoinComponent(fc, i);
    calc {
      JoinAll(folder, [c, i]);
      JoinAll(Join(folder, c), [i]);
      JoinAll(fc, [i]);
      JoinAll(Join(fc, i), []);
    }
  }

  /** Position just after the last '/' of `p` (0 when there is none): `p.rfind('/') + 1` */
  function AfterLastSlash(p: string): (k: nat)
    ensures k <= |p|
    ensures k > 0 ==> p[k - 1] == '/'
    ensures forall j :: k <= j < |p| ==> p[j] != '/'
  {
    if p == [] then 0
    else if p[|p| - 1] == '/' then |p|
    else AfterLastSlash(p[..|p| - 1])
  }

  predicate AllSlashes(s: string) {
    forall j :: 0 <= j < |s| ==> s[j] == '/'
  }

  /** `s.rstrip('/')` */
  function StripTrailingSlashes(s: string): (r: string)
    ensures |r| <= |s| && r == s[..|r|]
    decreases |s|
  {
    if s != [] && s[|s| - 1] == '/' then StripTrailingSlashes(s[..|s| - 1]) else s
  }

  /** `os.path.dirname(p)` */
  function Dirname(p: string): string {
    var head := p[..AfterLastSlash(p)];
    if head != [] && !AllSlashes(head) then StripTrailingSlashes(head) else head
  }

  /** The directory part of `dir/name` is `dir` again, for a component `name`. */
  lemma DirnameOfJoin(dir: string, name: string)
    requires dir != [] && dir[|dir| - 1] != '/'
    requires IsComponent(name)
    ensures Dirname(Join(dir, name)) == dir
  {
    var p := dir + "/" + name;
    JoinComponent(dir, name);
    assert AfterLastSlash(p) == |dir| + 1 by {
      AfterLastSlashPast(dir + "/", name);
    }
    var head := p[..|dir| + 1];
    assert head == dir + "/";
    assert !AllSlashes(head) by {
      assert head[|dir| - 1] != '/';
    }
    assert head[..|head| - 1] == dir;
    assert StripTrailingSlashes(head) == StripTrailingSlashes(dir);
    assert Dirname(p) == StripTrailingSlashes(head);
  }

  lemma {:induction false} AfterLastSlashPast(a: string, b: string)
    requires a != [] && a[|a| - 1] == '/'
    requires '/' !in b
    ensures AfterLastSlash(a + b) == |a|
    decreases |b|
  {
    if b != [] {
      var s := a + b;
      assert s[..|s| - 1] == a + b[..|b| - 1];
      AfterLastSlashPast(a, b[..|b| - 1]);
    } else {
      assert a + b == a;
    }
  }

  /** The components of a path: `p.split('/')` */
  function Components(p: string): (r: seq<string>)
    ensures |r| >= 1
  {
    Strings.Split(p, '/')
  }

  /** Number of '/' characters at the start of `p` */
  function LeadingSlashes(p: string): (n: nat)
    ensures n <= |p|
  {
    if p != [] && p[0] == '/' then 1 + LeadingSlashes(p[1..]) else 0
  }

  /** The prefix `normpath` keeps: exactly two leading slashes stay two, any other positive number becomes one. */
  function RootSlashes(p: string): nat {
    var n := LeadingSlashes(p);
    if n == 0 then 0 else if n == 2 then 2 else 1
  }

  /**
   * The component loop of `normpath`: drop empty and "." components, let ".."
   * cancel the previous component (kept when nothing precedes it in a relative path).
   */
  function NormComponents(comps: seq<string>, acc: seq<string>, rooted: bool): seq<string>
    decreases |comps|
  {
    if comps == [] then acc
    else
      var c := comps[0];
      if c == "" || c == "." then NormComponents(comps[1..], acc, rooted)
      else if c != ".." || (!rooted && acc == []) || (acc != [] && acc[|acc| - 1] == "..") then
        NormComponents(comps[1..], acc + [c], rooted)
      else if acc != [] then NormComponents(comps[1..], acc[..|acc| - 1], rooted)
      else NormComponents(comps[1..], acc, rooted)
  }

  function Slashes(n: nat): string {
    if n == 0 then "" else "/" + Slashes(n - 1)
  }

  /** `os.path.normpath(p)` */
  function NormPath(p: string): string {
    if p == [] then "."
    else
      var root := RootSlashes(p);
      var r := Slashes(root) + Strings.Join("/", NormComponents(Components(p), [], root > 0));
      if r == [] then "." else r
  }

  lemma {:induction false} NormComponentsDot(comps: seq<string>, acc: seq<string>, rooted: bool)
    ensures NormComponents(comps + ["."], acc, rooted) == NormComponents(comps, acc, rooted)
    decreases |comps|
  {
    if comps == [] {
      assert comps + ["."] == ["."];
    } else {
      assert (comps + ["."])[1..] == comps[1..] + ["."];
      var c := comps[0];
      if c == "" || c == "." {
        NormComponentsDot(comps[1..], acc, rooted);
      } else if c != ".." || (!rooted && acc == []) || (acc != [] && acc[|acc| - 1] == "..") {
        NormComponentsDot(comps[1..], acc + [c], rooted);
      } else if acc != [] {
        NormComponentsDot(comps[1..], acc[..|acc| - 1], rooted);
      } else {
        NormComponentsDot(comps[1..], acc, rooted);
      }
    }
  }

  lemma {:induction false} SplitConcat(s: string, c: char, t: string)
    ensures Strings.Split(s + [c] + t, c) == Strings.Split(s, c) + Strings.Split(t, c)
    decreases |s|
  {
    if s == [] {
      assert s + [c] + t == [c] + t;
      Strings.SplitCons(t, c);
    } else {
      SplitConcat(s[1..], c, t);
      assert s == [s[0]] + s[1..];
      SplitConcatHead(s[0], s[1..], c, t);
    }
  }

  /** The step of `SplitConcat` from `r` to `[x] + r` */
  lemma SplitConcatHead(x: char, r: string, c: char, t: string)
    requires Strings.Split(r + [c] + t, c) == Strings.Split(r, c) + Strings.Split(t, c)
    ensures Strings.Split([x] + r + [c] + t, c) == Strings.Split([x] + r, c) + Strings.Split(t, c)
  {
    var u := r + [c] + t;
    assert [x] + r + [c] + t == [x] + u;
    if x == c {
      SplitConcatSep(r, c, t);
    } else {
      SplitConcatChar(x, r, c, t);
    }
  }

  lemma SplitConcatSep(r: string, c: char, t: string)
    requires Strings.Split(r + [c] + t, c) == Strings.Split(r, c) + Strings.Split(t, c)
    ensures Strings.Split([c] + (r + [c] + t), c) == Strings.Split([c] + r, c) + Strings.Split(t, c)
  {
    Strings.SplitCons(r + [c] + t, c);
    Strings.SplitCons(r, c);
    PiecesSep(Strings.Split([c] + (r + [c] + t), c), Strings.Split([c] + r, c), Strings.Split(r + [c] + t, c),
              Strings.Split(r, c), Strings.Split(t, c));
  }

  lemma SplitConcatChar(x: char, r: string, c: char, t: string)
    requires x != c
    requires Strings.Split(r + [c] + t, c) == Strings.Split(r, c) + Strings.Split(t, c)
    ensures Strings.Split([x] + (r + [c] + t), c) == Strings.Split([x] + r, c) + Strings.Split(t, c)
  {
    Strings.SplitPrepend(x, r + [c] + t, c);
    Strings.SplitPrepend(x, r, c);
    PiecesChar(x, Strings.Split([x] + (r + [c] + t), c), Strings.Split([x] + r, c), Strings.Split(r + [c] + t, c),
               Strings.Split(r, c), Strings.Split(t, c));
  }

  /** The list algebra behind a separator in front: `[""] + (a + b) == ([""] + a) + b` */
  lemma PiecesSep(whole: seq<string>, left: seq<string>, u: seq<string>, a: seq<string>, b: seq<string>)
    requires whole == [""] + u && u == a + b && left == [""] + a
    ensures whole == left + b
  {
    assert [""] + (a + b) == ([""] + a) + b;
  }

  /** The list algebra behind another character in front: it joins the first piece */
  lemma PiecesChar(x: char, whole: seq<string>, left: seq<string>, u: seq<string>, a: seq<string>, b: seq<string>)
    requires |a| >= 1 && |u| >= 1
    requires whole == [[x] + u[0]] + u[1..] && u == a + b && left == [[x] + a[0]] + a[1..]
    ensures whole == left + b
  {
    assert u[0] == a[0] && u[1..] == a[1..] + b;
    assert [[x] + a[0]] + (a[1..] + b) == ([[x] + a[0]] + a[1..]) + b;
  }

  lemma {:induction false} LeadingSlashesAppend(p: string, t: string)
    requires p != [] && p[|p| - 1] != '/'
    ensures LeadingSlashes(p + t) == LeadingSlashes(p)
    decreases |p|
  {
    if p[0] == '/' {
      assert (p + t)[1..] == p[1..] + t;
      LeadingSlashesAppend(p[1..], t);
    }
  }

  /**
   * A directory reported with a trailing "/." (the plugin runtime's
   * `<directory>/<Module>` with `Module = .`) normalises to the same path as
   * the directory itself.
   */
  lemma NormPathCurrentDir(p: string)
    requires p != [] && p[|p| - 1] != '/'
    ensures NormPath(p + "/.") == NormPath(p)
  {
    SplitConcat(p, '/', ".");
    assert p + "/." == p + ['/'] + ".";
    Strings.SplitFree(".", '/');
    LeadingSlashesAppend(p, "/.");
    NormComponentsDot(Components(p), [], RootSlashes(p) > 0);
  }
}
