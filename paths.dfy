/** POSIX path handling as Python's `posixpath` does it: `isabs`, `join`, `split('/')`,
    `normpath`, `abspath` and `dirname`. The workspace manager keys its cache by the
    paths these functions produce. */
module Paths {

  /** `os.path.isabs`. */
  predicate IsAbs(p: string) {
    |p| > 0 && p[0] == '/'
  }

  /** `os.path.join(a, b)`: an absolute `b` replaces `a`; otherwise one separator is put
      between them unless `a` is empty or already ends in one. */
  function Join(a: string, b: string): (r: string)
    ensures IsAbs(b) ==> r == b
    ensures IsAbs(a) || IsAbs(b) ==> IsAbs(r)
  {
    if IsAbs(b) then b
    else if a == "" || a[|a| - 1] == '/' then a + b
    else a + "/" + b
  }

  /** `s.split('/')`: always at least one piece, and no piece holds a separator. */
  function Split(s: string): (r: seq<string>)
    ensures |r| >= 1
    decreases |s|
  {
    if s == [] then [""]
    else
      var rest := Split(s[1..]);
      if s[0] == '/' then [""] + rest else [[s[0]] + rest[0]] + rest[1..]
  }

  /** `'/'.join(cs)`. */
  function JoinSlash(cs: seq<string>): string
    decreases |cs|
  {
    if cs == [] then "" else if |cs| == 1 then cs[0] else cs[0] + "/" + JoinSlash(cs[1..])
  }

  /** POSIX keeps exactly two leading slashes, and folds one or three and more into one. */
  function InitialSlashes(p: string): nat {
    if !IsAbs(p) then 0
    else if |p| >= 2 && p[1] == '/' && !(|p| >= 3 && p[2] == '/') then 2
    else 1
  }

  function Slashes(n: nat): string {
    if n == 0 then "" else if n == 1 then "/" else "//"
  }

  /** One turn of normpath's loop: drop `''` and `'.'`, let `'..'` cancel the previous
      component, keep a leading `'..'` only in a relative path. */
  function NormStep(acc: seq<string>, comp: string, abs: bool): seq<string> {
    if comp == "" || comp == "." then acc
    else if comp != ".." || (!abs && acc == []) || (acc != [] && acc[|acc| - 1] == "..") then acc + [comp]
    else if acc != [] then acc[..|acc| - 1]
    else acc
  }

  function NormComps(comps: seq<string>, abs: bool, acc: seq<string>): seq<string>
    decreases |comps|
  {
    if comps == [] then acc else NormComps(comps[1..], abs, NormStep(acc, comps[0], abs))
  }

  /** `os.path.normpath`. */
  function NormPath(p: string): (r: string)
    ensures r != ""
    ensures IsAbs(p) ==> IsAbs(r)
  {
    if p == "" then "."
    else
      var n := InitialSlashes(p);
      var r := Slashes(n) + JoinSlash(NormComps(Split(p), n > 0, []));
      if r == "" then "." else r
  }

  /** `os.path.abspath`, with the process's working directory `cwd` as a parameter. */
  function AbsPath(cwd: string, p: string): (r: string)
    ensures IsAbs(cwd) ==> IsAbs(r)
  {
    if IsAbs(p) then NormPath(p) else NormPath(Join(cwd, p))
  }

  /** A path `normpath` leaves as it is. */
  predicate IsNormal(p: string) {
    NormPath(p) == p
  }

  /** Index of the last separator, or -1 (`str.rfind('/')`). */
  function RFindSlash(p: string): (i: int)
    ensures -1 <= i < |p|
    decreases |p|
  {
    if p == "" then -1 else if p[|p| - 1] == '/' then |p| - 1 else RFindSlash(p[..|p| - 1])
  }

  predicate AllSlashes(s: string) {
    forall i :: 0 <= i < |s| ==> s[i] == '/'
  }

  function RStripSlashes(s: string): (r: string)
    ensures |r| <= |s| && r == s[..|r|]
    decreases |s|
  {
    if s != "" && s[|s| - 1] == '/' then RStripSlashes(s[..|s| - 1]) else s
  }

  /** `os.path.dirname`. */
  function Dirname(p: string): (r: string)
    ensures |r| <= |p| && r == p[..|r|]
  {
    var head := p[..RFindSlash(p) + 1];
    if head != "" && !AllSlashes(head) then RStripSlashes(head) else head
  }

  // ---------------------------------------------------------------------------
  // Lemmas

  /** Components of a normalised absolute path: no empty, `.`, `..` or separator-holding piece. */
  ghost predicate NormalAbsComps(cs: seq<string>) {
    forall i :: 0 <= i < |cs| ==> cs[i] != "" && cs[i] != "." && cs[i] != ".." && '/' !in cs[i]
  }

  ghost predicate NoSlashIn(cs: seq<string>) {
    forall i :: 0 <= i < |cs| ==> '/' !in cs[i]
  }

  lemma {:induction false} SplitNoSlash(s: string)
    ensures NoSlashIn(Split(s))
    decreases |s|
  {
    if s != [] {
      SplitNoSlash(s[1..]);
    }
  }

  lemma {:induction false} SplitPiece(c: string)
    requires '/' !in c
    ensures Split(c) == [c]
    decreases |c|
  {
    if c != [] {
      SplitPiece(c[1..]);
      assert c[0] in c;
      assert [c[0]] + c[1..] == c;
    }
  }

  lemma {:induction false} SplitConcat(c: string, t: string)
    requires '/' !in c
    ensures Split(c + "/" + t) == [c] + Split(t)
    decreases |c|
  {
    if c == [] {
      assert c + "/" + t == "/" + t;
      assert ("/" + t)[1..] == t;
    } else {
      assert c[0] in c;
      assert (c + "/" + t)[0] == c[0];
      assert (c + "/" + t)[1..] == c[1..] + "/" + t;
      SplitConcat(c[1..], t);
      assert [c[0]] + c[1..] == c;
    }
  }

  /** Splitting what `'/'.join` produced gives the pieces back. */
  lemma {:induction false} SplitJoinSlash(cs: seq<string>)
    requires |cs| >= 1 && NoSlashIn(cs)
    ensures Split(JoinSlash(cs)) == cs
    decreases |cs|
  {
    if |cs| == 1 {
      SplitPiece(cs[0]);
    } else {
      SplitConcat(cs[0], JoinSlash(cs[1..]));
      SplitJoinSlash(cs[1..]);
      assert cs == [cs[0]] + cs[1..];
    }
  }

  lemma {:induction false} NormCompsKeepsNormal(comps: seq<string>, acc: seq<string>)
    requires NoSlashIn(comps) && NormalAbsComps(acc)
    ensures NormalAbsComps(NormComps(comps, true, acc))
    decreases |comps|
  {
    if comps != [] {
      NormCompsKeepsNormal(comps[1..], NormStep(acc, comps[0], true));
    }
  }

  lemma {:induction false} NormCompsOfNormal(cs: seq<string>, acc: seq<string>)
    requires NormalAbsComps(cs)
    ensures NormComps(cs, true, acc) == acc + cs
    decreases |cs|
  {
    if cs != [] {
      NormCompsOfNormal(cs[1..], acc + [cs[0]]);
      assert acc + [cs[0]] + cs[1..] == acc + cs;
    }
  }

  lemma NormCompsSkipsEmpty(comps: seq<string>)
    ensures NormComps([""] + comps, true, []) == NormComps(comps, true, [])
  {
    assert ([""] + comps)[1..] == comps;
  }

  /** Normalising keeps a path absolute. */
  lemma NormPathKeepsAbs(p: string)
    requires IsAbs(p)
    ensures IsAbs(NormPath(p))
  {
  }

  lemma NormalAbsShape(p: string)
    requires IsAbs(p)
    ensures InitialSlashes(p) == 1 || InitialSlashes(p) == 2
    ensures NormalAbsComps(NormComps(Split(p), true, []))
    ensures NormPath(p) == Slashes(InitialSlashes(p)) + JoinSlash(NormComps(Split(p), true, []))
  {
    SplitNoSlash(p);
    NormCompsKeepsNormal(Split(p), []);
  }

  lemma InitialSlashesOfNormal(n: nat, cs: seq<string>)
    requires n == 1 || n == 2
    requires NormalAbsComps(cs)
    ensures InitialSlashes(Slashes(n) + JoinSlash(cs)) == n
  {
    var j := JoinSlash(cs);
    if cs != [] {
      assert cs[0] != "" && '/' !in cs[0];
      assert j[0] == cs[0][0];
      assert cs[0][0] in cs[0];
    }
  }

  lemma SplitSlashes(n: nat, j: string)
    requires n == 1 || n == 2
    ensures n == 1 ==> Split(Slashes(n) + j) == [""] + Split(j)
    ensures n == 2 ==> Split(Slashes(n) + j) == [""] + ([""] + Split(j))
  {
    if n == 1 {
      assert ("/" + j)[1..] == j;
    } else {
      assert ("//" + j)[1..] == "/" + j;
      assert ("/" + j)[1..] == j;
    }
  }

  lemma NormCompsOfSlashed(n: nat, cs: seq<string>)
    requires n == 1 || n == 2
    requires NormalAbsComps(cs)
    ensures NormComps(Split(Slashes(n) + JoinSlash(cs)), true, []) == cs
  {
    var j := JoinSlash(cs);
    if cs != [] {
      SplitJoinSlash(cs);
    } else {
      assert Split(j) == [""];
      NormCompsSkipsEmpty([]);
    }
    NormCompsOfNormal(cs, []);
    assert NormComps(Split(j), true, []) == cs;
    SplitSlashes(n, j);
    NormCompsSkipsEmpty(Split(j));
    if n == 2 {
      NormCompsSkipsEmpty([""] + Split(j));
    }
  }

  /** `normpath` is idempotent on absolute paths: what it returns is already normal. */
  lemma NormPathIdempotent(p: string)
    requires IsAbs(p)
    ensures IsNormal(NormPath(p))
  {
    NormalAbsShape(p);
    var n := InitialSlashes(p);
    var cs := NormComps(Split(p), true, []);
    var q := Slashes(n) + JoinSlash(cs);
    InitialSlashesOfNormal(n, cs);
    NormCompsOfSlashed(n, cs);
    assert NormPath(q) == q;
  }

  lemma JoinKeepsAbs(a: string, b: string)
    requires IsAbs(a)
    ensures IsAbs(Join(a, b))
  {
  }

  /** `abspath` against an absolute working directory yields a normal absolute path. */
  lemma AbsPathNormal(cwd: string, p: string)
    requires IsAbs(cwd)
    ensures IsAbs(AbsPath(cwd, p)) && IsNormal(AbsPath(cwd, p))
  {
    var q := if IsAbs(p) then p else Join(cwd, p);
    assert IsAbs(q);
    NormPathKeepsAbs(q);
    NormPathIdempotent(q);
  }

  lemma {:induction false} RFindSlashSkips(s: string, t: string)
    requires '/' !in t
    ensures RFindSlash(s + t) == RFindSlash(s)
    decreases |t|
  {
    if t != [] {
      assert (s + t)[..|s + t| - 1] == s + t[..|t| - 1];
      RFindSlashSkips(s, t[..|t| - 1]);
    } else {
      assert s + t == s;
    }
  }

  /** The directory of `join(d, name)` is `d`, for a plain name and a `d` without a trailing separator. */
  lemma DirnameOfJoin(d: string, name: string)
    requires d != "" && d[|d| - 1] != '/'
    requires name != "" && '/' !in name && name[0] != '/'
    ensures Dirname(Join(d, name)) == d
  {
    var p := Join(d, name);
    assert p == (d + "/") + name;
    RFindSlashSkips(d + "/", name);
    assert RFindSlash(d + "/") == |d|;
    assert p[..|d| + 1] == d + "/";
    assert !AllSlashes(d + "/") by {
      assert (d + "/")[|d| - 1] == d[|d| - 1];
    }
    assert (d + "/")[..|d|] == d;
    assert RStripSlashes(d + "/") == RStripSlashes(d);
    assert RStripSlashes(d) == d;
  }

  lemma {:induction false} SplitAppendSlash(s: string)
    ensures Split(s + "/") == Split(s) + [""]
    decreases |s|
  {
    if s == [] {
      assert s + "/" == "/";
      assert "/"[1..] == "";
    } else {
      assert (s + "/")[0] == s[0];
      assert (s + "/")[1..] == s[1..] + "/";
      SplitAppendSlash(s[1..]);
    }
  }

  lemma {:induction false} NormCompsAppend(comps: seq<string>, x: string, abs: bool, acc: seq<string>)
    ensures NormComps(comps + [x], abs, acc) == NormStep(NormComps(comps, abs, acc), x, abs)
    decreases |comps|
  {
    if comps == [] {
      assert [] + [x] == [x];
      assert [x][1..] == [];
    } else {
      assert (comps + [x])[0] == comps[0];
      assert (comps + [x])[1..] == comps[1..] + [x];
      NormCompsAppend(comps[1..], x, abs, NormStep(acc, comps[0], abs));
    }
  }

  /** A trailing separator does not change what `normpath` makes of an absolute path. */
  lemma NormPathTrailingSlash(p: string)
    requires IsAbs(p) && p[|p| - 1] != '/'
    ensures NormPath(p + "/") == NormPath(p)
  {
    SplitAppendSlash(p);
    NormCompsAppend(Split(p), "", true, []);
    assert InitialSlashes(p + "/") == InitialSlashes(p) by {
      assert (p + "/")[0] == p[0];
      if |p| >= 2 {
        assert (p + "/")[1] == p[1];
      }
      if |p| >= 3 {
        assert (p + "/")[2] == p[2];
      }
    }
  }

  lemma {:induction false} JoinSlashLast(cs: seq<string>)
    requires |cs| >= 1 && NormalAbsComps(cs)
    ensures JoinSlash(cs) != "" && JoinSlash(cs)[|JoinSlash(cs)| - 1] != '/'
    decreases |cs|
  {
    if |cs| == 1 {
      var c := cs[0];
      assert c[|c| - 1] in c;
    } else {
      JoinSlashLast(cs[1..]);
      var t := JoinSlash(cs[1..]);
      assert JoinSlash(cs) == cs[0] + "/" + t;
      assert JoinSlash(cs)[|JoinSlash(cs)| - 1] == t[|t| - 1];
    }
  }

  /** A normal absolute path ends in a separator only when it is a bare root. */
  lemma NormalTrailingSlash(p: string)
    requires IsAbs(p) && IsNormal(p) && p[|p| - 1] == '/'
    ensures p == "/" || p == "//"
  {
    NormalAbsShape(p);
    var cs := NormComps(Split(p), true, []);
    if cs != [] {
      JoinSlashLast(cs);
      assert false;
    }
  }
}
