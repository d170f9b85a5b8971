/**
 * The helpers the importer takes from Node's `path` library, from
 * `path-parse` and from `String.prototype`: `path.resolve` with one and with
 * two arguments, `pathParse(p).dir`, and the `indexOf(...) === 0` prefix
 * test. Paths are POSIX strings; '/' separates segments. `path.resolve` is
 * lexical in Node as well: it joins its arguments onto the working directory
 * and normalises the result, dropping empty and "." segments, letting ".."
 * climb one directory (never above the root), and removing a trailing slash.
 */
module Paths {

  /** A path that starts at the file-system root. */
  predicate IsAbsolute(p: string) {
    |p| > 0 && p[0] == '/'
  }

  /** `sub` occurs in `s` starting at index `j`. */
  predicate OccursAt(s: string, sub: string, j: int) {
    0 <= j && j + |sub| <= |s| && s[j..j + |sub|] == sub
  }

  /** `s.indexOf(sub)`: the first index at which `sub` occurs in `s`, or -1 when it occurs nowhere. */
  function IndexOf(s: string, sub: string): (r: int)
    ensures r == -1 || OccursAt(s, sub, r)
    ensures forall j :: 0 <= j && (r == -1 || j < r) ==> !OccursAt(s, sub, j)
    decreases |s|
  {
    if |sub| <= |s| && s[..|sub|] == sub then 0
    else if |sub| >= |s| then -1
    else
      OccursShift(s, sub);
      var k := IndexOf(s[1..], sub);
      if k < 0 then -1 else k + 1
  }

  /** Dropping the first character moves every occurrence one place to the left. */
  lemma OccursShift(s: string, sub: string)
    requires |s| > 0
    ensures forall j {:trigger OccursAt(s[1..], sub, j)} :: 0 <= j ==> (OccursAt(s[1..], sub, j) <==> OccursAt(s, sub, j + 1))
    ensures forall j {:trigger OccursAt(s, sub, j)} :: 1 <= j ==> (OccursAt(s, sub, j) <==> OccursAt(s[1..], sub, j - 1))
  {
  }

  /** `prefix` is a prefix of `s`. */
  predicate StartsWith(s: string, prefix: string) {
    |prefix| <= |s| && s[..|prefix|] == prefix
  }

  /** The importer's test `s.indexOf(prefix) === 0` holds exactly when `prefix` is a prefix of `s`. */
  lemma IndexOfZero(s: string, prefix: string)
    ensures IndexOf(s, prefix) == 0 <==> StartsWith(s, prefix)
  {
  }

  /** Index of the first '/' in `s`, or `|s|` when there is none. */
  function IndexOfSlash(s: string): (r: nat)
    ensures r <= |s|
    ensures forall i :: 0 <= i < r ==> s[i] != '/'
    ensures r < |s| ==> s[r] == '/'
  {
    if s == [] || s[0] == '/' then 0 else 1 + IndexOfSlash(s[1..])
  }

  /** A slash-free prefix followed by '/' is found by IndexOfSlash, and the two sides split back out. */
  lemma IndexOfSlashAfter(a: string, b: string)
    requires '/' !in a
    ensures IndexOfSlash(a + "/" + b) == |a|
    ensures (a + "/" + b)[..|a|] == a && (a + "/" + b)[|a| + 1..] == b
  {
    var s := a + "/" + b;
    var r := IndexOfSlash(s);
    assert s[|a|] == '/';
  }

  /** `p.split('/')`: the pieces between the slashes, in order; there is always at least one. */
  function Split(p: string): (r: seq<string>)
    ensures |r| >= 1
    ensures forall i :: 0 <= i < |r| ==> '/' !in r[i]
    decreases |p|
  {
    var i := IndexOfSlash(p);
    if i == |p| then [p] else [p[..i]] + Split(p[i + 1..])
  }

  /** `segs.join('/')`. */
  function Join(segs: seq<string>): string
    requires |segs| >= 1
  {
    if |segs| == 1 then segs[0] else segs[0] + "/" + Join(segs[1..])
  }

  /** A segment that names a directory entry: not empty, not "." or "..", and slash-free. */
  predicate IsName(seg: string) {
    seg != "" && seg != "." && seg != ".." && '/' !in seg
  }

  /** Every segment is a name. */
  predicate AllNames(segs: seq<string>) {
    forall i :: 0 <= i < |segs| ==> IsName(segs[i])
  }

  /** A relative path made of names only, such as `ingredient/index.scss`. */
  predicate NamesOnly(rel: string) {
    AllNames(Split(rel))
  }

  /** A path with no ".." segment: it never climbs. */
  predicate NoParent(rel: string) {
    forall i :: 0 <= i < |Split(rel)| ==> Split(rel)[i] != ".."
  }

  /** One step of the normalisation: "" and "." are skipped, ".." pops (not above the root), a name is pushed. */
  function Push(names: seq<string>, seg: string): seq<string> {
    if seg == "" || seg == "." then names
    else if seg == ".." then (if names == [] then [] else names[..|names| - 1])
    else names + [seg]
  }

  /** The normalisation of `segs`, starting in the directory `names`: only names remain. */
  function Normalize(names: seq<string>, segs: seq<string>): (r: seq<string>)
    ensures AllNames(names) && (forall i :: 0 <= i < |segs| ==> '/' !in segs[i]) ==> AllNames(r)
    decreases |segs|
  {
    if segs == [] then names else Normalize(Push(names, segs[0]), segs[1..])
  }

  /** The absolute path of the directory reached through `names` from the root. */
  function Rooted(names: seq<string>): string {
    if names == [] then "/" else "/" + Join(names)
  }

  /** `p` taken from the root and normalised. */
  function Normal(p: string): (r: string)
    ensures IsAbsolute(r)
  {
    Rooted(Normalize([], Split(p)))
  }

  /** `p` made absolute against the working directory, before normalisation. */
  function Anchor(cwd: string, p: string): string {
    if IsAbsolute(p) then p else cwd + "/" + p
  }

  /** The entry `rel` inside the absolute directory `dir`. */
  function Child(dir: string, rel: string): string {
    if dir == "/" then "/" + rel else dir + "/" + rel
  }

  /**
   * `path.resolve(p)`: an absolute, normalised path. A path of names is the
   * entry of that name in the working directory.
   */
  function Absolute(cwd: string, p: string): (r: string)
    ensures IsAbsolute(r) && Normal(r) == r
    ensures NamesOnly(p) ==> r == Child(Normal(cwd), p)
  {
    NormalIsFixed(Anchor(cwd, p));
    assert NamesOnly(p) ==> Normal(Anchor(cwd, p)) == Child(Normal(cwd), p) by {
      if NamesOnly(p) {
        NamesAreRelative(p);
        NormalChild(cwd, p);
      }
    }
    Normal(Anchor(cwd, p))
  }

  /** `path.resolve` leaves an absolute path already in normal form, such as a pantry root, as it is. */
  lemma AbsoluteOfNormal(cwd: string, p: string)
    requires IsAbsolute(p) && Normal(p) == p
    ensures Absolute(cwd, p) == p
  {
  }

  /**
   * `path.resolve(base, rel)`: an absolute `rel` wins, otherwise `rel` is
   * joined onto the absolute form of `base`; the result is normalised. A
   * path of names lands inside `base`, and a relative path that never climbs
   * stays under `base`.
   */
  function Resolve(cwd: string, base: string, rel: string): (r: string)
    ensures IsAbsolute(r) && Normal(r) == r
    ensures IsAbsolute(rel) ==> r == Absolute(cwd, rel)
    ensures NamesOnly(rel) ==> r == Child(Absolute(cwd, base), rel)
    ensures !IsAbsolute(rel) && NoParent(rel) ==> StartsWith(r, Absolute(cwd, base))
  {
    if IsAbsolute(rel) then Absolute(cwd, rel)
    else
      NormalIsFixed(Anchor(cwd, base) + "/" + rel);
      assert NamesOnly(rel) ==> Normal(Anchor(cwd, base) + "/" + rel) == Child(Absolute(cwd, base), rel) by {
        if NamesOnly(rel) {
          NormalChild(Anchor(cwd, base), rel);
        }
      }
      assert NoParent(rel) ==> StartsWith(Normal(Anchor(cwd, base) + "/" + rel), Absolute(cwd, base)) by {
        if NoParent(rel) {
          NormalBelow(Anchor(cwd, base), rel);
        }
      }
      Normal(Anchor(cwd, base) + "/" + rel)
  }

  /**
   * `pathParse(p).dir`: everything before the last '/', "/" when that
   * slash is the first character, "" when there is none.
   */
  function Dir(p: string): (r: string)
    ensures StartsWith(p, r)
    decreases |p|
  {
    if p == "" then ""
    else if p[|p| - 1] == '/' then (if |p| == 1 then "/" else p[..|p| - 1])
    else Dir(p[..|p| - 1])
  }

  /** A slash-free string is a single segment. */
  lemma SplitSingle(seg: string)
    requires '/' !in seg
    ensures Split(seg) == [seg]
  {
  }

  /** A slash already present in `a` is still the first one after anything is appended. */
  lemma {:induction false} IndexOfSlashExtend(a: string, t: string)
    requires IndexOfSlash(a) < |a|
    ensures IndexOfSlash(a + t) == IndexOfSlash(a)
    decreases |a|
  {
    if a[0] != '/' {
      assert (a + t)[1..] == a[1..] + t;
      IndexOfSlashExtend(a[1..], t);
    }
  }

  /** A string whose first slash lies past its end has no slash. */
  lemma NoSlash(a: string)
    requires IndexOfSlash(a) == |a|
    ensures '/' !in a
  {
  }

  /** Splitting distributes over a join at '/'. */
  lemma {:induction false} SplitConcat(a: string, b: string)
    ensures Split(a + "/" + b) == Split(a) + Split(b)
    decreases |a|
  {
    var s := a + "/" + b;
    var i := IndexOfSlash(a);
    if i == |a| {
      assert Split(s) == [a] + Split(b) by {
        NoSlash(a);
        IndexOfSlashAfter(a, b);
      }
    } else {
      var rest := a[i + 1..];
      calc {
        Split(s);
      == { assert s == a + ("/" + b);
           IndexOfSlashExtend(a, "/" + b);
           assert s[..i] == a[..i] && s[i + 1..] == rest + "/" + b; }
        [a[..i]] + Split(rest + "/" + b);
      == { SplitConcat(rest, b); }
        [a[..i]] + (Split(rest) + Split(b));
      ==
        Split(a) + Split(b);
      }
    }
  }

  /** Joining the pieces of a split gives the path back. */
  lemma {:induction false} JoinSplit(p: string)
    ensures Join(Split(p)) == p
    decreases |p|
  {
    var i := IndexOfSlash(p);
    if i < |p| {
      var rest := Split(p[i + 1..]);
      calc {
        Join(Split(p));
      == { assert Split(p) == [p[..i]] + rest;
           assert ([p[..i]] + rest)[1..] == rest; }
        p[..i] + "/" + Join(rest);
      == { JoinSplit(p[i + 1..]); }
        p[..i] + "/" + p[i + 1..];
      ==
        p;
      }
    }
  }

  /** Joining distributes over concatenation. */
  lemma {:induction false} JoinAppend(x: seq<string>, y: seq<string>)
    requires |x| >= 1 && |y| >= 1
    ensures Join(x + y) == Join(x) + "/" + Join(y)
    decreases |x|
  {
    if |x| == 1 {
      assert (x + y)[1..] == y;
    } else {
      assert (x + y)[1..] == x[1..] + y;
      JoinAppend(x[1..], y);
    }
  }

  /** Splitting a join of slash-free segments gives the segments back. */
  lemma {:induction false} SplitJoin(segs: seq<string>)
    requires |segs| >= 1
    requires forall i :: 0 <= i < |segs| ==> '/' !in segs[i]
    ensures Split(Join(segs)) == segs
    decreases |segs|
  {
    SplitSingle(segs[0]);
    if |segs| > 1 {
      SplitConcat(segs[0], Join(segs[1..]));
      SplitJoin(segs[1..]);
    }
  }

  /** A path of names does not start at the root. */
  lemma NamesAreRelative(p: string)
    ensures IsAbsolute(p) ==> !NamesOnly(p)
  {
    if IsAbsolute(p) {
      assert Split(p)[0] == "";
    }
  }

  /** The normalisation of a concatenation continues from the normalisation of its first part. */
  lemma {:induction false} NormalizeAppend(names: seq<string>, x: seq<string>, y: seq<string>)
    ensures Normalize(names, x + y) == Normalize(Normalize(names, x), y)
    decreases |x|
  {
    if x == [] {
      assert x + y == y;
    } else {
      assert (x + y)[0] == x[0];
      assert (x + y)[1..] == x[1..] + y;
      NormalizeAppend(Push(names, x[0]), x[1..], y);
    }
  }

  /** Names are pushed as they are. */
  lemma {:induction false} NormalizeNames(names: seq<string>, segs: seq<string>)
    requires AllNames(segs)
    ensures Normalize(names, segs) == names + segs
    decreases |segs|
  {
    if segs != [] {
      NormalizeNames(names + [segs[0]], segs[1..]);
      assert names + [segs[0]] + segs[1..] == names + segs;
    }
  }

  /** Without "..", normalisation only adds to the directory it starts in. */
  lemma {:induction false} NormalizeGrows(names: seq<string>, segs: seq<string>)
    requires forall i :: 0 <= i < |segs| ==> segs[i] != ".."
    ensures names <= Normalize(names, segs)
    decreases |segs|
  {
    if segs != [] {
      var next := Push(names, segs[0]);
      assert names <= next;
      NormalizeGrows(next, segs[1..]);
    }
  }

  /** A join is at least as long as its first segment. */
  lemma JoinLength(segs: seq<string>)
    requires |segs| >= 1
    ensures |Join(segs)| >= |segs[0]|
  {
  }

  /** The path of a deeper directory is the child path of the shallower one. */
  lemma RootedAppend(names: seq<string>, more: seq<string>)
    requires AllNames(names) && |more| >= 1
    ensures Rooted(names + more) == Child(Rooted(names), Join(more))
  {
    if names == [] {
      assert names + more == more;
    } else {
      assert IsName(names[0]);
      JoinLength(names);
      RootedAppendBelow(names, more);
    }
  }

  /** RootedAppend below the root. */
  lemma RootedAppendBelow(names: seq<string>, more: seq<string>)
    requires |names| >= 1 && |more| >= 1
    ensures Rooted(names + more) == Rooted(names) + "/" + Join(more)
  {
    assert names + more != [];
    JoinAppend(names, more);
    SlashRegroup(Join(names), Join(more));
  }

  /** Regrouping a rooted join. */
  lemma SlashRegroup(a: string, b: string)
    ensures "/" + (a + "/" + b) == ("/" + a) + "/" + b
  {
  }

  /** A directory's path is a prefix of the path of any directory below it. */
  lemma RootedPrefix(names: seq<string>, all: seq<string>)
    requires names <= all && AllNames(all)
    ensures StartsWith(Rooted(all), Rooted(names))
  {
    if |all| > |names| {
      var more := all[|names|..];
      assert all == names + more;
      assert forall i :: 0 <= i < |names| ==> names[i] == all[i];
      RootedAppend(names, more);
      var d := Rooted(names);
      if d == "/" {
        assert ("/" + Join(more))[..1] == "/";
      } else {
        assert (d + "/" + Join(more))[..|d|] == d;
      }
    } else {
      assert names == all;
    }
  }

  /** A normalised path normalises to itself. */
  lemma NormalRooted(names: seq<string>)
    requires AllNames(names)
    ensures Normal(Rooted(names)) == Rooted(names)
  {
    RootedNames(names);
  }

  /** Normalisation is idempotent. */
  lemma NormalIsFixed(p: string)
    ensures Normal(Normal(p)) == Normal(p)
  {
    NormalRooted(Normalize([], Split(p)));
  }

  /** Appending a path of names and normalising equals normalising first and then descending. */
  lemma NormalChild(p: string, rel: string)
    requires NamesOnly(rel)
    ensures Normal(p + "/" + rel) == Child(Normal(p), rel)
  {
    var names := Normalize([], Split(p));
    SplitConcat(p, rel);
    NormalizeAppend([], Split(p), Split(rel));
    NormalizeNames(names, Split(rel));
    RootedAppend(names, Split(rel));
    JoinSplit(rel);
  }

  /** Appending a path with no ".." and normalising stays under the normalised path. */
  lemma NormalBelow(p: string, rel: string)
    requires NoParent(rel)
    ensures StartsWith(Normal(p + "/" + rel), Normal(p))
  {
    var names := Normalize([], Split(p));
    SplitConcat(p, rel);
    NormalizeAppend([], Split(p), Split(rel));
    NormalizeGrows(names, Split(rel));
    RootedPrefix(names, Normalize(names, Split(rel)));
  }

  /** An entry inside a directory lies under whatever the directory lies under. */
  lemma ChildBelow(dir: string, rel: string, prefix: string)
    requires StartsWith(dir, prefix)
    ensures StartsWith(Child(dir, rel), prefix)
  {
  }

  /** A leading "./" changes nothing: `path.resolve(base, './x')` is `path.resolve(base, 'x')`. */
  lemma DotSlashIsTransparent(cwd: string, base: string, rel: string)
    requires !IsAbsolute(rel)
    ensures Resolve(cwd, base, "./" + rel) == Resolve(cwd, base, rel)
  {
    var a := Anchor(cwd, base);
    var names := Normalize([], Split(a));
    assert "./" + rel == "." + "/" + rel;
    SplitSingle(".");
    SplitConcat(".", rel);
    SplitConcat(a, "./" + rel);
    SplitConcat(a, rel);
    assert Split(a + "/" + ("./" + rel)) == Split(a) + (["."] + Split(rel));
    NormalizeAppend([], Split(a), ["."] + Split(rel));
    NormalizeAppend(names, ["."], Split(rel));
    NormalizeAppend([], Split(a), Split(rel));
  }

  /** The directory of `d/f` is `d`, and "/" when `d` is empty: `pathParse` cuts at the last '/'. */
  lemma {:induction false} DirOfFile(d: string, f: string)
    requires '/' !in f
    ensures Dir(d + "/" + f) == (if d == "" then "/" else d)
    decreases |f|
  {
    var p := d + "/" + f;
    if f == "" {
      assert p == d + "/" && p[..|p| - 1] == d;
    } else {
      assert p[|p| - 1] == f[|f| - 1];
      assert p[..|p| - 1] == d + "/" + f[..|f| - 1];
      DirOfFile(d, f[..|f| - 1]);
    }
  }

  /** The directory of a normalised path is its parent; the root is its own. */
  lemma DirOfRooted(names: seq<string>)
    requires AllNames(names)
    ensures Dir(Rooted(names)) == Rooted(if names == [] then [] else names[..|names| - 1])
  {
    if names != [] {
      var up := names[..|names| - 1];
      var last := names[|names| - 1];
      assert IsName(last);
      if up == [] {
        assert Rooted(names) == "" + "/" + last;
        DirOfFile("", last);
      } else {
        assert names == up + [last];
        RootedAppendBelow(up, [last]);
        DirOfFile(Rooted(up), last);
      }
    }
  }

  /**
   * A leading "../" climbs one directory: `path.resolve(base, '../x')` is
   * `x` resolved from the directory of the absolute `base`.
   */
  lemma ParentClimbs(cwd: string, base: string, rel: string)
    requires !IsAbsolute(rel)
    ensures Resolve(cwd, base, "../" + rel) == Resolve(cwd, Dir(Absolute(cwd, base)), rel)
  {
    var names := Normalize([], Split(Anchor(cwd, base)));
    var up := Push(names, "..");
    calc {
      Resolve(cwd, base, "../" + rel);
    == { ParentFrom(cwd, base, rel); }
      Rooted(Normalize(up, Split(rel)));
    == { ResolveFromRooted(cwd, up, rel); }
      Resolve(cwd, Rooted(up), rel);
    == { assert Absolute(cwd, base) == Rooted(names);
         DirOfRooted(names); }
      Resolve(cwd, Dir(Absolute(cwd, base)), rel);
    }
  }

  /** Resolving "../rel" continues normalising `rel` from the parent of `base`'s names. */
  lemma ParentFrom(cwd: string, base: string, rel: string)
    requires !IsAbsolute(rel)
    ensures Resolve(cwd, base, "../" + rel)
         == Rooted(Normalize(Push(Normalize([], Split(Anchor(cwd, base))), ".."), Split(rel)))
  {
    var a := Anchor(cwd, base);
    var names := Normalize([], Split(a));
    var segs := [".."] + Split(rel);
    calc {
      Resolve(cwd, base, "../" + rel);
    == { assert ("../" + rel)[0] == '.'; }
      Normal(a + "/" + ("../" + rel));
    == { NormalJoin(a, "../" + rel); }
      Rooted(Normalize(names, Split("../" + rel)));
    == { ParentSplit(rel); }
      Rooted(Normalize(names, segs));
    == { assert segs[0] == ".." && segs[1..] == Split(rel); }
      Rooted(Normalize(Push(names, ".."), Split(rel)));
    }
  }

  /** "../rel" splits into ".." and the pieces of `rel`. */
  lemma ParentSplit(rel: string)
    ensures Split("../" + rel) == [".."] + Split(rel)
  {
    assert "../" + rel == ".." + "/" + rel;
    SplitSingle("..");
    SplitConcat("..", rel);
  }

  /** Resolving a relative path from a normalised directory continues normalising from its names. */
  lemma ResolveFromRooted(cwd: string, names: seq<string>, rel: string)
    requires AllNames(names) && !IsAbsolute(rel)
    ensures Resolve(cwd, Rooted(names), rel) == Rooted(Normalize(names, Split(rel)))
  {
    var d := Rooted(names);
    assert IsAbsolute(d);
    RootedNames(names);
    NormalJoin(d, rel);
  }

  /** Normalising `p/rel` continues from the names of `p`. */
  lemma NormalJoin(p: string, rel: string)
    ensures Normal(p + "/" + rel) == Rooted(Normalize(Normalize([], Split(p)), Split(rel)))
  {
    SplitConcat(p, rel);
    NormalizeAppend([], Split(p), Split(rel));
  }

  /** The names of a normalised path are recovered by normalising it. */
  lemma RootedNames(names: seq<string>)
    requires AllNames(names)
    ensures Normalize([], Split(Rooted(names))) == names
  {
    SplitSingle("");
    if names == [] {
      assert "/" == "" + "/" + "";
      SplitConcat("", "");
      assert Normalize([], ["", ""]) == Normalize([], [""]) == [];
    } else {
      assert "/" + Join(names) == "" + "/" + Join(names);
      SplitConcat("", Join(names));
      SplitJoin(names);
      NormalizeAppend([], [""], names);
      assert Normalize([], [""]) == [];
      NormalizeNames([], names);
      assert [] + names == names;
    }
  }
}
