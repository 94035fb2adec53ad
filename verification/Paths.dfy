/** Slash-separated paths, cleaned as package path/filepath does on Unix: no empty and no dot
    components, and each `..` resolved as far as possible.
 */
module Paths {
  import opened Basics

  // ---------------------------------------------------------------- components

  function SlashAt(p: string): (n: nat)
    ensures n <= |p| && (n < |p| ==> p[n] == '/') && forall k :: 0 <= k < n ==> p[k] != '/'
  {
    if p == "" || p[0] == '/' then 0 else 1 + SlashAt(p[1..])
  }

  function Components(p: string): seq<string>
    decreases |p|
  {
    var n := SlashAt(p);
    if n == |p| then [p] else [p[..n]] + Components(p[n + 1..])
  }

  predicate Rooted(p: string) { p != "" && p[0] == '/' }

  /** One more component behind those already resolved. */
  function Resolve(rooted: bool, done: seq<string>, c: string): seq<string> {
    if c == "" || c == "." then done
    else if c != ".." then done + [c]
    else if done != [] && done[|done| - 1] != ".." then done[..|done| - 1]
    else if rooted then done
    else done + [c]
  }

  function ResolveAll(rooted: bool, done: seq<string>, cs: seq<string>): seq<string>
    decreases |cs|
  {
    if cs == [] then done else ResolveAll(rooted, Resolve(rooted, done, cs[0]), cs[1..])
  }

  function Resolved(p: string): seq<string> { ResolveAll(Rooted(p), [], Components(p)) }

  function Joined(cs: seq<string>): string
    decreases |cs|
  {
    if cs == [] then "" else if |cs| == 1 then cs[0] else cs[0] + "/" + Joined(cs[1..])
  }

  /** The path with these components. */
  function PathOf(rooted: bool, cs: seq<string>): string {
    if rooted then "/" + Joined(cs) else if cs == [] then "." else Joined(cs)
  }

  function Clean(p: string): string { PathOf(Rooted(p), Resolved(p)) }

  /** Up to and including the last slash. */
  function DirPart(p: string): (d: string)
    ensures |d| <= |p| && d == p[..|d|] && (d != "" ==> d[|d| - 1] == '/')
    ensures forall k :: |d| <= k < |p| ==> p[k] != '/'
  {
    if p == "" || p[|p| - 1] == '/' then p else DirPart(p[..|p| - 1])
  }

  function Dir(p: string): string { Clean(DirPart(p)) }

  function Join(dir: string, name: string): string { Clean(dir + "/" + name) }

  // ---------------------------------------------------------------- what resolving yields

  /** A component of a cleaned path. */
  predicate Plain(c: string) { c != "" && c != "." && SlashAt(c) == |c| }

  /** Components that resolving leaves alone: each plain, and `..` only in front of a relative path. */
  ghost predicate Normal(rooted: bool, cs: seq<string>) {
    && (forall i :: 0 <= i < |cs| ==> Plain(cs[i]))
    && (forall i :: 0 <= i < |cs| && cs[i] == ".." ==> !rooted && (i == 0 || cs[i - 1] == ".."))
  }

  lemma {:induction false} NoSlashes(p: string)
    ensures forall i :: 0 <= i < |Components(p)| ==> SlashAt(Components(p)[i]) == |Components(p)[i]|
    decreases |p|
  {
    var n := SlashAt(p);
    if n < |p| {
      NoSlashes(p[n + 1..]);
      SlashNowhere(p[..n]);
    }
  }

  lemma {:induction false} SlashNowhere(c: string)
    requires forall k :: 0 <= k < |c| ==> c[k] != '/'
    ensures SlashAt(c) == |c|
  {
  }

  lemma {:induction false} ResolveIsNormal(rooted: bool, done: seq<string>, c: string)
    requires Normal(rooted, done) && SlashAt(c) == |c|
    ensures Normal(rooted, Resolve(rooted, done, c))
  {
  }

  lemma {:induction false} AllNormal(rooted: bool, done: seq<string>, cs: seq<string>)
    requires Normal(rooted, done) && forall i :: 0 <= i < |cs| ==> SlashAt(cs[i]) == |cs[i]|
    ensures Normal(rooted, ResolveAll(rooted, done, cs))
    decreases |cs|
  {
    if cs != [] {
      ResolveIsNormal(rooted, done, cs[0]);
      AllNormal(rooted, Resolve(rooted, done, cs[0]), cs[1..]);
    }
  }

  lemma {:induction false} ResolvedIsNormal(p: string)
    ensures Normal(Rooted(p), Resolved(p))
  {
    NoSlashes(p);
    AllNormal(Rooted(p), [], Components(p));
  }

  /** Normal components are resolved already. */
  lemma {:induction false} ResolvesToItself(rooted: bool, done: seq<string>, cs: seq<string>)
    requires Normal(rooted, done + cs)
    ensures ResolveAll(rooted, done, cs) == done + cs
    decreases |cs|
  {
    if cs == [] {
      assert done + cs == done;
    } else {
      var all := done + cs;
      assert all[|done|] == cs[0] && Plain(all[|done|]);
      assert done != [] ==> all[|done| - 1] == done[|done| - 1];
      assert done + [cs[0]] + cs[1..] == all;
      ResolvesToItself(rooted, done + [cs[0]], cs[1..]);
    }
  }

  // ---------------------------------------------------------------- joining

  lemma {:induction false} FirstComponent(c: string, rest: string)
    requires SlashAt(c) == |c|
    ensures Components(c + "/" + rest) == [c] + Components(rest)
  {
    var p := c + "/" + rest;
    FirstSlash(c, rest);
    assert p[..|c|] == c && p[|c| + 1..] == rest;
  }

  lemma {:induction false} FirstSlash(c: string, rest: string)
    requires SlashAt(c) == |c|
    ensures SlashAt(c + "/" + rest) == |c|
    decreases |c|
  {
    if c != "" {
      assert (c + "/" + rest)[1..] == c[1..] + "/" + rest;
      FirstSlash(c[1..], rest);
    }
  }

  lemma {:induction false} SplitAtSlash(p: string)
    requires SlashAt(p) < |p|
    ensures var n := SlashAt(p);
            p == p[..n] + "/" + p[n + 1..] && SlashAt(p[..n]) == n && Components(p) == [p[..n]] + Components(p[n + 1..])
  {
    SlashNowhere(p[..SlashAt(p)]);
  }

  lemma {:induction false} FirstOfThree(c: string, rest: string, name: string)
    requires SlashAt(c) == |c|
    ensures Components(c + "/" + rest + "/" + name) == [c] + Components(rest + "/" + name)
  {
    FirstComponent(c, rest + "/" + name);
    assert c + "/" + rest + "/" + name == c + "/" + (rest + "/" + name);
  }

  /** A slash and a name behind a path add a component. */
  lemma {:induction false} OneMoreComponent(p: string, name: string)
    requires SlashAt(name) == |name|
    ensures Components(p + "/" + name) == Components(p) + [name]
    decreases |p|
  {
    var n := SlashAt(p);
    if n == |p| {
      FirstComponent(p, name);
      assert Components(name) == [name] && Components(p) == [p];
    } else {
      SplitAtSlash(p);
      FirstOfThree(p[..n], p[n + 1..], name);
      OneMoreComponent(p[n + 1..], name);
      Glue([p[..n]], Components(p[n + 1..]), [name]);
    }
  }

  lemma {:induction false} Glue<T>(a: seq<T>, b: seq<T>, c: seq<T>)
    ensures a + (b + c) == a + b + c
  {
  }

  lemma {:induction false} JoinedComponents(cs: seq<string>)
    requires cs != [] && forall i :: 0 <= i < |cs| ==> SlashAt(cs[i]) == |cs[i]|
    ensures Components(Joined(cs)) == cs
    decreases |cs|
  {
    if |cs| == 1 {
      assert cs == [cs[0]];
    } else {
      JoinedComponents(cs[1..]);
      FirstComponent(cs[0], Joined(cs[1..]));
    }
  }

  /** The empty component before a root counts for nothing. */
  lemma {:induction false} BehindRoot(rest: string)
    ensures ResolveAll(true, [], Components("/" + rest)) == ResolveAll(true, [], Components(rest))
  {
    FirstComponent("", rest);
    assert "" + "/" + rest == "/" + rest;
    assert ([""] + Components(rest))[1..] == Components(rest);
  }

  lemma {:induction false} JoinedResolves(rooted: bool, cs: seq<string>)
    requires Normal(rooted, cs)
    ensures cs != [] ==> ResolveAll(rooted, [], Components(Joined(cs))) == cs
  {
    if cs != [] {
      forall i | 0 <= i < |cs| ensures SlashAt(cs[i]) == |cs[i]| { assert Plain(cs[i]); }
      JoinedComponents(cs);
      assert [] + cs == cs;
      ResolvesToItself(rooted, [], cs);
    }
  }

  lemma {:induction false} NothingResolves(rooted: bool)
    ensures ResolveAll(rooted, [], Components("")) == [] && ResolveAll(rooted, [], Components(".")) == []
  {
    assert Components("") == [""] && [""][1..] == [];
    assert Components(".") == ["."] && ["."][1..] == [];
  }

  /** Reading a cleaned path back gives its components, and tells whether it is rooted. */
  lemma {:induction false} PathComponents(rooted: bool, cs: seq<string>)
    requires Normal(rooted, cs)
    ensures ResolveAll(rooted, [], Components(PathOf(rooted, cs))) == cs
    ensures Rooted(PathOf(rooted, cs)) == rooted
  {
    if cs == [] { NothingResolves(rooted); } else { JoinedResolves(rooted, cs); }
    if rooted {
      BehindRoot(Joined(cs));
    } else if cs != [] {
      assert Plain(cs[0]) && cs[0][0] != '/';
      JoinedStarts(cs);
    }
  }

  lemma {:induction false} ResolveAllConcat(rooted: bool, done: seq<string>, a: seq<string>, c: string)
    ensures ResolveAll(rooted, done, a + [c]) == Resolve(rooted, ResolveAll(rooted, done, a), c)
    decreases |a|
  {
    if a == [] {
      assert [] + [c] == [c] && [c][1..] == [];
    } else {
      assert (a + [c])[1..] == a[1..] + [c];
      ResolveAllConcat(rooted, Resolve(rooted, done, a[0]), a[1..], c);
    }
  }

  /** A file put next to another: the components of the other's directory, and its own name. */
  lemma {:induction false} SiblingPath(p: string, name: string)
    requires Plain(name) && name != ".."
    ensures Join(Dir(p), name) == PathOf(Rooted(DirPart(p)), Resolved(DirPart(p)) + [name])
  {
    var rooted, cs := Rooted(DirPart(p)), Resolved(DirPart(p));
    var d := Dir(p);
    ResolvedIsNormal(DirPart(p));
    PathComponents(rooted, cs);
    OneMoreComponent(d, name);
    assert d != "" && Rooted(d + "/" + name) == rooted;
    ResolveAllConcat(rooted, [], Components(d), name);
  }

  lemma {:induction false} JoinedStarts(cs: seq<string>)
    requires cs != [] && cs[0] != ""
    ensures Joined(cs) != "" && Joined(cs)[0] == cs[0][0]
  {
  }

  lemma {:induction false} DashInFront(rooted: bool, cs: seq<string>, name: string)
    requires Normal(rooted, cs) && name != "" && name[0] != '-'
    ensures var path := PathOf(rooted, cs + [name]);
            path != "" && (path[0] == '-' <==> !rooted && cs != [] && HasPrefix(cs[0], "-"))
  {
    if cs != [] { assert Plain(cs[0]); }
    var all := cs + [name];
    assert all[0] == if cs == [] then name else cs[0];
    JoinedStarts(all);
    if cs != [] { assert HasPrefix(cs[0], "-") <==> cs[0][0] == '-'; }
  }

  /** The path of that file begins with a dash exactly when the directory, resolved, does. */
  lemma {:induction false} SiblingDash(p: string, name: string)
    requires Plain(name) && name != ".." && name[0] != '-'
    ensures var path, cs := Join(Dir(p), name), Resolved(DirPart(p));
            path != "" && (path[0] == '-' <==> !Rooted(DirPart(p)) && cs != [] && HasPrefix(cs[0], "-"))
  {
    SiblingPath(p, name);
    ResolvedIsNormal(DirPart(p));
    DashInFront(Rooted(DirPart(p)), Resolved(DirPart(p)), name);
  }

  lemma {:induction false} DirAt(dir: string, name: string)
    requires (dir == "" || dir[|dir| - 1] == '/') && SlashAt(name) == |name|
    ensures DirPart(dir + name) == dir
    decreases |name|
  {
    if name == "" {
      assert dir + name == dir;
    } else {
      var p := dir + name;
      assert p[|p| - 1] == name[|name| - 1] && p[..|p| - 1] == dir + name[..|name| - 1];
      SlashNowhere(name[..|name| - 1]);
      DirAt(dir, name[..|name| - 1]);
    }
  }

  /** A file one directory below the current one, written with a dot in front. */
  function Below(dir: string, file: string): string { "." + "/" + (dir + "/" + file) }

  /** Its sibling is written without the dot. */
  lemma {:induction false} BelowSibling(dir: string, file: string, name: string)
    requires Plain(dir) && dir != ".." && SlashAt(file) == |file| && Plain(name) && name != ".."
    ensures Join(Dir(Below(dir, file)), name) == dir + "/" + name
    ensures !Rooted(DirPart(Below(dir, file))) && Resolved(DirPart(Below(dir, file))) == [dir]
  {
    var part := Below(dir, "");
    assert Below(dir, file) == part + file;
    assert part[|part| - 1] == '/';
    DirAt(part, file);
    BelowResolved(dir);
    SiblingPath(Below(dir, file), name);
    JoinTwo(dir, name);
  }

  lemma {:induction false} JoinTwo(a: string, b: string)
    ensures Joined([a] + [b]) == a + "/" + b
  {
    var cs := [a] + [b];
    assert cs[1..] == [b];
  }

  lemma {:induction false} BelowResolved(dir: string)
    requires Plain(dir) && dir != ".."
    ensures !Rooted(Below(dir, "")) && Resolved(Below(dir, "")) == [dir]
  {
    var p := Below(dir, "");
    FirstComponent(".", dir + "/" + "");
    FirstComponent(dir, "");
    DotAndEmpty(Components(p), dir, Components(""));
  }

  lemma {:induction false} DotAndEmpty(cs: seq<string>, dir: string, rest: seq<string>)
    requires cs == ["."] + ([dir] + rest) && rest == [""] && Plain(dir) && dir != ".."
    ensures ResolveAll(false, [], cs) == [dir]
  {
    assert cs[0] == "." && cs[1..] == [dir] + rest && cs[1..][1..] == rest && rest[1..] == [];
    assert [] + [dir] == [dir];
    assert Resolve(false, [], dir) == [dir] && Resolve(false, [dir], "") == [dir] && Resolve(false, [], ".") == [];
    assert ResolveAll(false, [dir], rest) == ResolveAll(false, [dir], rest[1..]) == [dir];
    assert ResolveAll(false, [], cs[1..]) == ResolveAll(false, [dir], cs[1..][1..]);
  }
}
