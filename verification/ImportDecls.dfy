/** The imports of a target file when a rule brings its own: existing ones are reused under the
    file's names, missing ones are added, and conflicts are errors.
 */
module ImportDecls {
  import opened Basics
  import opened Templates

  datatype Spec = Spec(name: Option<string>, path: string)

  predicate Special(alias: string) { alias == "." || alias == "_" }

  /** `nameOf` gives the name of the package at a path. */
  function AliasOf(s: Spec, nameOf: string -> string): string {
    if s.name.Some? then s.name.value else nameOf(s.path)
  }

  predicate Imports(s: Spec, nameOf: string -> string, alias: string, path: string) {
    AliasOf(s, nameOf) == alias && s.path == path
  }

  /** In a file with these imports, `alias` stands for `path`. */
  predicate Resolves(specs: seq<Spec>, nameOf: string -> string, alias: string, path: string) {
    exists i :: 0 <= i < |specs| && Imports(specs[i], nameOf, alias, path)
  }

  /** No name stands for two paths. */
  ghost predicate Valid(specs: seq<Spec>, nameOf: string -> string) {
    forall a, p, q :: !Special(a) && Resolves(specs, nameOf, a, p) && Resolves(specs, nameOf, a, q) ==> p == q
  }

  lemma {:induction false} ResolvesPush(specs: seq<Spec>, s: Spec, nameOf: string -> string, a: string, p: string)
    ensures Resolves(specs + [s], nameOf, a, p) <==> Resolves(specs, nameOf, a, p) || Imports(s, nameOf, a, p)
  {
    var all := specs + [s];
    if Resolves(specs, nameOf, a, p) {
      var i :| 0 <= i < |specs| && Imports(specs[i], nameOf, a, p);
      assert Imports(all[i], nameOf, a, p);
    }
    if Imports(s, nameOf, a, p) { assert Imports(all[|specs|], nameOf, a, p); }
    if Resolves(all, nameOf, a, p) {
      var i :| 0 <= i < |all| && Imports(all[i], nameOf, a, p);
      assert i < |specs| ==> Imports(specs[i], nameOf, a, p);
    }
  }

  // ---------------------------------------------------------------- reading the file's imports

  ghost predicate AliasMap(specs: seq<Spec>, nameOf: string -> string, aliasToPath: map<string, string>) {
    && (forall a :: a in aliasToPath ==> Resolves(specs, nameOf, a, aliasToPath[a]))
    && (forall a, p :: Resolves(specs, nameOf, a, p) ==> a in aliasToPath)
  }

  predicate Listed(pathToAliases: map<string, set<string>>, a: string, p: string) {
    p in pathToAliases && a in pathToAliases[p]
  }

  ghost predicate PathMap(specs: seq<Spec>, nameOf: string -> string, pathToAliases: map<string, set<string>>) {
    && (forall a, p :: Resolves(specs, nameOf, a, p) <==> Listed(pathToAliases, a, p))
    && (forall p :: p in pathToAliases ==> pathToAliases[p] != {})
  }

  lemma {:induction false} AliasMapPush(specs: seq<Spec>, s: Spec, nameOf: string -> string,
      aliasToPath: map<string, string>)
    requires AliasMap(specs, nameOf, aliasToPath)
    ensures AliasMap(specs + [s], nameOf, aliasToPath[AliasOf(s, nameOf) := s.path])
  {
    var m := aliasToPath[AliasOf(s, nameOf) := s.path];
    forall a | a in m ensures Resolves(specs + [s], nameOf, a, m[a]) { ResolvesPush(specs, s, nameOf, a, m[a]); }
    forall a, p | Resolves(specs + [s], nameOf, a, p) ensures a in m { ResolvesPush(specs, s, nameOf, a, p); }
  }

  lemma {:induction false} PathMapPush(specs: seq<Spec>, s: Spec, nameOf: string -> string,
      pathToAliases: map<string, set<string>>)
    requires PathMap(specs, nameOf, pathToAliases)
    ensures var before := if s.path in pathToAliases then pathToAliases[s.path] else {};
            PathMap(specs + [s], nameOf, pathToAliases[s.path := before + {AliasOf(s, nameOf)}])
  {
    var before := if s.path in pathToAliases then pathToAliases[s.path] else {};
    var m := pathToAliases[s.path := before + {AliasOf(s, nameOf)}];
    forall a, p ensures Resolves(specs + [s], nameOf, a, p) <==> Listed(m, a, p) {
      ResolvesPush(specs, s, nameOf, a, p);
      assert Resolves(specs, nameOf, a, p) <==> Listed(pathToAliases, a, p);
    }
  }

  method ParseFile(specs: seq<Spec>, nameOf: string -> string)
      returns (aliasToPath: map<string, string>, pathToAliases: map<string, set<string>>)
    ensures AliasMap(specs, nameOf, aliasToPath) && PathMap(specs, nameOf, pathToAliases)
  {
    aliasToPath, pathToAliases := map[], map[];
    for i := 0 to |specs|
      invariant AliasMap(specs[..i], nameOf, aliasToPath) && PathMap(specs[..i], nameOf, pathToAliases)
    {
      AliasMapPush(specs[..i], specs[i], nameOf, aliasToPath);
      PathMapPush(specs[..i], specs[i], nameOf, pathToAliases);
      assert specs[..i + 1] == specs[..i] + [specs[i]];
      var alias := AliasOf(specs[i], nameOf);
      var before := if specs[i].path in pathToAliases then pathToAliases[specs[i].path] else {};
      aliasToPath := aliasToPath[alias := specs[i].path];
      pathToAliases := pathToAliases[specs[i].path := before + {alias}];
    }
    assert specs[..|specs|] == specs;
  }

  // ---------------------------------------------------------------- overrides

  /** The names, other than dot and blank, under which the file imports a path. */
  ghost predicate Names(specs: seq<Spec>, nameOf: string -> string, names: map<string, set<string>>) {
    && (forall p :: p in names ==> names[p] != {})
    && forall a, p :: (p in names && a in names[p]) <==> (!Special(a) && Resolves(specs, nameOf, a, p))
  }

  method RegularNames(specs: seq<Spec>, nameOf: string -> string) returns (names: map<string, set<string>>)
    ensures Names(specs, nameOf, names)
  {
    var _, pathToAliases := ParseFile(specs, nameOf);
    names := map p | p in pathToAliases && (exists a :: a in pathToAliases[p] && !Special(a)) ::
      (set a | a in pathToAliases[p] && !Special(a));
    forall p | p in names ensures names[p] != {} {
      var a :| a in pathToAliases[p] && !Special(a);
      assert a in names[p];
    }
    forall a, p | !Special(a) && Resolves(specs, nameOf, a, p) ensures p in names && a in names[p] {
      assert Listed(pathToAliases, a, p);
    }
    forall a, p | p in names && a in names[p] ensures !Special(a) && Resolves(specs, nameOf, a, p) {
      assert Listed(pathToAliases, a, p);
    }
  }

  /** The order of strings, character by character. */
  predicate NotAfter(a: string, b: string) {
    a == "" || (b != "" && (a[0] < b[0] || (a[0] == b[0] && NotAfter(a[1..], b[1..]))))
  }

  lemma {:induction false} NotAfterTotal(a: string, b: string)
    ensures NotAfter(a, b) || NotAfter(b, a)
    ensures NotAfter(a, b) && NotAfter(b, a) ==> a == b
    decreases |a|
  {
    if a != "" && b != "" {
      NotAfterTotal(a[1..], b[1..]);
      assert a == [a[0]] + a[1..] && b == [b[0]] + b[1..];
    }
  }

  lemma {:induction false} NotAfterTransitive(a: string, b: string, c: string)
    requires NotAfter(a, b) && NotAfter(b, c)
    ensures NotAfter(a, c)
    decreases |a|
  {
    if a != "" && a[0] == b[0] && b[0] == c[0] { NotAfterTransitive(a[1..], b[1..], c[1..]); }
  }

  ghost predicate Smallest(m: string, names: set<string>) {
    m in names && forall b :: b in names ==> NotAfter(m, b)
  }

  method FindSmallest(names: set<string>) returns (m: string)
    requires names != {}
    ensures Smallest(m, names)
  {
    m :| m in names;
    NotAfterTotal(m, m);
    var todo := names - {m};
    while todo != {}
      invariant m in names && todo <= names && forall b :: b in names && b !in todo ==> NotAfter(m, b)
    {
      var b :| b in todo;
      NotAfterTotal(m, b);
      if !NotAfter(m, b) {
        forall x | x in names && x !in todo ensures NotAfter(b, x) { NotAfterTransitive(b, m, x); }
        NotAfterTotal(b, b);
        m := b;
      }
      todo := todo - {b};
    }
  }

  /** A rule alias is overridden when the file imports its path, but not under that alias. */
  predicate NeedsOverride(ruleImports: map<string, string>, names: map<string, set<string>>, a: string)
    requires a in ruleImports
  {
    !Special(a) && ruleImports[a] in names && a !in names[ruleImports[a]]
  }

  ghost predicate Overrides(ruleImports: map<string, string>, names: map<string, set<string>>,
      overrides: map<string, string>, todo: set<string>) {
    && (forall a :: a in overrides ==>
      a in ruleImports && NeedsOverride(ruleImports, names, a) && Smallest(overrides[a], names[ruleImports[a]]))
    && forall a :: a in ruleImports && a !in todo && NeedsOverride(ruleImports, names, a) ==> a in overrides
  }

  method ResolveAliasOverrides(ruleImports: map<string, string>, names: map<string, set<string>>)
      returns (overrides: map<string, string>)
    requires forall p :: p in names ==> names[p] != {}
    ensures Overrides(ruleImports, names, overrides, {})
  {
    overrides := map[];
    var todo := ruleImports.Keys;
    while todo != {}
      invariant todo <= ruleImports.Keys && Overrides(ruleImports, names, overrides, todo)
    {
      var a :| a in todo;
      todo := todo - {a};
      if NeedsOverride(ruleImports, names, a) {
        var alias := FindSmallest(names[ruleImports[a]]);
        overrides := overrides[a := alias];
      }
    }
  }

  /** The choice does not depend on the order in which the maps are walked. */
  lemma {:induction false} OverridesAreDetermined(
      ruleImports: map<string, string>, names: map<string, set<string>>, x: map<string, string>, y: map<string, string>)
    requires Overrides(ruleImports, names, x, {}) && Overrides(ruleImports, names, y, {})
    ensures x == y
  {
    forall a | a in x ensures a in y && x[a] == y[a] { NotAfterTotal(x[a], y[a]); }
    forall a | a in y ensures a in x { }
  }

  /** A name of the file, neither dot nor blank, for this path. */
  predicate RegularName(specs: seq<Spec>, nameOf: string -> string, b: string, path: string) {
    b != "." && b != "_" && Resolves(specs, nameOf, b, path)
  }

  /** Swapped are exactly the names of the rule whose path the file imports under other names only, and
      each for the first of those names. */
  ghost predicate Swapped(specs: seq<Spec>, nameOf: string -> string, ruleImports: map<string, string>,
      overrides: map<string, string>) {
    && (forall a :: a in overrides <==>
          && a in ruleImports && a != "." && a != "_" && !Resolves(specs, nameOf, a, ruleImports[a])
          && exists b :: RegularName(specs, nameOf, b, ruleImports[a]))
    && forall a :: a in overrides ==>
         && RegularName(specs, nameOf, overrides[a], ruleImports[a])
         && forall b :: RegularName(specs, nameOf, b, ruleImports[a]) ==> NotAfter(overrides[a], b)
  }

  lemma {:induction false} OverridesMean(specs: seq<Spec>, nameOf: string -> string, names: map<string, set<string>>,
      ruleImports: map<string, string>, overrides: map<string, string>)
    requires Names(specs, nameOf, names) && Overrides(ruleImports, names, overrides, {})
    ensures Swapped(specs, nameOf, ruleImports, overrides)
  {
    forall b, p ensures RegularName(specs, nameOf, b, p) <==> p in names && b in names[p] {
      assert (p in names && b in names[p]) <==> (!Special(b) && Resolves(specs, nameOf, b, p));
    }
    forall a | a in ruleImports && ruleImports[a] in names
      ensures exists b :: RegularName(specs, nameOf, b, ruleImports[a]) {
      var b :| b in names[ruleImports[a]];
      assert RegularName(specs, nameOf, b, ruleImports[a]);
    }
    forall a | a in ruleImports && !Special(a)
      ensures Resolves(specs, nameOf, a, ruleImports[a]) <==> RegularName(specs, nameOf, a, ruleImports[a]) { }
  }

  // ---------------------------------------------------------------- which imports are needed

  /** Is something selected from this name anywhere? */
  predicate Uses(e: Expr, a: string)
    decreases e, 1
  {
    match e
    case Ident(_) => false
    case Sel(x, _) => x == Ident(a) || Uses(x, a)
    case Node(_, kids) => UsesAny(kids, a)
  }

  predicate UsesAny(es: seq<Expr>, a: string)
    decreases es, 0
  {
    es != [] && (Uses(es[0], a) || UsesAny(es[1..], a))
  }

  function UsedRuleImports(root: seq<Expr>, ruleImports: map<string, string>,
      overrides: map<string, string>): map<string, string> {
    map a | a in ruleImports && a !in overrides && (Special(a) || UsesAny(root, a)) :: ruleImports[a]
  }

  // ---------------------------------------------------------------- adding imports

  function CreateSpec(alias: string, path: string, nameOf: string -> string): Spec {
    if alias == "_" || alias != nameOf(path) then Spec(Some(alias), path) else Spec(None, path)
  }

  /** The alias is taken for another path. */
  predicate Clashes(newImports: map<string, string>, specs: seq<Spec>, nameOf: string -> string, a: string)
    requires a in newImports
  {
    !Special(a) && exists i :: 0 <= i < |specs| && AliasOf(specs[i], nameOf) == a && specs[i].path != newImports[a]
  }

  ghost predicate Conflict(todo: set<string>, newImports: map<string, string>, specs: seq<Spec>,
      nameOf: string -> string)
    requires todo <= newImports.Keys
  {
    exists a :: a in todo && Clashes(newImports, specs, nameOf, a)
  }

  /** The file imports the path already, under whatever name. */
  predicate Known(specs: seq<Spec>, path: string) {
    exists i :: 0 <= i < |specs| && specs[i].path == path
  }

  ghost predicate Kept(newImports: map<string, string>, left: map<string, string>, specs: seq<Spec>, a: string)
    requires a in newImports
  {
    (a in left && left[a] == newImports[a]) || Known(specs, newImports[a])
  }

  lemma {:induction false} CheckOne(specs: seq<Spec>, nameOf: string -> string, existing: map<string, string>,
      byPath: map<string, set<string>>, a: string, path: string)
    requires Valid(specs, nameOf) && AliasMap(specs, nameOf, existing) && PathMap(specs, nameOf, byPath)
    ensures !Special(a) && a in existing ==>
            Resolves(specs, nameOf, a, existing[a])
            && (existing[a] != path <==> Clashes(map[a := path], specs, nameOf, a))
    ensures a !in existing ==> !Clashes(map[a := path], specs, nameOf, a) && forall p :: !Resolves(specs, nameOf, a, p)
    ensures path in byPath ==> Known(specs, path)
    ensures !Special(a) && a in existing && existing[a] == path ==> Known(specs, path)
  {
    if path in byPath {
      var b :| b in byPath[path];
      assert Listed(byPath, b, path);
      assert Resolves(specs, nameOf, b, path);
    }
    if a in existing {
      forall i | 0 <= i < |specs| && AliasOf(specs[i], nameOf) == a && !Special(a)
        ensures specs[i].path == existing[a] {
        assert Imports(specs[i], nameOf, a, specs[i].path);
        assert Resolves(specs, nameOf, a, specs[i].path);
      }
    }
    forall i | 0 <= i < |specs| && AliasOf(specs[i], nameOf) == a ensures a in existing {
      assert Imports(specs[i], nameOf, a, specs[i].path);
      assert Resolves(specs, nameOf, a, specs[i].path);
    }
  }

  class File {
    var specs: seq<Spec>
    const nameOf: string -> string

    constructor (specs: seq<Spec>, nameOf: string -> string)
      ensures this.specs == specs && this.nameOf == nameOf
    {
      this.specs, this.nameOf := specs, nameOf;
    }

    /** The imports that really are new.  An alias that stands for something else is an error. */
    method WithoutExisting(newImports: map<string, string>) returns (fresh_: map<string, string>, ok: bool)
      requires Valid(specs, nameOf)
      ensures ok <==> !Conflict(newImports.Keys, newImports, specs, nameOf)
      ensures ok ==> forall a :: a in newImports ==> Kept(newImports, fresh_, specs, a)
      ensures ok ==> fresh_.Keys <= newImports.Keys && forall a, p :: a in fresh_ && !Special(a) ==>
              !Resolves(specs, nameOf, a, p)
      ensures ok ==> forall a :: a in fresh_ ==> fresh_[a] == newImports[a]
    {
      var existing, byPath := ParseFile(specs, nameOf);
      var todo := newImports.Keys;
      fresh_ := newImports;
      while todo != {}
        invariant todo <= newImports.Keys && fresh_.Keys <= newImports.Keys
                  && !Conflict(newImports.Keys - todo, newImports, specs, nameOf)
        invariant forall a :: a in todo ==> a in fresh_
        invariant forall a :: a in fresh_ ==> fresh_[a] == newImports[a]
        invariant forall a :: a in newImports && a !in todo ==> Kept(newImports, fresh_, specs, a)
        invariant forall a, p :: a in fresh_ && a !in todo && !Special(a) ==> !Resolves(specs, nameOf, a, p)
      {
        var a :| a in todo;
        var path := newImports[a];
        CheckOne(specs, nameOf, existing, byPath, a, path);
        if !Special(a) && a in existing && existing[a] != path {
          assert Clashes(newImports, specs, nameOf, a);
          return newImports, false;
        }
        if !Special(a) && (a in existing || path in byPath) { fresh_ := fresh_ - {a}; }
        todo := todo - {a};
      }
      ok := true;
    }

    /** Add the imports that the file lacks. */
    method AddToFile(newImports: map<string, string>) returns (ok: bool)
      requires Valid(specs, nameOf)
      modifies this
      ensures ok ==> AddedFrom(specs, |old(specs)|, nameOf, newImports)
      ensures ok <==> !Conflict(newImports.Keys, newImports, old(specs), nameOf)
      ensures Valid(specs, nameOf) && old(specs) <= specs && (!ok ==> specs == old(specs))
      ensures ok ==> forall a :: a in newImports ==>
              Resolves(specs, nameOf, a, newImports[a]) || Known(old(specs), newImports[a])
    {
      var todo;
      todo, ok := WithoutExisting(newImports);
      if ok {
        ghost var specs0 := specs;
        AppendAll(todo);
        forall a | a in newImports ensures Resolves(specs, nameOf, a, newImports[a]) || Known(specs0, newImports[a]) {
          assert Kept(newImports, todo, specs0, a);
        }
      }
    }

    /** Append a specification for each entry, in the order of their names. */
    method AppendAll(newImports: map<string, string>)
      requires Valid(specs, nameOf)
      requires forall a, p :: a in newImports && !Special(a) ==> !Resolves(specs, nameOf, a, p)
      modifies this
      ensures Valid(specs, nameOf) && old(specs) <= specs
      ensures forall a :: a in newImports ==> Resolves(specs, nameOf, a, newImports[a])
      ensures AddedFrom(specs, |old(specs)|, nameOf, newImports)
    {
      var todo := newImports.Keys;
      while todo != {}
        invariant todo <= newImports.Keys && Valid(specs, nameOf) && old(specs) <= specs
        invariant AddedFrom(specs, |old(specs)|, nameOf, newImports)
        invariant forall i, a :: |old(specs)| <= i < |specs| && a in todo ==> NotAfter(AliasOf(specs[i], nameOf), a)
        invariant forall a, p :: a in todo && !Special(a) ==> !Resolves(specs, nameOf, a, p)
        invariant forall a :: a in newImports && a !in todo ==> Resolves(specs, nameOf, a, newImports[a])
      {
        var a := FindSmallest(todo);
        var s := CreateSpec(a, newImports[a], nameOf);
        PushNew(specs, s, nameOf, a);
        specs := specs + [s];
        todo := todo - {a};
      }
    }
  }

  /** What was added behind the first n imports are entries of `imports`, in the order of their names. */
  ghost predicate AddedFrom(specs: seq<Spec>, n: nat, nameOf: string -> string, imports: map<string, string>) {
    && (forall i :: n <= i < |specs| ==>
          AliasOf(specs[i], nameOf) in imports && imports[AliasOf(specs[i], nameOf)] == specs[i].path)
    && forall i, j :: n <= i < j < |specs| ==> NotAfter(AliasOf(specs[i], nameOf), AliasOf(specs[j], nameOf))
  }

  /** A new name leaves the others as they are. */
  lemma {:induction false} PushNew(specs: seq<Spec>, s: Spec, nameOf: string -> string, a: string)
    requires Valid(specs, nameOf) && AliasOf(s, nameOf) == a
             && (!Special(a) ==> forall p :: !Resolves(specs, nameOf, a, p))
    ensures Valid(specs + [s], nameOf) && Resolves(specs + [s], nameOf, a, s.path)
    ensures forall b, p :: b != a ==> (Resolves(specs + [s], nameOf, b, p) <==> Resolves(specs, nameOf, b, p))
    ensures forall b, p :: Resolves(specs, nameOf, b, p) ==> Resolves(specs + [s], nameOf, b, p)
  {
    forall b, p ensures Resolves(specs + [s], nameOf, b, p) <==>
      Resolves(specs, nameOf, b, p) || Imports(s, nameOf, b, p) {
      ResolvesPush(specs, s, nameOf, b, p);
    }
  }

  // ---------------------------------------------------------------- a rule's imports

  /** An import of the rule does not fit the file: the path is there, but not under the rule's name. */
  predicate Mismatch(specs: seq<Spec>, nameOf: string -> string, a: string, path: string) {
    a != "_" && Known(specs, path) && !Resolves(specs, nameOf, a, path)
  }

  function FindNew(specs: seq<Spec>, ruleImports: map<string, string>): map<string, string> {
    map a | a in ruleImports && !Known(specs, ruleImports[a]) :: ruleImports[a]
  }

  ghost predicate Fits(specs: seq<Spec>, nameOf: string -> string, ruleImports: map<string, string>) {
    forall a :: a in ruleImports ==> !Mismatch(specs, nameOf, a, ruleImports[a])
  }

  /** The file can take these imports: none is there under other names only, none of its name stands
      for something else. */
  ghost predicate Addable(specs: seq<Spec>, nameOf: string -> string, ruleImports: map<string, string>) {
    && Fits(specs, nameOf, ruleImports)
    && !Conflict(FindNew(specs, ruleImports).Keys, FindNew(specs, ruleImports), specs, nameOf)
  }

  /** The file can take one import: under that name already, or no name for the path was asked for, or
      the path is new and so is the name. */
  ghost predicate Takes(specs: seq<Spec>, nameOf: string -> string, alias: string, path: string) {
    if exists i :: 0 <= i < |specs| && specs[i].path == path then
      alias == "_" || exists i :: 0 <= i < |specs| && specs[i].path == path && AliasOf(specs[i], nameOf) == alias
    else
      alias == "_" || alias == "." || forall i :: 0 <= i < |specs| ==> AliasOf(specs[i], nameOf) != alias
  }

  lemma {:induction false} AddableMeans(specs: seq<Spec>, nameOf: string -> string, ruleImports: map<string, string>)
    ensures Addable(specs, nameOf, ruleImports) <==>
            forall a :: a in ruleImports ==> Takes(specs, nameOf, a, ruleImports[a])
  {
    var fresh_ := FindNew(specs, ruleImports);
    forall a | a in ruleImports
      ensures Takes(specs, nameOf, a, ruleImports[a]) <==>
              !Mismatch(specs, nameOf, a, ruleImports[a]) && !(a in fresh_ && Clashes(fresh_, specs, nameOf, a))
    {
      TakesOne(specs, nameOf, a, ruleImports[a]);
    }
  }

  lemma {:induction false} TakesOne(specs: seq<Spec>, nameOf: string -> string, a: string, path: string)
    ensures Takes(specs, nameOf, a, path) <==>
            !Mismatch(specs, nameOf, a, path) && !(!Known(specs, path) && Clashes(map[a := path], specs, nameOf, a))
  {
    if i :| 0 <= i < |specs| && specs[i].path == path && AliasOf(specs[i], nameOf) == a {
      assert Imports(specs[i], nameOf, a, path);
    }
    if Resolves(specs, nameOf, a, path) {
      var i :| 0 <= i < |specs| && Imports(specs[i], nameOf, a, path);
      assert specs[i].path == path && AliasOf(specs[i], nameOf) == a;
    }
  }

  /** Every name the rule asked for stands for its path afterwards, or nothing was changed. */
  method AddRuleImports(file: File, ruleImports: map<string, string>) returns (ok: bool)
    requires Valid(file.specs, file.nameOf)
    modifies file
    ensures Valid(file.specs, file.nameOf) && old(file.specs) <= file.specs && (!ok ==> file.specs == old(file.specs))
    ensures ok <==> Addable(old(file.specs), file.nameOf, ruleImports)
    ensures ok ==> AddedFrom(file.specs, |old(file.specs)|, file.nameOf, ruleImports)
    ensures ok ==> forall a :: a in ruleImports ==> Known(file.specs, ruleImports[a])
    ensures ok ==> forall i :: |old(file.specs)| <= i < |file.specs| ==> !Known(old(file.specs), file.specs[i].path)
    ensures ok ==> forall a :: a in ruleImports && a != "_" ==> Resolves(file.specs, file.nameOf, a, ruleImports[a])
  {
    ghost var specs0 := file.specs;
    var todo := ruleImports.Keys;
    while todo != {}
      invariant todo <= ruleImports.Keys
      invariant forall a :: a in ruleImports && a !in todo ==> !Mismatch(file.specs, file.nameOf, a, ruleImports[a])
    {
      var a :| a in todo;
      if Mismatch(file.specs, file.nameOf, a, ruleImports[a]) { return false; }
      todo := todo - {a};
    }
    ok := file.AddToFile(FindNew(file.specs, ruleImports));
    if ok {
      forall a | a in ruleImports ensures Known(file.specs, ruleImports[a]) {
        if !Known(specs0, ruleImports[a]) {
          assert a in FindNew(specs0, ruleImports) && FindNew(specs0, ruleImports)[a] == ruleImports[a];
        }
        KnownNow(specs0, file.specs, file.nameOf, a, ruleImports[a]);
      }
      forall a | a in ruleImports && a != "_" ensures Resolves(file.specs, file.nameOf, a, ruleImports[a]) {
        if Known(specs0, ruleImports[a]) {
          assert !Mismatch(specs0, file.nameOf, a, ruleImports[a]);
          StillResolves(specs0, file.specs, file.nameOf, a, ruleImports[a]);
        } else {
          assert a in FindNew(specs0, ruleImports) && FindNew(specs0, ruleImports)[a] == ruleImports[a];
        }
      }
    }
  }

  lemma {:induction false} KnownNow(specs: seq<Spec>, specs': seq<Spec>, nameOf: string -> string, a: string, p: string)
    requires specs <= specs' && (Known(specs, p) || Resolves(specs', nameOf, a, p))
    ensures Known(specs', p)
  {
    if Known(specs, p) {
      var i :| 0 <= i < |specs| && specs[i].path == p;
      assert specs'[i].path == p;
    } else {
      var i :| 0 <= i < |specs'| && Imports(specs'[i], nameOf, a, p);
      assert specs'[i].path == p;
    }
  }

  lemma {:induction false} StillResolves(specs: seq<Spec>, specs': seq<Spec>, nameOf: string -> string, a: string,
      p: string)
    requires specs <= specs' && Resolves(specs, nameOf, a, p)
    ensures Resolves(specs', nameOf, a, p)
  {
    var i :| 0 <= i < |specs| && Imports(specs[i], nameOf, a, p);
    assert Imports(specs'[i], nameOf, a, p);
  }

  // ---------------------------------------------------------------- which imports are used

  /** The identifiers that something is selected from. */
  function Selected(e: Expr): set<string>
    decreases e, 1
  {
    match e
    case Ident(_) => {}
    case Sel(x, _) => (if x.Ident? then {x.name} else {}) + Selected(x)
    case Node(_, kids) => AllSelected(kids)
  }

  function AllSelected(es: seq<Expr>): set<string>
    decreases es, 0
  {
    if es == [] then {} else Selected(es[0]) + AllSelected(es[1..])
  }

  lemma {:induction false} UsesMeans(e: Expr, a: string)
    ensures Uses(e, a) <==> a in Selected(e)
    decreases e, 1
  {
    match e
    case Ident(_) =>
    case Sel(x, _) => UsesMeans(x, a);
    case Node(_, kids) => UsesAnyMeans(kids, a);
  }

  lemma {:induction false} UsesAnyMeans(es: seq<Expr>, a: string)
    ensures UsesAny(es, a) <==> a in AllSelected(es)
    decreases es, 0
  {
    if es != [] {
      UsesMeans(es[0], a);
      UsesAnyMeans(es[1..], a);
    }
  }

  /** The imports that are kept: of those not overridden the dot and blank ones, and those whose name
      something in the file is selected from. */
  lemma {:induction false} UsedExactly(
      root: seq<Expr>, ruleImports: map<string, string>, overrides: map<string, string>)
    ensures var used := UsedRuleImports(root, ruleImports, overrides);
            && (forall a :: a in used <==>
                  a in ruleImports && a !in overrides && (a == "." || a == "_" || a in AllSelected(root)))
            && forall a :: a in used ==> used[a] == ruleImports[a]
  {
    forall a ensures UsesAny(root, a) <==> a in AllSelected(root) { UsesAnyMeans(root, a); }
  }

  // ---------------------------------------------------------------- what the rule's code refers to

  /** The names the rule itself selects from. */
  predicate Qualifies(t: Template, q: string)
    decreases t, 1
  {
    match t
    case TSel(x, _) => x == TIdent(Rule(q)) || Qualifies(x, q)
    case TNode(_, kids) => QualifiesAny(kids, q)
    case _ => false
  }

  predicate QualifiesAny(ts: seq<Template>, q: string)
    decreases ts, 0
  {
    ts != [] && (Qualifies(ts[0], q) || QualifiesAny(ts[1..], q))
  }

  lemma {:induction false} QualifierStays(t: Template, q: string, overrides: map<string, string>, node: Expr,
      args: seq<Expr>)
    requires ArgsExist(t, |args|) && Qualifies(t, q) && q !in overrides
    ensures Uses(Meaning(t, overrides, node, args), q)
    decreases t, 1
  {
    match t
    case TSel(x, s) => if x != TIdent(Rule(q)) { QualifierStays(x, q, overrides, node, args); }
    case TNode(_, kids) => QualifierStaysAny(kids, q, overrides, node, args);
  }

  lemma {:induction false} QualifierStaysAny(ts: seq<Template>, q: string, overrides: map<string, string>, node: Expr,
      args: seq<Expr>)
    requires ArgsExistAll(ts, |args|) && QualifiesAny(ts, q) && q !in overrides
    ensures UsesAny(MeaningAll(ts, overrides, node, args), q)
    decreases ts, 0
  {
    if Qualifies(ts[0], q) {
      QualifierStays(ts[0], q, overrides, node, args);
    } else {
      QualifierStaysAny(ts[1..], q, overrides, node, args);
    }
  }

  /** The name a qualifier of the rule became stands for the path the rule declared, and only for it. */
  ghost predicate RefersTo(specs: seq<Spec>, nameOf: string -> string, name: string, path: string) {
    Resolves(specs, nameOf, name, path) && forall p :: Resolves(specs, nameOf, name, p) ==> p == path
  }

  lemma {:induction false} QualifierRefers(
      specs: seq<Spec>, specs': seq<Spec>, nameOf: string -> string, names: map<string, set<string>>,
      ruleImports: map<string, string>,
      overrides: map<string, string>, root: seq<Expr>, q: string)
    requires Valid(specs', nameOf) && specs <= specs' && Names(specs, nameOf, names)
             && Overrides(ruleImports, names, overrides, {})
    requires var used := UsedRuleImports(root, ruleImports, overrides); forall a :: a in used && a != "_" ==>
             Resolves(specs', nameOf, a, used[a])
    requires q in ruleImports && !Special(q) && (q !in overrides ==> UsesAny(root, q))
    ensures RefersTo(specs', nameOf, Replaced(overrides, q), ruleImports[q])
  {
    if q in overrides {
      StillResolves(specs, specs', nameOf, overrides[q], ruleImports[q]);
    } else {
      assert q in UsedRuleImports(root, ruleImports, overrides);
    }
  }

  /** No alias of the rule or of the file carries the marker. */
  ghost predicate Unmarked(specs: seq<Spec>, nameOf: string -> string, ruleImports: map<string, string>) {
    && (forall a :: a in ruleImports ==> !HasPrefix(a, MARKER))
    && forall a, p :: Resolves(specs, nameOf, a, p) ==> !HasPrefix(a, MARKER)
  }

  /** No name of the file that takes the place of a rule's alias is hidden by a local one. */
  predicate Unshadowed(overrides: map<string, string>, locals: set<string>) {
    forall q :: q in overrides ==> overrides[q] !in locals
  }

  /** Compile a template around an expression of the file and bring in the imports it needs; `locals`
      are the names that the enclosing function binds.  On success the result means what the template
      means, and each qualifier the rule wrote refers to the path the rule declared for it. */
  method InjectExpression(file: File, root: seq<Expr>, locals: set<string>, t: Template, node: Expr, args: seq<Expr>,
      ruleImports: map<string, string>)
      returns (e: Expr, overrides: map<string, string>, ok: bool)
    requires Valid(file.specs, file.nameOf) && Unmarked(file.specs, file.nameOf, ruleImports)
    requires TemplateOk(t) && ArgsExist(t, |args|) && forall a :: a in args ==> NoBlank(a)
    modifies file
    ensures old(file.specs) <= file.specs && (!ok ==> file.specs == old(file.specs))
    ensures Swapped(old(file.specs), file.nameOf, ruleImports, overrides)
    ensures ok <==> Unshadowed(overrides, locals)
                    && var meaning := Meaning(t, overrides, node, args);
                       Addable(old(file.specs), file.nameOf, UsedRuleImports([meaning] + root, ruleImports, overrides))
    ensures ok ==> e == Meaning(t, overrides, node, args)
    ensures ok ==> forall i :: |old(file.specs)| <= i < |file.specs| ==>
                     var a := AliasOf(file.specs[i], file.nameOf);
                     && a in ruleImports && ruleImports[a] == file.specs[i].path && a !in overrides
                     && (a == "." || a == "_" || a in AllSelected([e] + root))
    ensures ok ==> forall a :: a in ruleImports && (a == "." || a == "_") ==> Known(file.specs, ruleImports[a])
    ensures ok ==> forall q :: q in ruleImports && !Special(q) && Qualifies(t, q) ==>
                     RefersTo(file.specs, file.nameOf, Replaced(overrides, q), ruleImports[q])
  {
    ghost var specs0 := file.specs;
    var names := RegularNames(file.specs, file.nameOf);
    overrides := ResolveAliasOverrides(ruleImports, names);
    OverridesMean(specs0, file.nameOf, names, ruleImports, overrides);
    if !Unshadowed(overrides, locals) { return node, overrides, false; }
    OverridesAreOk(file.specs, file.nameOf, names, ruleImports, overrides);
    e := Compile(Render(t), overrides, node, args);
    CompileMeans(t, overrides, node, args);
    UsedExactly([e] + root, ruleImports, overrides);
    ok := AddRuleImports(file, UsedRuleImports([e] + root, ruleImports, overrides));
    if ok {
      forall q | q in ruleImports && !Special(q) && Qualifies(t, q)
        ensures RefersTo(file.specs, file.nameOf, Replaced(overrides, q), ruleImports[q])
      {
        if q !in overrides { QualifierStays(t, q, overrides, node, args); }
        QualifierRefers(specs0, file.specs, file.nameOf, names, ruleImports, overrides, [e] + root, q);
      }
    }
  }

  lemma {:induction false} OverridesAreOk(specs: seq<Spec>, nameOf: string -> string, names: map<string, set<string>>,
      ruleImports: map<string, string>, overrides: map<string, string>)
    requires Names(specs, nameOf, names) && Overrides(ruleImports, names, overrides, {})
             && Unmarked(specs, nameOf, ruleImports)
    ensures OverridesOk(overrides)
  {
    forall q | q in overrides
      ensures overrides[q] != "_" && q != "_" && !HasPrefix(overrides[q], MARKER) && !HasPrefix(q, MARKER) {
      var a, path := overrides[q], ruleImports[q];
      assert path in names && a in names[path];
      assert !Special(a) && Resolves(specs, nameOf, a, path);
    }
  }
}
