/** Code written by a rule and put around an expression of the target: which names are rewritten,
    and which come back as they were.
 */
module Templates {
  import opened Basics
  import Decimal

  /** Go expressions, as far as names matter. */
  datatype Expr = Ident(name: string) | Sel(x: Expr, sel: string) | Node(kind: nat, kids: seq<Expr>)

  const MARKER := "_OTELCDYN_"
  const PLACEHOLDER := "PLACEHOLDER_0"
  const CALLARG := "CALLARG_"

  function TrimPrefix(s: string, p: string): string { if HasPrefix(s, p) then s[|p|..] else s }

  // ---------------------------------------------------------------- the four steps on the parsed text

  function Replaced(overrides: map<string, string>, q: string): string { if q in overrides then overrides[q] else q }

  /** Rename the qualifiers of selectors, all at once. */
  function Requalify(e: Expr, overrides: map<string, string>): Expr
    decreases e, 1
  {
    match e
    case Ident(_) => e
    case Sel(Ident(q), s) => Sel(Ident(Replaced(overrides, q)), s)
    case Sel(x, s) => Sel(Requalify(x, overrides), s)
    case Node(k, kids) => Node(k, RequalifyAll(kids, overrides))
  }

  function RequalifyAll(es: seq<Expr>, overrides: map<string, string>): seq<Expr>
    decreases es, 0
  {
    if es == [] then [] else [Requalify(es[0], overrides)] + RequalifyAll(es[1..], overrides)
  }

  /** Take the marker off every identifier. */
  function Strip(e: Expr): Expr
    decreases e, 1
  {
    match e
    case Ident(n) => Ident(TrimPrefix(n, MARKER))
    case Sel(x, s) => Sel(Strip(x), TrimPrefix(s, MARKER))
    case Node(k, kids) => Node(k, StripAll(kids))
  }

  function StripAll(es: seq<Expr>): seq<Expr>
    decreases es, 0
  {
    if es == [] then [] else [Strip(es[0])] + StripAll(es[1..])
  }

  /** The argument a selector stands for, if it is a placeholder for one. */
  function ArgIndex(s: string, n: nat): Option<nat> {
    var digits := TrimPrefix(s, CALLARG);
    if Decimal.IsNumeral(digits) && Decimal.Atoi(digits) < n then Some(Decimal.Atoi(digits)) else None
  }

  /** Put copies of the call's arguments in; what was put in is not looked at again. */
  function SwapArgs(e: Expr, args: seq<Expr>): Expr
    decreases e, 1
  {
    match e
    case Ident(_) => e
    case Sel(x, s) => if x == Ident("_") && ArgIndex(s, |args|).Some? then args[ArgIndex(s, |args|).value]
      else Sel(SwapArgs(x, args), s)
    case Node(k, kids) => Node(k, SwapArgsAll(kids, args))
  }

  function SwapArgsAll(es: seq<Expr>, args: seq<Expr>): seq<Expr>
    decreases es, 0
  {
    if es == [] then [] else [SwapArgs(es[0], args)] + SwapArgsAll(es[1..], args)
  }

  /** Put the wrapped expression in. */
  function SwapHole(e: Expr, node: Expr): Expr
    decreases e, 1
  {
    match e
    case Ident(_) => e
    case Sel(x, s) => if x == Ident("_") && s == PLACEHOLDER then node else Sel(SwapHole(x, node), s)
    case Node(k, kids) => Node(k, SwapHoleAll(kids, node))
  }

  function SwapHoleAll(es: seq<Expr>, node: Expr): seq<Expr>
    decreases es, 0
  {
    if es == [] then [] else [SwapHole(es[0], node)] + SwapHoleAll(es[1..], node)
  }

  function Compile(parsed: Expr, overrides: map<string, string>, node: Expr, args: seq<Expr>): Expr {
    SwapHole(SwapArgs(Strip(Requalify(parsed, overrides)), args), node)
  }

  // ---------------------------------------------------------------- where names come from

  /** A name the rule wrote, or one rendered from the target function. */
  datatype Name = Rule(n: string) | Target(n: string)

  datatype Template =
    | TIdent(name: Name)
    | TSel(x: Template, sel: Name)
    | TNode(kind: nat, kids: seq<Template>)
    | Hole                                   // {{ . }}
    | ArgHole(i: nat)                        // {{ .CallArgument i }}

  function Text(n: Name): string { match n case Rule(s) => s case Target(s) => MARKER + s }

  function Render(t: Template): Expr
    decreases t, 1
  {
    match t
    case TIdent(n) => Ident(Text(n))
    case TSel(x, s) => Sel(Render(x), Text(s))
    case TNode(k, kids) => Node(k, RenderAll(kids))
    case Hole => Sel(Ident("_"), PLACEHOLDER)
    case ArgHole(i) => Sel(Ident("_"), CALLARG + Decimal.Itoa(i))
  }

  function RenderAll(ts: seq<Template>): seq<Expr>
    decreases ts, 0
  {
    if ts == [] then [] else [Render(ts[0])] + RenderAll(ts[1..])
  }

  /** What the template means: the rule's qualifiers renamed, everything of the target untouched. */
  function Meaning(t: Template, overrides: map<string, string>, node: Expr, args: seq<Expr>): Expr
    requires ArgsExist(t, |args|)
    decreases t, 1
  {
    match t
    case TIdent(n) => Ident(n.n)
    case TSel(TIdent(Rule(q)), s) => Sel(Ident(Replaced(overrides, q)), s.n)
    case TSel(x, s) => Sel(Meaning(x, overrides, node, args), s.n)
    case TNode(k, kids) => Node(k, MeaningAll(kids, overrides, node, args))
    case Hole => node
    case ArgHole(i) => args[i]
  }

  function MeaningAll(ts: seq<Template>, overrides: map<string, string>, node: Expr, args: seq<Expr>): seq<Expr>
    requires ArgsExistAll(ts, |args|)
    decreases ts, 0
  {
    if ts == [] then [] else [Meaning(ts[0], overrides, node, args)] + MeaningAll(ts[1..], overrides, node, args)
  }

  /** Rendering fails for an argument that does not exist. */
  predicate ArgsExist(t: Template, n: nat)
    decreases t, 1
  {
    match t
    case TIdent(_) => true
    case TSel(x, _) => ArgsExist(x, n)
    case TNode(_, kids) => ArgsExistAll(kids, n)
    case Hole => true
    case ArgHole(i) => i < n
  }

  predicate ArgsExistAll(ts: seq<Template>, n: nat)
    decreases ts, 0
  {
    ts == [] || (ArgsExist(ts[0], n) && ArgsExistAll(ts[1..], n))
  }

  // ---------------------------------------------------------------- what rule and target may contain

  predicate NameOk(n: Name) {
    n.n != "_" && (n.Rule? ==> !HasPrefix(n.n, MARKER))
  }

  /** The rule does not write the marker, and nobody selects from the blank identifier. */
  predicate TemplateOk(t: Template)
    decreases t, 1
  {
    match t
    case TIdent(n) => NameOk(n)
    case TSel(x, s) => TemplateOk(x) && NameOk(s)
    case TNode(_, kids) => TemplateOkAll(kids)
    case _ => true
  }

  predicate TemplateOkAll(ts: seq<Template>)
    decreases ts, 0
  {
    ts == [] || (TemplateOk(ts[0]) && TemplateOkAll(ts[1..]))
  }

  /** An expression of the target never uses the blank identifier as a value. */
  predicate NoBlank(e: Expr)
    decreases e, 1
  {
    match e
    case Ident(n) => n != "_"
    case Sel(x, _) => NoBlank(x)
    case Node(_, kids) => NoBlankAll(kids)
  }

  predicate NoBlankAll(es: seq<Expr>)
    decreases es, 0
  {
    es == [] || (NoBlank(es[0]) && NoBlankAll(es[1..]))
  }

  predicate OverridesOk(overrides: map<string, string>) {
    "_" !in overrides && forall q :: q in overrides ==>
      overrides[q] != "_" && !HasPrefix(overrides[q], MARKER) && !HasPrefix(q, MARKER)
  }

  // ---------------------------------------------------------------- hygiene

  lemma {:induction false} HoleLeavesTarget(e: Expr, node: Expr)
    requires NoBlank(e)
    ensures SwapHole(e, node) == e
    decreases e, 1
  {
    match e
    case Ident(_) =>
    case Sel(x, _) => HoleLeavesTarget(x, node);
    case Node(_, kids) => HoleLeavesAll(kids, node);
  }

  lemma {:induction false} HoleLeavesAll(es: seq<Expr>, node: Expr)
    requires NoBlankAll(es)
    ensures SwapHoleAll(es, node) == es
    decreases es, 0
  {
    if es != [] {
      HoleLeavesTarget(es[0], node);
      HoleLeavesAll(es[1..], node);
    }
  }

  lemma {:induction false} ArgPlaceholder(i: nat, n: nat)
    requires i < n
    ensures !HasPrefix(CALLARG + Decimal.Itoa(i), MARKER) && ArgIndex(CALLARG + Decimal.Itoa(i), n) == Some(i)
  {
    var s := CALLARG + Decimal.Itoa(i);
    assert s[0] == 'C' && MARKER[0] == '_';
    assert s[..|CALLARG|] == CALLARG && s[|CALLARG|..] == Decimal.Itoa(i);
    Decimal.RoundTrip(i);
  }

  lemma {:induction false} HolePlaceholder(n: nat)
    ensures !HasPrefix(PLACEHOLDER, MARKER) && ArgIndex(PLACEHOLDER, n) == None && !HasPrefix("_", MARKER)
  {
    assert PLACEHOLDER[0] == 'P' && CALLARG[0] == 'C' && MARKER[0] == '_';
    assert !Decimal.IsDigit(PLACEHOLDER[0]) && PLACEHOLDER[0] in PLACEHOLDER;
  }

  /** Splicing leaves a selector from a named operand alone. */
  lemma {:induction false} PlainSelector(q: string, s: string, node: Expr, args: seq<Expr>)
    requires q != "_"
    ensures SwapHole(SwapArgs(Sel(Ident(q), s), args), node) == Sel(Ident(q), s)
  {
    assert Ident(q) != Ident("_") && SwapArgs(Ident(q), args) == Ident(q) && SwapHole(Ident(q), node) == Ident(q);
    assert SwapArgs(Sel(Ident(q), s), args) == Sel(Ident(q), s);
  }

  lemma {:induction false} RuleQualifier(q: string, s: Name, overrides: map<string, string>, node: Expr,
      args: seq<Expr>)
    requires NameOk(Rule(q)) && NameOk(s) && OverridesOk(overrides)
    ensures Compile(Sel(Ident(q), Text(s)), overrides, node, args) == Sel(Ident(Replaced(overrides, q)), s.n)
  {
    var q1 := Replaced(overrides, q);
    var e := Requalify(Sel(Ident(q), Text(s)), overrides);
    assert e == Sel(Ident(q1), Text(s)) && Strip(Ident(q1)) == Ident(q1);
    PlainSelector(q1, s.n, node, args);
  }

  lemma {:induction false} TargetQualifier(n: string, s: Name, overrides: map<string, string>, node: Expr,
      args: seq<Expr>)
    requires NameOk(Target(n)) && NameOk(s) && OverridesOk(overrides)
    ensures Compile(Sel(Ident(MARKER + n), Text(s)), overrides, node, args) == Sel(Ident(n), s.n)
  {
    var e := Requalify(Sel(Ident(MARKER + n), Text(s)), overrides);
    assert e == Sel(Ident(MARKER + n), Text(s)) && Strip(Ident(MARKER + n)) == Ident(n);
    PlainSelector(n, s.n, node, args);
  }

  lemma {:induction false} ArgHoleMeans(i: nat, overrides: map<string, string>, args: seq<Expr>)
    requires i < |args| && OverridesOk(overrides)
    ensures SwapArgs(Strip(Requalify(Render(ArgHole(i)), overrides)), args) == args[i]
  {
    ArgPlaceholder(i, |args|);
    HolePlaceholder(|args|);
  }

  lemma {:induction false} HoleMeans(overrides: map<string, string>, node: Expr, args: seq<Expr>)
    requires OverridesOk(overrides)
    ensures Compile(Render(Hole), overrides, node, args) == node
  {
    HolePlaceholder(|args|);
  }

  /** The operand of a selector never looks like the start of a placeholder. */
  lemma {:induction false} OperandIsNoBlank(x: Template, overrides: map<string, string>, args: seq<Expr>)
    requires !x.TIdent? && ArgsExist(x, |args|) && OverridesOk(overrides) && forall a :: a in args ==> NoBlank(a)
    ensures SwapArgs(Strip(Requalify(Render(x), overrides)), args) != Ident("_")
  {
    match x
    case ArgHole(i) =>
      ArgHoleMeans(i, overrides, args);
      assert args[i] in args && NoBlank(args[i]);
    case Hole => HolePlaceholder(|args|);
    case TNode(_, _) =>
    case TSel(y, s) =>
      var e := Strip(Requalify(Render(x), overrides));
      assert e.Sel?;
      if e.x == Ident("_") && ArgIndex(e.sel, |args|).Some? { assert NoBlank(args[ArgIndex(e.sel, |args|).value]); }
  }

  /** Rewriting first and splicing afterwards is hygienic: the rule's qualifiers are renamed, names
      rendered from the target come back as they are even when they equal an alias, and the wrapped
      expression and its arguments are put in unchanged. */
  lemma {:induction false} CompileMeans(t: Template, overrides: map<string, string>, node: Expr, args: seq<Expr>)
    requires TemplateOk(t) && ArgsExist(t, |args|) && OverridesOk(overrides) && forall a :: a in args ==> NoBlank(a)
    ensures Compile(Render(t), overrides, node, args) == Meaning(t, overrides, node, args)
    decreases t, 1
  {
    match t
    case TIdent(n) =>
    case Hole => HoleMeans(overrides, node, args);
    case ArgHole(i) =>
      ArgHoleMeans(i, overrides, args);
      HoleLeavesTarget(args[i], node);
    case TNode(k, kids) => CompileMeansAll(kids, overrides, node, args);
    case TSel(x, s) =>
      if x.TIdent? {
        if x.name.Rule? {
          RuleQualifier(x.name.n, s, overrides, node, args);
        } else {
          TargetQualifier(x.name.n, s, overrides, node, args);
        }
      } else {
        OperandIsNoBlank(x, overrides, args);
        CompileMeans(x, overrides, node, args);
      }
  }

  function CompileAll(es: seq<Expr>, overrides: map<string, string>, node: Expr, args: seq<Expr>): seq<Expr> {
    SwapHoleAll(SwapArgsAll(StripAll(RequalifyAll(es, overrides)), args), node)
  }

  lemma {:induction false} CompileMeansAll(ts: seq<Template>, overrides: map<string, string>, node: Expr,
      args: seq<Expr>)
    requires TemplateOkAll(ts) && ArgsExistAll(ts, |args|) && OverridesOk(overrides) && forall a :: a in args ==>
             NoBlank(a)
    ensures CompileAll(RenderAll(ts), overrides, node, args) == MeaningAll(ts, overrides, node, args)
    decreases ts, 0
  {
    if ts != [] {
      CompileMeans(ts[0], overrides, node, args);
      CompileMeansAll(ts[1..], overrides, node, args);
    }
  }

}
