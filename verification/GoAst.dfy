/** The mutable syntax trees the instrumenter edits in place. */
module GoAst {
  import opened TJumpSemantics

  const T_JUMP_LABEL := "/* __TRAMPOLINE_JUMP_IF__ */"

  /** A field of a parameter list: its names, none for an unnamed field. */
  type Field = seq<string>

  /** A statement of a list: one whose structure does not matter here, or an `if` node. */
  datatype Item = Plain(s: Stmt) | Nested(node: IfNode)

  class IfNode {
    var labels: seq<string>
    var init: Init
    var cond: Cond
    var body: seq<Stmt>
    var els: seq<Item>

    constructor (init: Init, cond: Cond, body: seq<Stmt>, els: seq<Item>)
      ensures labels == [] && this.init == init && this.cond == cond && this.body == body && this.els == els
    {
      labels, this.init, this.cond, this.body, this.els := [], init, cond, body, els;
    }
  }

  class FuncDecl {
    const name: string
    var recv: seq<Field>
    var params: seq<Field>
    var results: seq<Field>
    var body: seq<Item>

    constructor (name: string, recv: seq<Field>, params: seq<Field>, results: seq<Field>, body: seq<Item>)
      requires |recv| <= 1 && (recv != [] ==> |recv[0]| <= 1)
      ensures this.name == name && this.recv == recv && this.params == params && this.results == results
              && this.body == body
    {
      this.name, this.recv, this.params, this.results, this.body := name, recv, params, results, body;
    }
  }

  /** A declaration of the target file: a trampoline and whether it calls a hook, or anything else. */
  datatype Decl = Trampoline(name: TrampName, hooked: bool) | OtherDecl(n: nat)

  class File {
    var decls: seq<Decl>

    constructor (decls: seq<Decl>)
      ensures this.decls == decls
    {
      this.decls := decls;
    }
  }
}
