/**
 Functions, the accesses their bodies make, and how an expression is resolved to the storage it names.
 A function is identified by its position in the program; a site stands for a source position.
 */
module AccessModel {
  import opened Wrappers

  /** Value types.  An array of rank `r` is indexed by `r` integers. */
  datatype Ty = Named(name: string) | ArrayOf(elem: Ty, rank: nat)

  const UNTYPED: Ty := Named("")

  /** A byte interval of a declared layout region. */
  datatype Region = Region(id: string, offset: int, extent: int)

  /**
   A compound evaluates its operands, and so does `Skipped`, a form that the walk has no case for: a cast,
   `interpret`, `?` or `!`.
   */
  datatype Expr =
    | Name(x: string, site: nat)
    | Lit(n: int)
    | FieldOf(receiver: Expr, field: string, region: Option<Region>, site: nat)
    | IndexOf(base: Expr, indices: seq<Expr>, site: nat)
    | RefTo(e: Expr)
    | Paren(e: Expr)
    | CallTo(callee: string, args: seq<Expr>, site: nat)
    | Compound(operands: seq<Expr>)
    | Skipped(operands: seq<Expr>)

  datatype Stmt =
    | Decl(x: string, ty: Ty, e: Expr)
    | Assign(target: Expr, e: Expr, site: nat)
    | Do(e: Expr)
    | If(c: Expr, thn: seq<Stmt>, els: seq<Stmt>)
    | While(c: Expr, body: seq<Stmt>)
    | Block(stmts: seq<Stmt>)

  datatype Param = Param(name: string, ty: Ty)

  /** A field of a declared layout has a region. */
  datatype Field = Field(name: string, ty: Ty, region: Option<Region>)

  datatype Fn = Fn(name: string, params: seq<Param>, context: Option<string>, body: seq<Stmt>)

  datatype Program = Program(structs: map<string, seq<Field>>, fns: seq<Fn>)

  // ---------------------------------------------------------------------------------------------
  // Subjects

  datatype Element = FieldAt(field: string, ordinal: int) | IndexAt(index: int) | DynamicIndex

  datatype Resolution = Exact | Interval | Opaque

  datatype Root =
    | Parameter(fn: nat, ordinal: nat, name: string, ty: Ty)
    | Value(fn: nat, name: string, ty: Ty)
    | NoRoot(fn: nat)

  datatype Subject = Subject(root: Root, path: seq<Element>, ty: Ty, region: string, offset: int, extent: int,
                             resolution: Resolution)

  type Locals = map<string, Subject>

  function Plain(root: Root, ty: Ty, resolution: Resolution): Subject {
    Subject(root, [], ty, "", 0, 0, resolution)
  }

  function FieldIndex(fields: seq<Field>, name: string): int {
    if fields == [] then -1
    else if fields[0].name == name then 0
    else if FieldIndex(fields[1..], name) < 0 then -1 else 1 + FieldIndex(fields[1..], name)
  }

  lemma {:induction false} FieldIndexBounds(fields: seq<Field>, name: string)
    ensures -1 <= FieldIndex(fields, name) < |fields|
    ensures FieldIndex(fields, name) >= 0 ==> fields[FieldIndex(fields, name)].name == name
  {
    if fields != [] {
      FieldIndexBounds(fields[1..], name);
    }
  }

  /** `evt1AccessField`: the position of a field, or -1. */
  function OrdinalIn(structs: map<string, seq<Field>>, owner: Ty, field: string): int {
    if owner.Named? && owner.name in structs then FieldIndex(structs[owner.name], field) else -1
  }

  function FieldType(structs: map<string, seq<Field>>, owner: Ty, field: string): Ty {
    var k := OrdinalIn(structs, owner, field);
    if k < 0 then UNTYPED
    else
      FieldIndexBounds(structs[owner.name], field);
      structs[owner.name][k].ty
  }

  /** A literal the resolver records; a negative or oversized one counts as dynamic. */
  predicate Fixed(e: Expr) {
    e.Lit? && 0 <= e.n < 0x8000_0000_0000_0000
  }

  /** The loop over the indices, which returns at the first dynamic one. */
  function Indexed(base: Subject, indices: seq<Expr>): Subject
    decreases indices
  {
    if indices == [] then (if base.ty.ArrayOf? then base.(ty := base.ty.elem) else base)
    else if !Fixed(indices[0]) then base.(path := base.path + [DynamicIndex], resolution := Opaque)
    else
      Indexed(base.(path := base.path + [IndexAt(indices[0].n)], offset := base.offset + indices[0].n, extent := 1,
                    resolution := Interval), indices[1..])
  }

  function Projected(structs: map<string, seq<Field>>, base: Subject, field: string): Subject {
    var ty := FieldType(structs, base.ty, field);
    base.(path := base.path + [FieldAt(field, OrdinalIn(structs, base.ty, field))],
          ty := if ty == UNTYPED then base.ty else ty)
  }

  function Placed(s: Subject, region: Option<Region>): Subject {
    match region
    case None => s
    case Some(r) =>
      if r.id == "" then s
      else s.(region := r.id, offset := r.offset, extent := r.extent, resolution := Interval)
  }

  /** `evt1AccessResolveSubject`. */
  function Resolve(structs: map<string, seq<Field>>, locals: Locals, fn: nat, e: Expr): Subject {
    match e
    case RefTo(x) => Resolve(structs, locals, fn, x)
    case Paren(x) => Resolve(structs, locals, fn, x)
    case Name(x, _) => if x in locals then locals[x] else Plain(Value(fn, x, UNTYPED), UNTYPED, Opaque)
    case FieldOf(r, f, region, _) => Placed(Projected(structs, Resolve(structs, locals, fn, r), f), region)
    case IndexOf(b, indices, _) => Indexed(Resolve(structs, locals, fn, b), indices)
    case _ => Plain(NoRoot(fn), UNTYPED, Opaque)
  }

  // ---------------------------------------------------------------------------------------------
  // Entries

  datatype AccessKind = Read | Write | AtomicRead | AtomicWrite

  datatype Entry = Entry(kind: AccessKind, subject: Subject, fn: nat, sequence: nat, site: nat)

  datatype Call = Call(callee: string, args: seq<Expr>, sequence: nat)

  /** What a walk over one body has found so far. */
  datatype Walk = Walk(locals: Locals, entries: seq<Entry>, calls: seq<Call>, sequence: nat)

  function AtomicKinds(callee: string): seq<AccessKind> {
    if callee == "AtomicLoadIntrinsic" then [AtomicRead]
    else if callee == "AtomicStoreIntrinsic" then [AtomicWrite]
    else if callee == "AtomicExchangeIntrinsic" || callee == "AtomicCompareExchangeIntrinsic"
         || callee == "AtomicFetchAddIntrinsic"
    then [AtomicRead, AtomicWrite]
    else []
  }

  function Noted(w: Walk, kind: AccessKind, s: Subject, fn: nat, site: nat): Walk {
    w.(entries := w.entries + [Entry(kind, s, fn, w.sequence + 1, site)], sequence := w.sequence + 1)
  }

  function NotedAll(w: Walk, kinds: seq<AccessKind>, s: Subject, fn: nat, site: nat): Walk
    decreases kinds
  {
    if kinds == [] then w else NotedAll(Noted(w, kinds[0], s, fn, site), kinds[1..], s, fn, site)
  }

  /** The subject of the walk's own function as the walk sees it. */
  function At(structs: map<string, seq<Field>>, fn: nat, w: Walk, e: Expr): Subject {
    Resolve(structs, w.locals, fn, e)
  }

  /** `evt1AccessExpr`. */
  function WalkExpr(structs: map<string, seq<Field>>, fn: nat, w: Walk, e: Expr): (r: Walk)
    decreases e, 1
  {
    match e
    case Name(_, site) => WalkRead(structs, fn, w, e, site)
    case FieldOf(_, _, _, site) => WalkRead(structs, fn, w, e, site)
    case IndexOf(_, _, site) => WalkOperands(structs, fn, WalkRead(structs, fn, w, e, site), e)
    case RefTo(x) => WalkOperands(structs, fn, w, x)
    case Paren(x) => WalkExpr(structs, fn, w, x)
    case CallTo(callee, args, site) =>
      var w1 := WalkAll(structs, fn, w, args);
      var w2 := if args == [] then w1 else NotedAll(w1, AtomicKinds(callee), At(structs, fn, w1, args[0]), fn, site);
      w2.(sequence := w2.sequence + 1, calls := w2.calls + [Call(callee, args, w2.sequence + 1)])
    case Compound(es) => WalkAll(structs, fn, w, es)
    case Skipped(_) => w
    case Lit(_) => w
  }

  function WalkAll(structs: map<string, seq<Field>>, fn: nat, w: Walk, es: seq<Expr>): Walk
    decreases es, 0
  {
    if es == [] then w else WalkAll(structs, fn, WalkExpr(structs, fn, w, es[0]), es[1..])
  }

  /** Only storage rooted at a parameter can be seen by another context. */
  function WalkRead(structs: map<string, seq<Field>>, fn: nat, w: Walk, e: Expr, site: nat): Walk {
    var s := At(structs, fn, w, e);
    if s.root.Parameter? then Noted(w, Read, s, fn, site) else w
  }

  /** `evt1AccessTargetOperands`: the first index is visited twice, and indices further down not at all. */
  function WalkOperands(structs: map<string, seq<Field>>, fn: nat, w: Walk, e: Expr): Walk
    decreases e, 0
  {
    if e.IndexOf? && e.indices != []
    then WalkAll(structs, fn, WalkExpr(structs, fn, w, e.indices[0]), e.indices)
    else w
  }

  /** `evt1AccessBlock`. */
  function WalkStmt(structs: map<string, seq<Field>>, fn: nat, w: Walk, st: Stmt): Walk
    decreases st, 1
  {
    match st
    case Decl(x, ty, e) =>
      var w1 := WalkExpr(structs, fn, w, e);
      w1.(locals := w1.locals[x := Plain(Value(fn, x, ty), ty, Exact)])
    case Assign(target, e, site) =>
      var w1 := WalkExpr(structs, fn, w, e);
      var s := At(structs, fn, w1, target);
      var w2 := if s.root.Parameter? || s.root.NoRoot? then Noted(w1, Write, s, fn, site) else w1;
      WalkOperands(structs, fn, w2, target)
    case Do(e) => WalkExpr(structs, fn, w, e)
    case If(c, t, f) => WalkBlock(structs, fn, WalkBlock(structs, fn, WalkExpr(structs, fn, w, c), t), f)
    case While(c, b) => WalkBlock(structs, fn, WalkExpr(structs, fn, w, c), b)
    case Block(b) => WalkBlock(structs, fn, w, b)
  }

  function WalkBlock(structs: map<string, seq<Field>>, fn: nat, w: Walk, b: seq<Stmt>): Walk
    decreases b, 0
  {
    if b == [] then w else WalkBlock(structs, fn, WalkStmt(structs, fn, w, b[0]), b[1..])
  }

  function ParamLocals(fn: nat, params: seq<Param>): Locals {
    if params == [] then map[]
    else
      var last := |params| - 1;
      ParamLocals(fn, params[..last])[params[last].name :=
        Plain(Parameter(fn, last, params[last].name, params[last].ty), params[last].ty, Exact)]
  }

  /** The walk over a whole function. */
  function Walked(p: Program, fn: nat): Walk
    requires fn < |p.fns|
  {
    WalkBlock(p.structs, fn, Walk(ParamLocals(fn, p.fns[fn].params), [], [], 0), p.fns[fn].body)
  }
}
