/** The walk over a function body as the compiler runs it: one object per function, updated in place. */
module AccessWalker {
  import opened Wrappers
  import opened AccessModel

  class FunctionState {
    const structs: map<string, seq<Field>>
    const fn: nat
    var locals: Locals
    var entries: seq<Entry>
    var calls: seq<Call>
    var sequence: nat

    ghost function State(): Walk
      reads this
    {
      Walk(locals, entries, calls, sequence)
    }

    constructor (structs: map<string, seq<Field>>, fn: nat, params: seq<Param>)
      ensures this.structs == structs && this.fn == fn
      ensures State() == Walk(ParamLocals(fn, params), [], [], 0)
    {
      this.structs, this.fn := structs, fn;
      entries, calls, sequence := [], [], 0;
      locals := ParamLocals(fn, params);
    }

    /** `evt1AccessEntry`, appended. */
    method Note(kind: AccessKind, s: Subject, site: nat)
      modifies this
      ensures State() == Noted(old(State()), kind, s, fn, site)
    {
      sequence := sequence + 1;
      entries := entries + [Entry(kind, s, fn, sequence, site)];
    }

    method NoteRead(e: Expr, site: nat)
      modifies this
      ensures State() == WalkRead(structs, fn, old(State()), e, site)
    {
      var s := Resolve(structs, locals, fn, e);
      if s.root.Parameter? {
        Note(Read, s, site);
      }
    }

    method VisitAll(es: seq<Expr>)
      modifies this
      ensures State() == WalkAll(structs, fn, old(State()), es)
      decreases es, 0
    {
      for i := 0 to |es|
        invariant WalkAll(structs, fn, old(State()), es) == WalkAll(structs, fn, State(), es[i..])
      {
        assert es[i..][0] == es[i] && es[i..][1..] == es[i + 1..];
        VisitExpr(es[i]);
      }
    }

    method VisitOperands(e: Expr)
      modifies this
      ensures State() == WalkOperands(structs, fn, old(State()), e)
      decreases e, 0
    {
      if e.IndexOf? && |e.indices| != 0 {
        VisitExpr(e.indices[0]);
        VisitAll(e.indices);
      }
    }

    /** `evt1AccessExpr`. */
    method VisitExpr(e: Expr)
      modifies this
      ensures State() == WalkExpr(structs, fn, old(State()), e)
      decreases e, 1
    {
      match e
      case Name(_, site) => NoteRead(e, site);
      case FieldOf(_, _, _, site) => NoteRead(e, site);
      case IndexOf(_, _, site) => NoteRead(e, site); VisitOperands(e);
      case RefTo(x) => VisitOperands(x);
      case Paren(x) => VisitExpr(x);
      case CallTo(callee, args, site) =>
        VisitAll(args);
        var kinds := AtomicKinds(callee);
        if |args| != 0 {
          var s := Resolve(structs, locals, fn, args[0]);
          ghost var before := State();
          for i := 0 to |kinds|
            invariant NotedAll(before, kinds, s, fn, site) == NotedAll(State(), kinds[i..], s, fn, site)
          {
            assert kinds[i..][0] == kinds[i] && kinds[i..][1..] == kinds[i + 1..];
            Note(kinds[i], s, site);
          }
        }
        sequence := sequence + 1;
        calls := calls + [Call(callee, args, sequence)];
      case Compound(es) => VisitAll(es);
      case Skipped(_) =>
      case Lit(_) =>
    }

    /** `evt1AccessBlock`, one statement. */
    method VisitStmt(st: Stmt)
      modifies this
      ensures State() == WalkStmt(structs, fn, old(State()), st)
      decreases st, 1
    {
      match st
      case Decl(x, ty, e) =>
        VisitExpr(e);
        locals := locals[x := Plain(Value(fn, x, ty), ty, Exact)];
      case Assign(target, e, site) =>
        VisitExpr(e);
        var s := Resolve(structs, locals, fn, target);
        if s.root.Parameter? || s.root.NoRoot? {
          Note(Write, s, site);
        }
        VisitOperands(target);
      case Do(e) => VisitExpr(e);
      case If(c, t, f) => VisitExpr(c); VisitBlock(t); VisitBlock(f);
      case While(c, b) => VisitExpr(c); VisitBlock(b);
      case Block(b) => VisitBlock(b);
    }

    method VisitBlock(b: seq<Stmt>)
      modifies this
      ensures State() == WalkBlock(structs, fn, old(State()), b)
      decreases b, 0
    {
      for i := 0 to |b|
        invariant WalkBlock(structs, fn, old(State()), b) == WalkBlock(structs, fn, State(), b[i..])
      {
        assert b[i..][0] == b[i] && b[i..][1..] == b[i + 1..];
        VisitStmt(b[i]);
      }
    }
  }

  /** The walks over all functions, in order. */
  method WalkProgram(p: Program) returns (walks: seq<Walk>)
    ensures |walks| == |p.fns| && forall f :: 0 <= f < |p.fns| ==> walks[f] == Walked(p, f)
  {
    walks := [];
    for f := 0 to |p.fns|
      invariant |walks| == f && forall g :: 0 <= g < f ==> walks[g] == Walked(p, g)
    {
      var state := new FunctionState(p.structs, f, p.fns[f].params);
      state.VisitBlock(p.fns[f].body);
      walks := walks + [Walk(state.locals, state.entries, state.calls, state.sequence)];
    }
  }
}
