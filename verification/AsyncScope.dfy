/**
 Which names a statement list reads from outside, which it introduces, and the fact that execution
 depends on nothing else.
 */
module AsyncScope {
  import opened Wrappers
  import opened AsyncSyntax
  import opened AsyncDirect
  import opened AsyncMachine

  function SourceMentions(src: Source): set<string> {
    match src
    case Range(a, b, c, _) => Mentions(a) + Mentions(b) + Mentions(c)
    case Elements(e) => Mentions(e)
  }

  function Elems(xs: seq<string>): set<string> {
    set x | x in xs
  }

  /** Names a declaration makes available to the statements after it. */
  function Defines(st: Stmt): set<string> {
    match st
    case Decl(x, _) => {x}
    case _ => {}
  }

  function DefinesAll(b: seq<Stmt>): set<string> {
    if b == [] then {} else Defines(b[0]) + DefinesAll(b[1..])
  }

  /** Names read, or assigned, before the statement itself declares them. */
  function Reads(st: Stmt): set<string> {
    match st
    case Decl(_, e) => Mentions(e)
    case Assign(x, e) => {x} + Mentions(e)
    case Do(e) => Mentions(e)
    case Assert(c) => Mentions(c)
    case Return(None) => {}
    case Return(Some(e)) => Mentions(e)
    case If(c, t, f) => Mentions(c) + ReadsAll(t) + ReadsAll(f)
    case Match(e, arms) => Mentions(e) + ReadsArms(arms)
    case While(c, _, b, h, f) => Mentions(c) + ReadsAll(b) + (if h then ReadsAll(f) else {})
    case Foreach(item, src, b) => SourceMentions(src) + (ReadsAll(b) - {item})
    case Block(b) => ReadsAll(b)
  }

  function ReadsAll(b: seq<Stmt>): set<string> {
    if b == [] then {} else Reads(b[0]) + (ReadsAll(b[1..]) - Defines(b[0]))
  }

  function ReadsArms(arms: seq<Arm>): set<string> {
    if arms == [] then {} else (ReadsAll(arms[0].body) - Elems(arms[0].binds)) + ReadsArms(arms[1..])
  }

  /** Names declared by variable declarations, at any depth. */
  function Declared(st: Stmt): set<string> {
    match st
    case Decl(x, _) => {x}
    case If(_, t, f) => DeclaredAll(t) + DeclaredAll(f)
    case Match(_, arms) => DeclaredArms(arms)
    case While(_, _, b, h, f) => DeclaredAll(b) + (if h then DeclaredAll(f) else {})
    case Foreach(_, _, b) => DeclaredAll(b)
    case Block(b) => DeclaredAll(b)
    case _ => {}
  }

  function DeclaredAll(b: seq<Stmt>): set<string> {
    if b == [] then {} else Declared(b[0]) + DeclaredAll(b[1..])
  }

  function DeclaredArms(arms: seq<Arm>): set<string> {
    if arms == [] then {} else DeclaredAll(arms[0].body) + DeclaredArms(arms[1..])
  }

  /** Names bound by iterations and match arms, at any depth. */
  function Bound(st: Stmt): set<string> {
    match st
    case If(_, t, f) => BoundAll(t) + BoundAll(f)
    case Match(_, arms) => BoundArms(arms)
    case While(_, _, b, h, f) => BoundAll(b) + (if h then BoundAll(f) else {})
    case Foreach(item, _, b) => {item} + BoundAll(b)
    case Block(b) => BoundAll(b)
    case _ => {}
  }

  function BoundAll(b: seq<Stmt>): set<string> {
    if b == [] then {} else Bound(b[0]) + BoundAll(b[1..])
  }

  function BoundArms(arms: seq<Arm>): set<string> {
    if arms == [] then {} else Elems(arms[0].binds) + BoundAll(arms[0].body) + BoundArms(arms[1..])
  }

  // ---------------------------------------------------------------------------------------------
  // Stores that agree except on some names

  ghost predicate Agree(s: Store, t: Store, except: set<string>) {
    forall x {:trigger x in s} {:trigger x in t} {:trigger s[x]} {:trigger t[x]} ::
      x !in except ==> (x in s <==> x in t) && (x in s ==> s[x] == t[x])
  }

  ghost predicate OutAgree(a: Out, b: Out, except: set<string>) {
    match a
    case Normal(s) => b.Normal? && Agree(s, b.s, except)
    case Ret(v, s) => b.Ret? && b.v == v && Agree(s, b.s, except)
    case Fail => b.Fail?
    case Timeout => b.Timeout?
  }

  lemma {:induction false} PureAgrees(e: Expr, s: Store, t: Store, except: set<string>)
    requires Agree(s, t, except) && Mentions(e) !! except
    ensures Pure(e, s) == Pure(e, t)
  {
    match e
    case Name(x) => assert x !in except;
    case Unary(_, a) => PureAgrees(a, s, t, except);
    case Binary(_, l, r) => PureAgrees(l, s, t, except); PureAgrees(r, s, t, except);
    case Index(b, i) => PureAgrees(b, s, t, except); PureAgrees(i, s, t, except);
    case Construct(_, args) => PureAllAgrees(args, s, t, except);
    case IfExpr(c, a, b) => PureAgrees(c, s, t, except); PureAgrees(a, s, t, except); PureAgrees(b, s, t, except);
    case _ =>
  }

  lemma {:induction false} PureAllAgrees(es: seq<Expr>, s: Store, t: Store, except: set<string>)
    requires Agree(s, t, except) && AllMentions(es) !! except
    ensures PureAll(es, s) == PureAll(es, t)
  {
    if es != [] {
      PureAgrees(es[0], s, t, except);
      PureAllAgrees(es[1..], s, t, except);
    }
  }

  lemma {:induction false} EvalAgrees(p: Program, e: Expr, s: Store, t: Store, d: nat, k: nat, except: set<string>)
    requires Agree(s, t, except) && Mentions(e) !! except
    ensures Eval(p, e, s, d, k) == Eval(p, e, t, d, k)
  {
    hide Call;
    if AwaitFree(e) {
      PureAgrees(e, s, t, except);
    } else {
      match e
      case Await(_, _, args) => PureAllAgrees(args, s, t, except);
      case Unary(_, a) => EvalAgrees(p, a, s, t, d, k, except);
      case Binary(_, l, r) => EvalAgrees(p, l, s, t, d, k, except); EvalAgrees(p, r, s, t, d, k, except);
      case _ =>
    }
  }

  lemma OpenAgrees(src: Source, s: Store, t: Store, except: set<string>)
    requires Agree(s, t, except) && SourceMentions(src) !! except
    ensures Open(src, s) == Open(src, t) && OpenCursor(src, s) == OpenCursor(src, t)
    ensures Open(src, s).Some? && Open(src, s).value.InPlace? ==> Open(src, s).value.variable !in except
    ensures OpenCursor(src, s).Some? ==> !OpenCursor(src, s).value.LostAt?
    ensures OpenCursor(src, s).Some? && OpenCursor(src, s).value.NameAt? ==>
              OpenCursor(src, s).value.variable !in except
  {
    match src
    case Range(a, b, c, _) => PureAgrees(a, s, t, except); PureAgrees(b, s, t, except); PureAgrees(c, s, t, except);
    case Elements(e) =>
      PureAgrees(e, s, t, except);
      if e.Name? {
        assert e.x !in except;
      }
  }

  lemma {:induction false} BindAgrees(params: seq<string>, args: seq<Value>)
    requires |params| == |args|
    ensures Bind(params, args).Keys == Elems(params)
  {
    if params != [] {
      var n := |params| - 1;
      BindAgrees(params[..n], args[..n]);
      assert params == params[..n] + [params[n]];
    }
  }

  lemma AgreeBound(s: Store, t: Store, more: Store, except: set<string>, bound: set<string>)
    requires Agree(s, t, except) && more.Keys == bound
    ensures Agree(s + more, t + more, except - bound)
  {
  }

  lemma {:induction false} ExecAgrees(p: Program, b: seq<Stmt>, s: Store, t: Store, d: nat, k: nat, except: set<string>)
    requires Agree(s, t, except) && ReadsAll(b) !! except
    ensures OutAgree(Exec(p, b, s, d, k), Exec(p, b, t, d, k), except)
    ensures Exec(p, b, s, d, k).Normal? ==> OutAgree(Exec(p, b, s, d, k), Exec(p, b, t, d, k), except - DefinesAll(b))
    decreases k, b, 1
  {
    if b != [] {
      StmtAgrees(p, b[0], s, t, d, k, except);
      match ExecStmt(p, b[0], s, d, k) {
        case Normal(s1) =>
          var t1 := ExecStmt(p, b[0], t, d, k).s;
          ExecAgrees(p, b[1..], s1, t1, d, k, except - Defines(b[0]));
        case _ =>
      }
    }
  }

  lemma {:induction false} StmtAgrees(p: Program, st: Stmt, s: Store, t: Store, d: nat, k: nat, except: set<string>)
    requires Agree(s, t, except) && Reads(st) !! except
    ensures OutAgree(ExecStmt(p, st, s, d, k), ExecStmt(p, st, t, d, k), except)
    ensures ExecStmt(p, st, s, d, k).Normal? ==>
              OutAgree(ExecStmt(p, st, s, d, k), ExecStmt(p, st, t, d, k), except - Defines(st))
    decreases k, st, 2
  {
    hide Eval, Pure, Exec, ExecArms, ExecWhile, ExecFor, Open, OpenCursor;
    match st
    case Decl(_, e) => EvalAgrees(p, e, s, t, d, k, except);
    case Assign(x, e) => EvalAgrees(p, e, s, t, d, k, except); assert x !in except;
    case Do(e) => EvalAgrees(p, e, s, t, d, k, except);
    case Assert(c) => PureAgrees(c, s, t, except);
    case Return(None) =>
    case Return(Some(e)) => EvalAgrees(p, e, s, t, d, k, except);
    case If(c, a, f) =>
      PureAgrees(c, s, t, except);
      ExecAgrees(p, a, s, t, d, k, except);
      ExecAgrees(p, f, s, t, d, k, except);
    case Match(e, arms) =>
      PureAgrees(e, s, t, except);
      match Pure(e, s) {
        case Some(Variant(tag, payload)) => ArmsAgree(p, arms, tag, payload, s, t, d, k, except);
        case _ =>
      }
    case While(_, _, _, _, _) => WhileAgrees(p, st, 0, s, t, d, k, except);
    case Foreach(_, src, _) =>
      OpenAgrees(src, s, t, except);
      if Open(src, s).Some? {
        ForAgrees(p, st, Open(src, s).value, s, t, d, k, except);
      }
    case Block(b) => ExecAgrees(p, b, s, t, d, k, except);
  }

  lemma {:induction false} ArmsAgree(p: Program, arms: seq<Arm>, tag: string, payload: seq<Value>, s: Store, t: Store,
                                     d: nat, k: nat, except: set<string>)
    requires Agree(s, t, except) && ReadsArms(arms) !! except
    ensures OutAgree(ExecArms(p, arms, tag, payload, s, d, k), ExecArms(p, arms, tag, payload, t, d, k), except)
    decreases k, arms, 3
  {
    hide Exec;
    if arms != [] {
      if arms[0].tag == tag {
        if |arms[0].binds| == |payload| {
          var more := Bind(arms[0].binds, payload);
          BindAgrees(arms[0].binds, payload);
          AgreeBound(s, t, more, except, more.Keys);
          ExecAgrees(p, arms[0].body, s + more, t + more, d, k, except - more.Keys);
        }
      } else {
        ArmsAgree(p, arms[1..], tag, payload, s, t, d, k, except);
      }
    }
  }

  lemma {:induction false} WhileAgrees(p: Program, w: Stmt, done: nat, s: Store, t: Store, d: nat, k: nat,
                                       except: set<string>)
    requires w.While? && Agree(s, t, except) && Reads(w) !! except
    ensures OutAgree(ExecWhile(p, w, done, s, d, k), ExecWhile(p, w, done, t, d, k), except)
    decreases k, w, 1
  {
    hide Pure, Exec;
    if k > 0 {
      PureAgrees(w.c, s, t, except);
      if w.hasElse {
        ExecAgrees(p, w.els, s, t, d, k - 1, except);
      }
      ExecAgrees(p, w.body, s, t, d, k - 1, except);
      match Exec(p, w.body, s, d, k - 1) {
        case Normal(s1) => WhileAgrees(p, w, done + 1, s1, Exec(p, w.body, t, d, k - 1).s, d, k - 1, except);
        case _ =>
      }
    }
  }

  lemma {:induction false} ForAgrees(p: Program, f: Stmt, it: Iteration, s: Store, t: Store, d: nat, k: nat,
                                     except: set<string>)
    requires f.Foreach? && Agree(s, t, except) && Reads(f) !! except && (it.InPlace? ==> it.variable !in except)
    ensures OutAgree(ExecFor(p, f, it, s, d, k), ExecFor(p, f, it, t, d, k), except)
    decreases k, f, 1
  {
    hide Exec;
    if k > 0 {
      assert Current(it, s) == Current(it, t);
      match Current(it, s) {
        case None =>
        case Some(v) =>
          var s0, t0 := s[f.item := v], t[f.item := v];
          ExecAgrees(p, f.body, s0, t0, d, k - 1, except - {f.item});
          match Exec(p, f.body, s0, d, k - 1) {
            case Normal(s1) => ForAgrees(p, f, Following(it), s1, Exec(p, f.body, t0, d, k - 1).s, d, k - 1, except);
            case _ =>
          }
      }
    }
  }

  // ---------------------------------------------------------------------------------------------
  // Execution adds no names but those the statements introduce

  ghost predicate KeysWithin(o: Out, names: set<string>) {
    match o
    case Normal(s) => s.Keys <= names
    case Ret(_, s) => s.Keys <= names
    case _ => true
  }

  lemma {:induction false} ExecKeys(p: Program, b: seq<Stmt>, s: Store, d: nat, k: nat, names: set<string>)
    requires s.Keys <= names && DeclaredAll(b) + BoundAll(b) <= names
    ensures KeysWithin(Exec(p, b, s, d, k), names)
    decreases k, b, 1
  {
    if b != [] {
      StmtKeys(p, b[0], s, d, k, names);
      match ExecStmt(p, b[0], s, d, k) {
        case Normal(s1) => ExecKeys(p, b[1..], s1, d, k, names);
        case _ =>
      }
    }
  }

  lemma {:induction false} StmtKeys(p: Program, st: Stmt, s: Store, d: nat, k: nat, names: set<string>)
    requires s.Keys <= names && Declared(st) + Bound(st) <= names
    ensures KeysWithin(ExecStmt(p, st, s, d, k), names)
    decreases k, st, 2
  {
    hide Eval, Pure, Exec;
    match st
    case If(_, a, f) => ExecKeys(p, a, s, d, k, names); ExecKeys(p, f, s, d, k, names);
    case Match(e, arms) =>
      match Pure(e, s) {
        case Some(Variant(tag, payload)) => ArmsKeys(p, arms, tag, payload, s, d, k, names);
        case _ =>
      }
    case While(_, _, _, _, _) => WhileKeys(p, st, 0, s, d, k, names);
    case Foreach(_, src, _) =>
      if Open(src, s).Some? {
        ForKeys(p, st, Open(src, s).value, s, d, k, names);
      }
    case Block(b) => ExecKeys(p, b, s, d, k, names);
    case _ =>
  }

  lemma {:induction false} ArmsKeys(p: Program, arms: seq<Arm>, tag: string, payload: seq<Value>, s: Store,
                                    d: nat, k: nat, names: set<string>)
    requires s.Keys <= names && DeclaredArms(arms) + BoundArms(arms) <= names
    ensures KeysWithin(ExecArms(p, arms, tag, payload, s, d, k), names)
    decreases k, arms, 3
  {
    hide Exec;
    if arms != [] {
      if arms[0].tag == tag {
        if |arms[0].binds| == |payload| {
          BindAgrees(arms[0].binds, payload);
          ExecKeys(p, arms[0].body, s + Bind(arms[0].binds, payload), d, k, names);
        }
      } else {
        ArmsKeys(p, arms[1..], tag, payload, s, d, k, names);
      }
    }
  }

  lemma {:induction false} WhileKeys(p: Program, w: Stmt, done: nat, s: Store, d: nat, k: nat, names: set<string>)
    requires w.While? && s.Keys <= names && Declared(w) + Bound(w) <= names
    ensures KeysWithin(ExecWhile(p, w, done, s, d, k), names)
    decreases k, w, 1
  {
    hide Pure, Exec;
    if k > 0 {
      if w.hasElse {
        ExecKeys(p, w.els, s, d, k - 1, names);
      }
      ExecKeys(p, w.body, s, d, k - 1, names);
      match Exec(p, w.body, s, d, k - 1) {
        case Normal(s1) => WhileKeys(p, w, done + 1, s1, d, k - 1, names);
        case _ =>
      }
    }
  }

  lemma {:induction false} ForKeys(p: Program, f: Stmt, it: Iteration, s: Store, d: nat, k: nat, names: set<string>)
    requires f.Foreach? && s.Keys <= names && Declared(f) + Bound(f) <= names
    ensures KeysWithin(ExecFor(p, f, it, s, d, k), names)
    decreases k, f, 1
  {
    hide Exec;
    if k > 0 && Current(it, s).Some? {
      var s0 := s[f.item := Current(it, s).value];
      ExecKeys(p, f.body, s0, d, k - 1, names);
      match Exec(p, f.body, s0, d, k - 1) {
        case Normal(s1) => ForKeys(p, f, Following(it), s1, d, k - 1, names);
        case _ =>
      }
    }
  }
}
