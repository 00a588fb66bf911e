/** The behaviour the repository's test suite (tests/test.py) fixes, stated for the syntax
    trees Python parses those snippets into, with the names and positions left as parameters.
    Each lemma gives the complete list `analyze_code` returns, which fixes its length, the
    only thing the suite itself compares. */
module Scenarios {
  import opened Syntax
  import opened Assigns
  import opened Policy
  import opened Traversal

  /** `x = ...` at `q`. */
  function Let(q: Position, x: string): Stmt { Assign(q, [Name(x)]) }

  /** `pass` at `q`. */
  function Pass(q: Position): Stmt { OtherStmt(q, []) }

  /** `for x in ...:` at `q`, without an `else` block. */
  function Loop(q: Position, x: string, body: seq<Stmt>): Stmt { For(q, Name(x), body, [], false) }

  /** `with ... as target:` at `q`. */
  function WithAs(q: Position, target: Expr, body: seq<Stmt>): Stmt { With(q, [Some(target)], body, false) }

  // ----- Stepping through a traversal -----

  lemma WalkTwo(s1: Stmt, s2: Stmt, vars: map<string, Position>, p: bool)
    ensures Walk([s1, s2], vars, p) == Continue(Visit(s1, vars, p), [s2], p)
  {
    WalkCons(s1, [s2], vars, p);
    assert [s1] + [s2] == [s1, s2];
  }

  lemma WalkThree(s1: Stmt, s2: Stmt, s3: Stmt, vars: map<string, Position>, p: bool)
    ensures Walk([s1, s2, s3], vars, p) == Continue(Visit(s1, vars, p), [s2, s3], p)
  {
    WalkCons(s1, [s2, s3], vars, p);
    assert [s1] + [s2, s3] == [s1, s2, s3];
  }

  /** A statement binding the single name `x`, outside a loop body. */
  lemma VisitBindsOne(s: Stmt, x: string, vars: map<string, Position>)
    requires StmtAssigns(s) == Extracted([x], false) && !Recurses(s)
    ensures Visit(s, vars, false) ==
              var b := Bind(vars, Binding(x, s.pos));
              Run(b.vars, b.out, false)
  {
    BindNamesOne(vars, x, s.pos);
    var b := Bind(vars, Binding(x, s.pos));
    assert b.out + [] == b.out;
  }

  lemma VisitLet(q: Position, x: string, vars: map<string, Position>)
    ensures Visit(Let(q, x), vars, false) ==
              var b := Bind(vars, Binding(x, q));
              Run(b.vars, b.out, false)
  {
    AssignOneName(q, x);
    VisitBindsOne(Let(q, x), x, vars);
  }

  lemma VisitPass(q: Position, vars: map<string, Position>, p: bool)
    ensures Visit(Pass(q), vars, p) == Run(vars, [], false)
  {
  }

  /** A loop, `if` or `with` whose header binds `names`. */
  lemma VisitOpens(s: Stmt, names: seq<string>, vars: map<string, Position>, p: bool)
    requires IsLoopStmt(s) || IsBlockStmt(s)
    requires StmtAssigns(s) == Extracted(names, false)
    ensures Visit(s, vars, p) ==
              var b := BindNames(vars, names, s.pos, false);
              var w := Walk(s.body, b.vars, IsLoopStmt(s));
              Run(w.vars, b.out + w.out, w.failed)
  {
    HeaderThenBody(s, vars, p);
  }

  /** Two names bound at one position, by the normal policy. */
  lemma BindNamesTwo(vars: map<string, Position>, a: string, b: string, pos: Position)
    ensures BindNames(vars, [a, b], pos, false) ==
              var h := Bind(vars, Binding(a, pos));
              var t := Bind(h.vars, Binding(b, pos));
              Bound(t.vars, h.out + t.out)
  {
    var bs := At([a, b], pos);
    assert bs == [Binding(a, pos), Binding(b, pos)];
    assert bs[1..] == [Binding(b, pos)] && bs[1..][1..] == [];
    var h := Bind(vars, Binding(a, pos));
    var t := Bind(h.vars, Binding(b, pos));
    assert BindAll(h.vars, bs[1..]) == Bound(t.vars, t.out + []);
    assert t.out + [] == t.out;
  }

  lemma WithOneTarget(q: Position, e: Expr, body: seq<Stmt>)
    ensures StmtAssigns(WithAs(q, e, body)) == TargetNames(e)
  {
    var items := [Some(e)];
    assert items[1..] == [];
    assert ItemsNames(items[1..]) == Nothing;
    var r := TargetNames(e);
    assert r.names + [] == r.names;
  }

  lemma PairNames(a: string, b: string)
    ensures TargetNames(Tuple([Name(a), Name(b)])) == Extracted([a, b], false)
  {
    var elts := [Name(a), Name(b)];
    assert elts[1..] == [Name(b)] && elts[1..][1..] == [];
    assert TupleIds(elts[1..]) == Extracted([b], false);
  }

  // ----- Snippets the suite expects one or more violations for -----

  /** `x = 1; y = 2; y = x + y` reports the second binding of `y`. */
  lemma TwoAssignSameName(x: string, y: string, p1: Position, p2: Position, p3: Position)
    requires x != y && !Excluded(x) && !Excluded(y)
    ensures Analyze([Let(p1, x), Let(p2, y), Let(p3, y)]) == Violations([Violation(y, p3, p2)])
  {
    var m1 := map[x := p1];
    var m2 := m1[y := p2];
    VisitLet(p1, x, map[]);
    VisitLet(p2, y, m1);
    VisitLet(p3, y, m2);
    WalkOne(Let(p3, y), m2, false);
    WalkTwo(Let(p2, y), Let(p3, y), m1, false);
    WalkThree(Let(p1, x), Let(p2, y), Let(p3, y), map[], false);
  }

  /** `x = 1; y = 2; y += x`: an augmented assignment rebinds its target. */
  lemma AugAssignRebinds(x: string, y: string, p1: Position, p2: Position, p3: Position)
    requires x != y && !Excluded(x) && !Excluded(y)
    ensures Analyze([Let(p1, x), Let(p2, y), AugAssign(p3, Name(y))]) == Violations([Violation(y, p3, p2)])
  {
    var m1 := map[x := p1];
    var m2 := m1[y := p2];
    VisitLet(p1, x, map[]);
    VisitLet(p2, y, m1);
    VisitBindsOne(AugAssign(p3, Name(y)), y, m2);
    WalkOne(AugAssign(p3, Name(y)), m2, false);
    WalkTwo(Let(p2, y), AugAssign(p3, Name(y)), m1, false);
    WalkThree(Let(p1, x), Let(p2, y), AugAssign(p3, Name(y)), map[], false);
  }

  /** `a = 1; a += 1` */
  lemma IncrementVariable(a: string, p1: Position, p2: Position)
    requires !Excluded(a)
    ensures Analyze([Let(p1, a), AugAssign(p2, Name(a))]) == Violations([Violation(a, p2, p1)])
  {
    var m1 := map[a := p1];
    VisitLet(p1, a, map[]);
    VisitBindsOne(AugAssign(p2, Name(a)), a, m1);
    WalkOne(AugAssign(p2, Name(a)), m1, false);
    WalkTwo(Let(p1, a), AugAssign(p2, Name(a)), map[], false);
  }

  /** A method of a class that binds `x` twice: the method body is a scope of its own. */
  lemma TwoAssignInMethod(x: string, pc: Position, pf: Position, p1: Position, p2: Position)
    requires !Excluded(x)
    ensures Analyze([Def(pc, ClassDef, [Def(pf, FunctionDef, [Let(p1, x), Let(p2, x)])])]) ==
              Violations([Violation(x, p2, p1)])
  {
    var m1 := map[x := p1];
    var v := Violation(x, p2, p1);
    VisitLet(p1, x, map[]);
    VisitLet(p2, x, m1);
    WalkOne(Let(p2, x), m1, false);
    WalkTwo(Let(p1, x), Let(p2, x), map[], false);
    var method_ := Def(pf, FunctionDef, [Let(p1, x), Let(p2, x)]);
    assert Visit(method_, map[], false) == Run(map[], [v], false);
    WalkOne(method_, map[], false);
    var class_ := Def(pc, ClassDef, [method_]);
    assert Visit(class_, map[], false) == Run(map[], [v], false);
    WalkOne(class_, map[], false);
  }

  /** `if True:` whose body binds `a` twice. */
  lemma TwoAssignInsideBlock(a: string, pi: Position, p1: Position, p2: Position)
    requires !Excluded(a)
    ensures Analyze([If(pi, [Let(p1, a), Let(p2, a)], [])]) == Violations([Violation(a, p2, p1)])
  {
    var m1 := map[a := p1];
    VisitLet(p1, a, map[]);
    VisitLet(p2, a, m1);
    WalkOne(Let(p2, a), m1, false);
    WalkTwo(Let(p1, a), Let(p2, a), map[], false);
    IfSharesScope(pi, [Let(p1, a), Let(p2, a)], [], [], map[], false);
    assert [If(pi, [Let(p1, a), Let(p2, a)], [])] + [] == [If(pi, [Let(p1, a), Let(p2, a)], [])];
  }

  /** `a = 1` in the body of an `if`, then `a = 2` after it: the `if` body binds in the
      enclosing scope. */
  lemma TwoAssignOuterScope(a: string, pi: Position, p1: Position, p2: Position)
    requires !Excluded(a)
    ensures Analyze([If(pi, [Let(p1, a)], []), Let(p2, a)]) == Violations([Violation(a, p2, p1)])
  {
    var m1 := map[a := p1];
    VisitLet(p1, a, map[]);
    VisitLet(p2, a, m1);
    WalkOne(Let(p1, a), map[], false);
    WalkOne(Let(p2, a), m1, false);
    IfSharesScope(pi, [Let(p1, a)], [], [Let(p2, a)], map[], false);
    assert [If(pi, [Let(p1, a)], [])] + [Let(p2, a)] == [If(pi, [Let(p1, a)], []), Let(p2, a)];
  }

  /** `i = 0`, then `for i in ...: pass`: the loop header rebinds `i`. */
  lemma ReassignForIndex(i: string, p1: Position, pf: Position, pp: Position)
    requires !Excluded(i)
    ensures Analyze([Let(p1, i), Loop(pf, i, [Pass(pp)])]) == Violations([Violation(i, pf, p1)])
  {
    var m1 := map[i := p1];
    var loop := Loop(pf, i, [Pass(pp)]);
    VisitLet(p1, i, map[]);
    BindNamesOne(m1, i, pf);
    VisitPass(pp, m1, true);
    WalkOne(Pass(pp), m1, true);
    VisitOpens(loop, [i], m1, false);
    WalkOne(loop, m1, false);
    WalkTwo(Let(p1, i), loop, map[], false);
  }

  /** `v = 0`, then `for _, v in ...: pass`: `v` is rebound, the discard name is not
      tracked. */
  lemma ReassignTupleForIndex(v: string, p1: Position, pf: Position, pp: Position)
    requires !Excluded(v)
    ensures Analyze([Let(p1, v), For(pf, Tuple([Name("_"), Name(v)]), [Pass(pp)], [], false)]) ==
              Violations([Violation(v, pf, p1)])
  {
    var m1 := map[v := p1];
    var loop := For(pf, Tuple([Name("_"), Name(v)]), [Pass(pp)], [], false);
    VisitLet(p1, v, map[]);
    PairNames("_", v);
    BindNamesTwo(m1, "_", v, pf);
    VisitPass(pp, m1, true);
    WalkOne(Pass(pp), m1, true);
    VisitOpens(loop, ["_", v], m1, false);
    WalkOne(loop, m1, false);
    WalkTwo(Let(p1, v), loop, map[], false);
  }

  /** `total = ...` in the body of `for sublist in l`: reported against itself. */
  lemma AssignInsideForLoop(l: string, s: string, t: string, p1: Position, pf: Position, pt: Position)
    requires s != l
    ensures Analyze([Let(p1, l), Loop(pf, s, [Let(pt, t)])]) == Violations([Violation(t, pt, pt)])
  {
    var m1 := if Excluded(l) then map[] else map[l := p1];
    var m2 := Bind(m1, Binding(s, pf)).vars;
    var loop := Loop(pf, s, [Let(pt, t)]);
    VisitLet(p1, l, map[]);
    BindNamesOne(m1, s, pf);
    AssignOneName(pt, t);
    assert Visit(Let(pt, t), m2, true) == Run(m2, [Violation(t, pt, pt)], false);
    WalkOne(Let(pt, t), m2, true);
    VisitOpens(loop, [s], m1, false);
    WalkOne(loop, m1, false);
    WalkTwo(Let(p1, l), loop, map[], false);
  }

  /** `for i` nested in `for i`: reported once, against the outer header. */
  lemma NestedForSameIndex(i: string, p1: Position, p2: Position, pp: Position)
    requires !Excluded(i)
    ensures Analyze([Loop(p1, i, [Loop(p2, i, [Pass(pp)])])]) == Violations([Violation(i, p2, p1)])
  {
    VisitPass(pp, map[i := p1], true);
    WalkOne(Pass(pp), map[i := p1], true);
    NestedLoopIndex(i, p1, p2, [Pass(pp)], [], [], false, false, map[], false);
  }

  /** `with ... as f` nested in `with ... as f`: the inner header rebinds `f`. */
  lemma NestedWithSameName(f: string, p1: Position, p2: Position, pp: Position)
    requires !Excluded(f)
    ensures Analyze([WithAs(p1, Name(f), [WithAs(p2, Name(f), [Pass(pp)])])]) == Violations([Violation(f, p2, p1)])
  {
    var m1 := map[f := p1];
    var inner := WithAs(p2, Name(f), [Pass(pp)]);
    var outer := WithAs(p1, Name(f), [inner]);
    WithOneTarget(p1, Name(f), [inner]);
    WithOneTarget(p2, Name(f), [Pass(pp)]);
    BindNamesOne(map[], f, p1);
    BindNamesOne(m1, f, p2);
    VisitPass(pp, m1, false);
    WalkOne(Pass(pp), m1, false);
    VisitOpens(inner, [f], m1, false);
    WalkOne(inner, m1, false);
    VisitOpens(outer, [f], map[], false);
    WalkOne(outer, map[], false);
  }

  /** `with ... as (a, b)` nested in the same: both names are rebound. */
  lemma NestedWithSameTuple(a: string, b: string, p1: Position, p2: Position, pp: Position)
    requires a != b && !Excluded(a) && !Excluded(b)
    ensures Analyze([WithAs(p1, Tuple([Name(a), Name(b)]), [WithAs(p2, Tuple([Name(a), Name(b)]), [Pass(pp)])])]) ==
              Violations([Violation(a, p2, p1), Violation(b, p2, p1)])
  {
    var pair := Tuple([Name(a), Name(b)]);
    var m2 := map[a := p1][b := p1];
    var inner := WithAs(p2, pair, [Pass(pp)]);
    var outer := WithAs(p1, pair, [inner]);
    PairNames(a, b);
    WithOneTarget(p1, pair, [inner]);
    BindNamesTwo(map[], a, b, p1);
    InnerWithTuple(a, b, p1, p2, pp);
    VisitOpens(outer, [a, b], map[], false);
    WalkOne(outer, map[], false);
  }

  /** The inner `with` of `NestedWithSameTuple`, in the scope the outer header leaves. */
  lemma InnerWithTuple(a: string, b: string, p1: Position, p2: Position, pp: Position)
    requires a != b
    ensures var m2 := map[a := p1][b := p1];
            Walk([WithAs(p2, Tuple([Name(a), Name(b)]), [Pass(pp)])], m2, false) ==
              Run(m2, [Violation(a, p2, p1), Violation(b, p2, p1)], false)
  {
    var pair := Tuple([Name(a), Name(b)]);
    var m2 := map[a := p1][b := p1];
    var inner := WithAs(p2, pair, [Pass(pp)]);
    PairNames(a, b);
    WithOneTarget(p2, pair, [Pass(pp)]);
    BindNamesTwo(m2, a, b, p2);
    VisitPass(pp, m2, false);
    WalkOne(Pass(pp), m2, false);
    VisitOpens(inner, [a, b], m2, false);
    WalkOne(inner, m2, false);
  }

  // ----- Snippets the suite expects no violation for -----

  /** `_ = 1; _ = 2` */
  lemma UnderscoreTwice(p1: Position, p2: Position)
    ensures Analyze([Let(p1, "_"), Let(p2, "_")]) == Violations([])
  {
    VisitLet(p1, "_", map[]);
    VisitLet(p2, "_", map[]);
    WalkOne(Let(p2, "_"), map[], false);
    WalkTwo(Let(p1, "_"), Let(p2, "_"), map[], false);
  }

  /** `x` bound once in each of two functions. */
  lemma SameNameInTwoFunctions(x: string, pd1: Position, p1: Position, pd2: Position, p2: Position)
    ensures Analyze([Def(pd1, FunctionDef, [Let(p1, x)]), Def(pd2, FunctionDef, [Let(p2, x)])]) == Violations([])
  {
    SameNameInSeparateDefs(x, pd1, pd2, p1, p2, FunctionDef, FunctionDef, map[], false);
  }

  /** `d = {}; d[1] = 'a'; d[2] = 'b'`: subscript targets bind nothing. */
  lemma SubscriptAssignments(d: string, p1: Position, p2: Position, p3: Position)
    ensures Analyze([Let(p1, d), Assign(p2, [Subscript(Name(d))]), Assign(p3, [Subscript(Name(d))])]) == Violations([])
  {
    var m1 := Bind(map[], Binding(d, p1)).vars;
    var s2, s3 := Assign(p2, [Subscript(Name(d))]), Assign(p3, [Subscript(Name(d))]);
    assert [Subscript(Name(d))][1..] == [];
    assert TargetsNames([Subscript(Name(d))]) == Nothing;
    VisitLet(p1, d, map[]);
    assert Visit(s2, m1, false) == Run(m1, [], false);
    assert Visit(s3, m1, false) == Run(m1, [], false);
    WalkOne(s3, m1, false);
    WalkTwo(s2, s3, m1, false);
    WalkThree(Let(p1, d), s2, s3, map[], false);
  }

  /** `x = 1`, then a function binding its own `x`. */
  lemma FunctionShadowsModuleName(x: string, p1: Position, pd: Position, p2: Position)
    ensures Analyze([Let(p1, x), Def(pd, FunctionDef, [Let(p2, x)])]) == Violations([])
  {
    var m1 := Bind(map[], Binding(x, p1)).vars;
    var def := Def(pd, FunctionDef, [Let(p2, x)]);
    VisitLet(p1, x, map[]);
    VisitLet(p2, x, map[]);
    WalkOne(Let(p2, x), map[], false);
    assert Visit(def, m1, false) == Run(m1, [], false);
    WalkOne(def, m1, false);
    WalkTwo(Let(p1, x), def, map[], false);
  }

  /** `if ...: a = 1 else: a = 2`: the `else` block is not visited. */
  lemma AssignInIfAndElse(a: string, pi: Position, p1: Position, p2: Position)
    ensures Analyze([If(pi, [Let(p1, a)], [Let(p2, a)])]) == Violations([])
  {
    VisitLet(p1, a, map[]);
    WalkOne(Let(p1, a), map[], false);
    WalkOne(If(pi, [Let(p1, a)], [Let(p2, a)]), map[], false);
  }

  /** `for i in ...: pass` */
  lemma PlainForLoop(i: string, pf: Position, pp: Position)
    ensures Analyze([Loop(pf, i, [Pass(pp)])]) == Violations([])
  {
    var m1 := Bind(map[], Binding(i, pf)).vars;
    BindNamesOne(map[], i, pf);
    WalkOne(Pass(pp), m1, true);
    VisitOpens(Loop(pf, i, [Pass(pp)]), [i], map[], false);
    WalkOne(Loop(pf, i, [Pass(pp)]), map[], false);
  }

  /** `for j` nested in `for i`. */
  lemma NestedForDistinctIndices(i: string, j: string, p1: Position, p2: Position, pp: Position)
    requires i != j
    ensures Analyze([Loop(p1, i, [Loop(p2, j, [Pass(pp)])])]) == Violations([])
  {
    var m1 := Bind(map[], Binding(i, p1)).vars;
    var m2 := Bind(m1, Binding(j, p2)).vars;
    var inner := Loop(p2, j, [Pass(pp)]);
    var outer := Loop(p1, i, [inner]);
    BindNamesOne(map[], i, p1);
    BindNamesOne(m1, j, p2);
    WalkOne(Pass(pp), m2, true);
    VisitOpens(inner, [j], m1, true);
    WalkOne(inner, m1, true);
    VisitOpens(outer, [i], map[], false);
    WalkOne(outer, map[], false);
  }

  /** A `with ... as f` inside two nested loops: a `with` is not judged by the loop-body
      rule. */
  lemma WithInsideNestedLoops(i: string, j: string, f: string, p1: Position, p2: Position, p3: Position, pp: Position)
    requires i != j && i != f && j != f
    ensures Analyze([Loop(p1, i, [Loop(p2, j, [WithAs(p3, Name(f), [Pass(pp)])])])]) == Violations([])
  {
    var m1 := Bind(map[], Binding(i, p1)).vars;
    var inner := Loop(p2, j, [WithAs(p3, Name(f), [Pass(pp)])]);
    var outer := Loop(p1, i, [inner]);
    BindNamesOne(map[], i, p1);
    InnerLoopWith(j, f, p2, p3, pp, m1);
    VisitOpens(outer, [i], map[], false);
    WalkOne(outer, map[], false);
  }

  /** The inner loop of `WithInsideNestedLoops`, in a scope holding neither of its names. */
  lemma InnerLoopWith(j: string, f: string, p2: Position, p3: Position, pp: Position, m1: map<string, Position>)
    requires j !in m1 && f !in m1 && j != f
    ensures var w := Walk([Loop(p2, j, [WithAs(p3, Name(f), [Pass(pp)])])], m1, true);
            w.out == [] && !w.failed
  {
    var m2 := Bind(m1, Binding(j, p2)).vars;
    var m3 := Bind(m2, Binding(f, p3)).vars;
    var with_ := WithAs(p3, Name(f), [Pass(pp)]);
    var inner := Loop(p2, j, [with_]);
    BindNamesOne(m1, j, p2);
    BindNamesOne(m2, f, p3);
    WithOneTarget(p3, Name(f), [Pass(pp)]);
    WalkOne(Pass(pp), m3, false);
    VisitOpens(with_, [f], m2, true);
    WalkOne(with_, m2, true);
    VisitOpens(inner, [j], m1, true);
    WalkOne(inner, m1, true);
  }
}
