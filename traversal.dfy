/** The traversal `get_violations` as a specification function, and what it guarantees.
    `Walk(body, vars, parentIsLoop)` visits the statements of one body in order, with
    `vars` the scope (`track_vars`) it starts from and `parentIsLoop` whether the body
    belongs to a `for` or `while`. It gives the scope it leaves behind, the violations in the
    order the generator yields them, and whether the extractor raised on the way (after which
    nothing more is visited). */
module Traversal {
  import opened Syntax
  import opened Assigns
  import opened Policy

  datatype Run = Run(vars: map<string, Position>, out: seq<Violation>, failed: bool)

  /** The result of `analyze_code` on a parsed module: its violations, or the
      AttributeError the extractor raised. */
  datatype Analysis = Violations(list: seq<Violation>) | AttributeError

  /** Lines 86-88: the names of `node` fall under the loop-body rule when the body being
      visited is a loop's and `node` is not itself a loop, `if` or `with`. */
  predicate UnderBlanket(node: Stmt, parentIsLoop: bool): (r: bool)
    ensures r ==> parentIsLoop
    ensures r ==> IsDefStmt(node) || !Recurses(node)
  {
    parentIsLoop && !IsLoopStmt(node) && !IsBlockStmt(node)
  }

  /** Lines 112-115: the statements whose `body` the traversal enters. */
  predicate Recurses(node: Stmt)
  {
    IsDefStmt(node) || IsLoopStmt(node) || IsBlockStmt(node)
  }

  /** Every statement the traversal visits can be extracted from without raising. */
  predicate AllReadable(body: seq<Stmt>)
    decreases body
  {
    body == [] ||
    (StmtReadable(body[0]) &&
     (Recurses(body[0]) ==> AllReadable(body[0].body)) &&
     AllReadable(body[1..]))
  }

  /** Running the rest of a body after a run, unless that run raised. */
  function Continue(r: Run, rest: seq<Stmt>, parentIsLoop: bool): Run
    decreases rest, 2
  {
    if r.failed then r
    else
      var t := Walk(rest, r.vars, parentIsLoop);
      Run(t.vars, r.out + t.out, t.failed)
  }

  /** `get_violations` (invars/invars.py:83-115): each statement of the body in turn. The
      scope only grows and its existing entries never change; the traversal raises exactly
      when some visited statement cannot be extracted from. */
  function Walk(body: seq<Stmt>, vars: map<string, Position>, parentIsLoop: bool): (r: Run)
    ensures Extends(vars, r.vars)
    ensures !r.failed <==> AllReadable(body)
    decreases body, 1
  {
    if body == [] then Run(vars, [], false)
    else Continue(Visit(body[0], vars, parentIsLoop), body[1..], parentIsLoop)
  }

  /** One iteration of the loop over `tree.body`, for the statement `node`: the names it
      binds (lines 85-110), then the body it opens (lines 112-115). A definition's body is
      traversed from a fresh empty scope outside any loop, and the caller's scope is left as
      it was; a loop's, `if`'s or `with`'s body shares the caller's scope, with the statement
      itself as the parent. */
  function Visit(node: Stmt, vars: map<string, Position>, parentIsLoop: bool): (r: Run)
    ensures Extends(vars, r.vars)
    ensures r.failed <==> !StmtReadable(node) || (Recurses(node) && !AllReadable(node.body))
    ensures UnderBlanket(node, parentIsLoop) ==>
              r.vars == vars && Blanket(StmtAssigns(node).names, node.pos) <= r.out
    decreases node, 0
  {
    var ex := StmtAssigns(node);
    var own := BindNames(vars, ex.names, node.pos, UnderBlanket(node, parentIsLoop));
    if ex.failed then Run(own.vars, own.out, true)
    else
      var inner :=
        if IsDefStmt(node) then
          var d := Walk(node.body, map[], false);
          Run(own.vars, d.out, d.failed)
        else if IsLoopStmt(node) || IsBlockStmt(node) then
          Walk(node.body, own.vars, IsLoopStmt(node))
        else
          Run(own.vars, [], false);
      Run(inner.vars, own.out + inner.out, inner.failed)
  }

  /** `analyze_code` (invars/invars.py:78-80) on an already parsed module body: the
      traversal from an empty root scope, outside any loop. */
  function Analyze(tree: seq<Stmt>): (r: Analysis)
    ensures r.AttributeError? <==> !AllReadable(tree)
  {
    var run := Walk(tree, map[], false);
    if run.failed then AttributeError else Violations(run.out)
  }

  /** Ordering: the violations of consecutive statements come in statement order, and the
      later statements see the scope the earlier ones left. */
  lemma {:induction false} WalkAppend(xs: seq<Stmt>, ys: seq<Stmt>, vars: map<string, Position>, parentIsLoop: bool)
    ensures Walk(xs + ys, vars, parentIsLoop) == Continue(Walk(xs, vars, parentIsLoop), ys, parentIsLoop)
    decreases xs
  {
    if xs == [] {
      assert xs + ys == ys;
    } else {
      assert (xs + ys)[0] == xs[0];
      assert (xs + ys)[1..] == xs[1..] + ys;
      var v := Visit(xs[0], vars, parentIsLoop);
      assert Walk(xs + ys, vars, parentIsLoop) == Continue(v, xs[1..] + ys, parentIsLoop);
      assert Walk(xs, vars, parentIsLoop) == Continue(v, xs[1..], parentIsLoop);
      if !v.failed {
        WalkAppend(xs[1..], ys, v.vars, parentIsLoop);
      }
      ContinueCompose(v, xs[1..], ys, parentIsLoop);
    }
  }

  /** One step of `WalkAppend`: continuing with two runs of statements one after the other. */
  lemma ContinueCompose(v: Run, xs: seq<Stmt>, ys: seq<Stmt>, parentIsLoop: bool)
    requires !v.failed ==>
               Walk(xs + ys, v.vars, parentIsLoop) == Continue(Walk(xs, v.vars, parentIsLoop), ys, parentIsLoop)
    ensures Continue(v, xs + ys, parentIsLoop) == Continue(Continue(v, xs, parentIsLoop), ys, parentIsLoop)
  {
    if !v.failed {
      var w := Walk(xs, v.vars, parentIsLoop);
      var t := Walk(xs + ys, v.vars, parentIsLoop);
      var vw := Continue(v, xs, parentIsLoop);
      assert Continue(v, xs + ys, parentIsLoop) == Run(t.vars, v.out + t.out, t.failed);
      assert vw == Run(w.vars, v.out + w.out, w.failed);
      ContinueShift(w, ys, v.out, parentIsLoop);
    }
  }

  /** Continuing after a run whose violations are preceded by `pre`. */
  lemma ContinueShift(w: Run, ys: seq<Stmt>, pre: seq<Violation>, parentIsLoop: bool)
    ensures var c := Continue(w, ys, parentIsLoop);
            Continue(Run(w.vars, pre + w.out, w.failed), ys, parentIsLoop) == Run(c.vars, pre + c.out, c.failed)
  {
    if !w.failed {
      var u := Walk(ys, w.vars, parentIsLoop);
      assert pre + (w.out + u.out) == (pre + w.out) + u.out;
    }
  }

  /** Statements the traversal visits outside of loops: no `for` or `while`, also inside the
      bodies it enters. */
  predicate LoopFree(body: seq<Stmt>)
    decreases body
  {
    body == [] ||
    (!IsLoopStmt(body[0]) &&
     (Recurses(body[0]) ==> LoopFree(body[0].body)) &&
     LoopFree(body[1..]))
  }

  /** The discard name: starting from a scope without it, it is never recorded, and it is
      only ever reported by the loop-body rule (current position equal to previous); outside
      loops it is never reported at all. */
  lemma {:induction false} ExcludedOnlyByLoopRule(body: seq<Stmt>, vars: map<string, Position>, parentIsLoop: bool)
    requires NoExcludedKeys(vars)
    ensures NoExcludedKeys(Walk(body, vars, parentIsLoop).vars)
    ensures forall v :: v in Walk(body, vars, parentIsLoop).out && Excluded(v.variableName) ==>
              v.curPosition == v.prevPosition
    ensures !parentIsLoop && LoopFree(body) ==>
              forall v :: v in Walk(body, vars, parentIsLoop).out ==> !Excluded(v.variableName)
    decreases body
  {
    if body != [] {
      var node := body[0];
      var ex := StmtAssigns(node);
      var blanket := UnderBlanket(node, parentIsLoop);
      var own := BindNames(vars, ex.names, node.pos, blanket);
      if !blanket {
        BindAllCounts(vars, At(ex.names, node.pos));
      }
      assert NoExcludedKeys(own.vars);
      if !ex.failed {
        if IsDefStmt(node) {
          ExcludedOnlyByLoopRule(node.body, map[], false);
        } else if IsLoopStmt(node) || IsBlockStmt(node) {
          ExcludedOnlyByLoopRule(node.body, own.vars, IsLoopStmt(node));
        }
        var inner :=
          if IsDefStmt(node) then
            var d := Walk(node.body, map[], false);
            Run(own.vars, d.out, d.failed)
          else if IsLoopStmt(node) || IsBlockStmt(node) then
            Walk(node.body, own.vars, IsLoopStmt(node))
          else
            Run(own.vars, [], false);
        if !inner.failed {
          ExcludedOnlyByLoopRule(body[1..], inner.vars, parentIsLoop);
        }
      }
    }
  }

  /** Scope isolation: a run of function or class definitions leaves the caller's scope as
      it was, and what they report depends neither on that scope nor on an enclosing loop:
      each body is traversed from an empty scope, outside any loop. */
  lemma {:induction false} DefsIsolated(defs: seq<Stmt>, vars: map<string, Position>, parentIsLoop: bool)
    requires forall i :: 0 <= i < |defs| ==> defs[i].Def?
    ensures Walk(defs, vars, parentIsLoop) ==
              var r := Walk(defs, map[], false);
              Run(vars, r.out, r.failed)
    decreases defs
  {
    if defs != [] {
      DefsIsolated(defs[1..], vars, parentIsLoop);
      DefsIsolated(defs[1..], map[], false);
    }
  }

  /** A lone `x = ...` outside a loop is judged by the normal policy. */
  lemma SingleAssign(q: Position, x: string, vars: map<string, Position>)
    ensures Walk([Assign(q, [Name(x)])], vars, false) ==
              var b := Bind(vars, Binding(x, q));
              Run(b.vars, b.out, false)
  {
    var body := [Assign(q, [Name(x)])];
    AssignOneName(q, x);
    BindNamesOne(vars, x, q);
    var b := Bind(vars, Binding(x, q));
    assert b.out + [] == b.out;
    assert Visit(body[0], vars, false) == Run(b.vars, b.out, false);
    assert body[1..] == [];
    assert Walk(body[1..], b.vars, false) == Run(b.vars, [], false);
  }

  /** Two definitions that each bind the same name once report nothing and leave the
      caller's scope as it was: their bodies are traversed from empty scopes. */
  lemma SameNameInSeparateDefs(x: string, p1: Position, p2: Position, q1: Position, q2: Position,
                               k1: DefKind, k2: DefKind, vars: map<string, Position>, parentIsLoop: bool)
    ensures Walk([Def(p1, k1, [Assign(q1, [Name(x)])]), Def(p2, k2, [Assign(q2, [Name(x)])])], vars, parentIsLoop) ==
              Run(vars, [], false)
  {
    var defs := [Def(p1, k1, [Assign(q1, [Name(x)])]), Def(p2, k2, [Assign(q2, [Name(x)])])];
    DefsIsolated(defs, vars, parentIsLoop);
    SingleAssign(q1, x, map[]);
    SingleAssign(q2, x, map[]);
    var second := [defs[1]];
    assert defs[1..] == second && second[1..] == [];
    assert Visit(defs[1], map[], false) == Run(map[], [], false);
    assert Walk(second, map[], false).out == [];
    assert Visit(defs[0], map[], false) == Run(map[], [], false);
  }

  /** Block sharing: an `if` body runs in the caller's scope, so what it binds conflicts with
      what follows; its `else` branch is never visited; and it is judged outside the loop
      rule even inside a loop, since the `if` itself becomes the parent. */
  lemma IfSharesScope(pos: Position, b: seq<Stmt>, orelse: seq<Stmt>, rest: seq<Stmt>,
                      vars: map<string, Position>, parentIsLoop: bool)
    ensures Walk([If(pos, b, orelse)] + rest, vars, parentIsLoop) ==
              Continue(Walk(b, vars, false), rest, parentIsLoop)
  {
    var xs := [If(pos, b, orelse)] + rest;
    assert xs[0] == If(pos, b, orelse) && xs[1..] == rest;
    var inner := Walk(b, vars, false);
    assert [] + inner.out == inner.out;
    assert Visit(xs[0], vars, parentIsLoop) == inner;
  }

  /** Block sharing for `with`: its body runs in the caller's scope after the names of its
      `as` targets, and inside a loop it is judged outside the loop-body rule, since the
      `with` itself becomes the parent. */
  lemma WithSharesScope(pos: Position, items: seq<Option<Expr>>, b: seq<Stmt>, isAsync: bool, rest: seq<Stmt>,
                        vars: map<string, Position>, parentIsLoop: bool)
    requires !ItemsNames(items).failed
    ensures Walk([With(pos, items, b, isAsync)] + rest, vars, parentIsLoop) ==
              var h := BindNames(vars, ItemsNames(items).names, pos, false);
              Continue(Continue(Run(h.vars, h.out, false), b, false), rest, parentIsLoop)
  {
    var s := With(pos, items, b, isAsync);
    HeaderThenBody(s, vars, parentIsLoop);
    WalkCons(s, rest, vars, parentIsLoop);
  }

  /** Loop, `if` and `with` statements are never judged by the loop-body rule: their own
      names get the normal policy, then their body runs in the same scope, with the statement
      itself as the parent. */
  lemma HeaderThenBody(s: Stmt, vars: map<string, Position>, parentIsLoop: bool)
    requires IsLoopStmt(s) || IsBlockStmt(s)
    requires !StmtAssigns(s).failed
    ensures !UnderBlanket(s, parentIsLoop)
    ensures Visit(s, vars, parentIsLoop) ==
              var b := BindNames(vars, StmtAssigns(s).names, s.pos, false);
              var w := Walk(s.body, b.vars, IsLoopStmt(s));
              Run(w.vars, b.out + w.out, w.failed)
  {
  }

  lemma WalkCons(s: Stmt, rest: seq<Stmt>, vars: map<string, Position>, parentIsLoop: bool)
    ensures Walk([s] + rest, vars, parentIsLoop) == Continue(Visit(s, vars, parentIsLoop), rest, parentIsLoop)
  {
    assert ([s] + rest)[0] == s && ([s] + rest)[1..] == rest;
  }

  lemma WalkOne(s: Stmt, vars: map<string, Position>, parentIsLoop: bool)
    ensures Walk([s], vars, parentIsLoop) == Visit(s, vars, parentIsLoop)
  {
    WalkCons(s, [], vars, parentIsLoop);
    assert [s] + [] == [s];
    var v := Visit(s, vars, parentIsLoop);
    assert v.out + [] == v.out;
  }

  /** Nested loops that reuse an index name report it once, against the outer header: loop
      headers are judged by the normal policy, also inside a loop. */
  lemma NestedLoopIndex(x: string, p1: Position, p2: Position, inner: seq<Stmt>, e1: seq<Stmt>, e2: seq<Stmt>,
                        a1: bool, a2: bool, vars: map<string, Position>, parentIsLoop: bool)
    requires !Excluded(x) && x !in vars
    requires Walk(inner, vars[x := p1], true) == Run(vars[x := p1], [], false)
    ensures Walk([For(p1, Name(x), [For(p2, Name(x), inner, e2, a2)], e1, a1)], vars, parentIsLoop) ==
              Run(vars[x := p1], [Violation(x, p2, p1)], false)
  {
    var innerLoop := For(p2, Name(x), inner, e2, a2);
    var outerLoop := For(p1, Name(x), [innerLoop], e1, a1);
    var v := vars[x := p1];
    var viol := Violation(x, p2, p1);
    BindNamesOne(vars, x, p1);
    BindNamesOne(v, x, p2);
    assert Visit(innerLoop, v, true) == Run(v, [viol], false);
    WalkOne(innerLoop, v, true);
    assert Visit(outerLoop, vars, parentIsLoop) == Run(v, [viol], false);
    WalkOne(outerLoop, vars, parentIsLoop);
  }

  /** `Erase` drops what the traversal never looks at: `orelse` blocks and the bodies of
      statements it does not enter. */
  function Erase(body: seq<Stmt>): (r: seq<Stmt>)
    ensures |r| == |body|
    decreases body
  {
    if body == [] then []
    else
      var s := body[0];
      var e :=
        match s
        case For(pos, target, b, _, isAsync) => For(pos, target, Erase(b), [], isAsync)
        case While(pos, b, _) => While(pos, Erase(b), [])
        case If(pos, b, _) => If(pos, Erase(b), [])
        case With(pos, items, b, isAsync) => With(pos, items, Erase(b), isAsync)
        case Def(pos, kind, b) => Def(pos, kind, Erase(b))
        case OtherStmt(pos, _) => OtherStmt(pos, [])
        case _ => s;
      [e] + Erase(body[1..])
  }

  /** Only `.body` is visited: `else` branches of `if`, `for` and `while`, and the blocks of
      `try` and other statements, never change the result. */
  lemma {:induction false} OnlyBodiesVisited(body: seq<Stmt>, vars: map<string, Position>, parentIsLoop: bool)
    ensures Walk(Erase(body), vars, parentIsLoop) == Walk(body, vars, parentIsLoop)
    decreases body
  {
    if body != [] {
      var s := body[0];
      var es := Erase(body);
      var e := es[0];
      assert es[1..] == Erase(body[1..]);
      assert StmtAssigns(e) == StmtAssigns(s) && e.pos == s.pos;
      assert Recurses(e) == Recurses(s) && IsDefStmt(e) == IsDefStmt(s);
      assert IsLoopStmt(e) == IsLoopStmt(s) && UnderBlanket(e, parentIsLoop) == UnderBlanket(s, parentIsLoop);
      var ex := StmtAssigns(s);
      var own := BindNames(vars, ex.names, s.pos, UnderBlanket(s, parentIsLoop));
      if !ex.failed {
        if IsDefStmt(s) {
          assert e.body == Erase(s.body);
          OnlyBodiesVisited(s.body, map[], false);
        } else if IsLoopStmt(s) || IsBlockStmt(s) {
          assert e.body == Erase(s.body);
          OnlyBodiesVisited(s.body, own.vars, IsLoopStmt(s));
        }
        var inner :=
          if IsDefStmt(s) then
            var d := Walk(s.body, map[], false);
            Run(own.vars, d.out, d.failed)
          else if IsLoopStmt(s) || IsBlockStmt(s) then
            Walk(s.body, own.vars, IsLoopStmt(s))
          else
            Run(own.vars, [], false);
        if !inner.failed {
          OnlyBodiesVisited(body[1..], inner.vars, parentIsLoop);
        }
      }
    }
  }

  /** Bodies whose visited statements all bind in one scope: no loop and no definition, also
      inside the `if` and `with` bodies entered, and nothing the extractor raises on. */
  predicate OneScope(body: seq<Stmt>)
    decreases body
  {
    body == [] ||
    (StmtReadable(body[0]) && !IsLoopStmt(body[0]) && !IsDefStmt(body[0]) &&
     (IsBlockStmt(body[0]) ==> OneScope(body[0].body)) &&
     OneScope(body[1..]))
  }

  /** The bindings the traversal meets, in order: each statement's own names at its
      position, then those of the `if` or `with` body it enters. */
  function Bindings(body: seq<Stmt>): seq<Binding>
    decreases body
  {
    if body == [] then []
    else
      At(StmtAssigns(body[0]).names, body[0].pos) +
      (if IsBlockStmt(body[0]) then Bindings(body[0].body) else []) +
      Bindings(body[1..])
  }

  /** Block sharing: in one scope, `if` and `with` bodies bind into the caller's scope, so
      the traversal is the normal policy over the flat run of all bindings. */
  lemma {:induction false} OneScopeIsFlat(body: seq<Stmt>, vars: map<string, Position>)
    requires OneScope(body)
    ensures Walk(body, vars, false) ==
              var b := BindAll(vars, Bindings(body));
              Run(b.vars, b.out, false)
    decreases body
  {
    if body != [] {
      var node := body[0];
      var own := At(StmtAssigns(node).names, node.pos);
      var nested := if IsBlockStmt(node) then Bindings(node.body) else [];
      var b1 := BindAll(vars, own);
      var b2 := BindAll(b1.vars, nested);
      if IsBlockStmt(node) {
        OneScopeIsFlat(node.body, b1.vars);
      } else {
        assert BindAll(b1.vars, nested) == Bound(b1.vars, []);
      }
      assert Visit(node, vars, false) == Run(b2.vars, b1.out + b2.out, false);
      OneScopeIsFlat(body[1..], b2.vars);
      BindAllAppend(vars, own, nested);
      BindAllAppend(vars, own + nested, Bindings(body[1..]));
    }
  }

  /** In one scope, `analyze_code` reports exactly the reference violations of the flat
      run of bindings: a binding is reported when its name was bound before, against the
      first binding. Their number is the number of bindings of tracked names less the number
      of distinct tracked names. */
  lemma OneScopeAnalysis(tree: seq<Stmt>)
    requires OneScope(tree)
    ensures Analyze(tree) == Violations(Reference(map[], Bindings(tree)))
    ensures |Analyze(tree).list| == |Tracked(Bindings(tree))| - |NamesOf(Bindings(tree))|
  {
    OneScopeIsFlat(tree, map[]);
    BindAllIsReference(map[], Bindings(tree));
    FlatCount(Bindings(tree));
  }

  /** Statements that open no body and do not raise. */
  predicate Plain(body: seq<Stmt>)
  {
    forall i :: 0 <= i < |body| ==> StmtReadable(body[i]) && !Recurses(body[i])
  }

  lemma SelfReportedAppend(xs: seq<Binding>, ys: seq<Binding>)
    ensures SelfReported(xs + ys) == SelfReported(xs) + SelfReported(ys)
  {
    var l, r := SelfReported(xs + ys), SelfReported(xs) + SelfReported(ys);
    assert |l| == |r|;
    forall i | 0 <= i < |l| ensures l[i] == r[i] {
      if i < |xs| {
        assert (xs + ys)[i] == xs[i];
      } else {
        assert (xs + ys)[i] == ys[i - |xs|];
      }
    }
  }

  /** The loop-body rule: in a loop body, every name bound by a plain statement is reported
      with its statement's position as both current and previous position, whether or not it
      was bound before, and the scope is left untouched. */
  lemma {:induction false} LoopBodyRule(body: seq<Stmt>, vars: map<string, Position>)
    requires Plain(body)
    ensures Walk(body, vars, true) == Run(vars, SelfReported(Bindings(body)), false)
    decreases body
  {
    if body != [] {
      var node := body[0];
      var own := At(StmtAssigns(node).names, node.pos);
      assert Plain(body[1..]);
      LoopBodyRule(body[1..], vars);
      assert Visit(node, vars, true) == Run(vars, SelfReported(own), false);
      assert Bindings(body) == own + [] + Bindings(body[1..]);
      assert own + [] == own;
      SelfReportedAppend(own, Bindings(body[1..]));
    }
  }
}
