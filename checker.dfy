/** The checker as the source runs it: `get_violations` walks a body statement by
    statement, updating the `track_vars` dictionary in place, and passes that same dictionary
    on to the `if`, `with` and loop bodies it enters, or a new empty one to a definition's
    body. Each method is proved to compute what the specification `Walk` describes. */
module Checker {
  import opened Syntax
  import opened Assigns
  import opened Policy
  import opened Traversal

  /** The `track_vars` dictionary of one lexical scope: each tracked name and the position
      of its first binding. */
  class Scope {
    var trackVars: map<string, Position>

    constructor ()
      ensures trackVars == map[]
    {
      trackVars := map[];
    }
  }

  /** `get_violations(tree, track_vars, parent)` (invars/invars.py:83-115) on the statements
      `body`, with `scope` as `track_vars` and `parentIsLoop` telling whether `parent` is a
      `for` or `while`. Returns the violations in the order they are yielded and whether the
      extractor raised, after which the traversal stops; `scope` is left as the traversal
      leaves it. */
  method GetViolations(body: seq<Stmt>, scope: Scope, parentIsLoop: bool) returns (out: seq<Violation>, raised: bool)
    modifies scope
    ensures var r := Walk(body, old(scope.trackVars), parentIsLoop);
            scope.trackVars == r.vars && out == r.out && raised == r.failed
    decreases body, 1
  {
    out := [];
    raised := false;
    ghost var start := scope.trackVars;
    var i := 0;
    while i < |body|
      invariant 0 <= i <= |body|
      invariant Walk(body, start, parentIsLoop) ==
                Continue(Run(scope.trackVars, out, false), body[i..], parentIsLoop)
    {
      VisitStep(body, i, scope.trackVars, out, parentIsLoop);
      var own, nodeRaised := VisitNode(body[i], scope, parentIsLoop);
      out := out + own;
      if nodeRaised {
        raised := true;
        return;
      }
      i := i + 1;
    }
    assert body[i..] == [];
  }

  /** One iteration of the loop of `get_violations` (invars/invars.py:84-115), for the
      statement `node`: its names are bound in `scope`, then the body it opens is traversed
      with `scope` itself (a loop, `if` or `with`) or with a new empty scope (a definition). */
  method VisitNode(node: Stmt, scope: Scope, parentIsLoop: bool) returns (out: seq<Violation>, raised: bool)
    modifies scope
    ensures var r := Visit(node, old(scope.trackVars), parentIsLoop);
            scope.trackVars == r.vars && out == r.out && raised == r.failed
    decreases node, 0
  {
    var ex := StmtAssigns(node);
    var blanket := parentIsLoop && !IsLoopStmt(node) && !IsBlockStmt(node);
    out := BindNamesInPlace(scope, ex.names, node.pos, blanket);
    raised := ex.failed;
    if raised {
      return;
    }
    var sub: seq<Violation> := [];
    if IsDefStmt(node) {
      var local := new Scope();
      sub, raised := GetViolations(node.body, local, false);
    } else if IsLoopStmt(node) || IsBlockStmt(node) {
      sub, raised := GetViolations(node.body, scope, IsLoopStmt(node));
    }
    out := out + sub;
  }

  /** One step of the loop of `GetViolations`: visiting the statement at `i` and then the
      ones after it. */
  lemma VisitStep(body: seq<Stmt>, i: nat, vars: map<string, Position>, out: seq<Violation>, parentIsLoop: bool)
    requires i < |body|
    ensures Continue(Run(vars, out, false), body[i..], parentIsLoop) ==
              var v := Visit(body[i], vars, parentIsLoop);
              if v.failed then Run(v.vars, out + v.out, true)
              else Continue(Run(v.vars, out + v.out, false), body[i + 1..], parentIsLoop)
  {
    assert body[i..][1..] == body[i + 1..];
    var v := Visit(body[i], vars, parentIsLoop);
    assert Walk(body[i..], vars, parentIsLoop) == Continue(v, body[i + 1..], parentIsLoop);
    if !v.failed {
      var t := Walk(body[i + 1..], v.vars, parentIsLoop);
      assert out + (v.out + t.out) == (out + v.out) + t.out;
    }
  }

  /** The loop over the names of one statement (invars/invars.py:85-110): under the loop-body
      rule each name is reported against itself; otherwise an untracked name is recorded
      unless it is excluded, and a tracked one is reported against its recorded position. */
  method BindNamesInPlace(scope: Scope, names: seq<string>, pos: Position, blanket: bool) returns (own: seq<Violation>)
    modifies scope
    ensures var r := BindNames(old(scope.trackVars), names, pos, blanket);
            scope.trackVars == r.vars && own == r.out
  {
    own := [];
    ghost var before := scope.trackVars;
    var j := 0;
    while j < |names|
      invariant 0 <= j <= |names|
      invariant blanket ==> scope.trackVars == before && own == Blanket(names[..j], pos)
      invariant !blanket ==> BindAll(before, At(names[..j], pos)) == Bound(scope.trackVars, own)
    {
      var varname := names[j];
      ghost var h := Bind(scope.trackVars, Binding(varname, pos));
      AtSnoc(names, j, pos);
      if !blanket {
        BindAllSnoc(before, At(names[..j], pos), Binding(varname, pos));
      }
      if blanket {
        own := own + [Violation(varname, pos, pos)];
      } else if varname !in scope.trackVars {
        if !Excluded(varname) {
          scope.trackVars := scope.trackVars[varname := pos];
        }
      } else {
        own := own + [Violation(varname, pos, scope.trackVars[varname])];
      }
      j := j + 1;
    }
    assert names[..j] == names;
  }

  /** Extending the names by one extends their bindings and the loop-body report by one. */
  lemma AtSnoc(names: seq<string>, j: nat, pos: Position)
    requires j < |names|
    ensures At(names[..j + 1], pos) == At(names[..j], pos) + [Binding(names[j], pos)]
    ensures Blanket(names[..j + 1], pos) == Blanket(names[..j], pos) + [Violation(names[j], pos, pos)]
  {
    assert At(names[..j + 1], pos) == At(names[..j], pos) + [Binding(names[j], pos)];
  }

  /** `analyze_code` (invars/invars.py:78-80) on an already parsed module: the traversal
      from a new empty root scope, collected into a list, or the AttributeError the
      extractor raised. */
  method AnalyzeCode(tree: seq<Stmt>) returns (r: Analysis)
    ensures r == Analyze(tree)
    ensures r.AttributeError? <==> !AllReadable(tree)
  {
    var root := new Scope();
    var out, raised := GetViolations(tree, root, false);
    r := if raised then AttributeError else Violations(out);
  }
}
