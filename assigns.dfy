/** The assignment extractor `get_assigns_in_node`: the names one node binds, in textual
    order. Python runs it as a generator that may stop with an AttributeError when it reads
    `.id` from a node that is not a Name; the model keeps both what was yielded before that
    point and whether it stopped. */
module Assigns {
  import opened Syntax

  /** What the extractor yields for one node: `names` in order, then `failed` when it
      stopped on an `.id` read from a node that is not a `Name`. */
  datatype Extracted = Extracted(names: seq<string>, failed: bool)

  const Nothing := Extracted([], false)

  /** Running one generator after another, as `yield from` does: the second one is only
      reached when the first did not raise. */
  function Then(a: Extracted, b: Extracted): Extracted
  {
    if a.failed then a else Extracted(a.names + b.names, b.failed)
  }

  /** Where the extractor reads `.id` or `.value.id` from a target, that node is a `Name`.
      This is the condition under which extraction from the target does not raise. */
  predicate IdsReadable(e: Expr)
  {
    match e
    case Attribute(value, _) => value.Name?
    case Tuple(elts) => forall i :: 0 <= i < |elts| ==> elts[i].Name?
    case _ => true
  }

  /** The same condition for a whole statement. */
  predicate StmtReadable(s: Stmt)
  {
    match s
    case Assign(_, targets) => forall i :: 0 <= i < |targets| ==> IdsReadable(targets[i])
    case AugAssign(_, target) => IdsReadable(target)
    case AnnAssign(_, target) => IdsReadable(target)
    case For(_, target, _, _, _) => target.Name? || (target.Tuple? && IdsReadable(target))
    case With(_, items, _, _) =>
      forall i :: 0 <= i < |items| ==> items[i].Some? ==> IdsReadable(items[i].value)
    case _ => true
  }

  /** The elements of a tuple target, each read with `.id` and not recursed into: the ids of
      the elements before the first one that is not a `Name`, and a failure exactly when
      there is such an element. */
  function TupleIds(elts: seq<Expr>): (r: Extracted)
    ensures !r.failed <==> forall i :: 0 <= i < |elts| ==> elts[i].Name?
    ensures |r.names| <= |elts|
    ensures forall i :: 0 <= i < |r.names| ==> elts[i].Name? && r.names[i] == elts[i].id
    ensures !r.failed ==> |r.names| == |elts|
    ensures r.failed ==> !elts[|r.names|].Name?
  {
    if elts == [] then Nothing
    else if elts[0].Name? then Then(Extracted([elts[0].id], false), TupleIds(elts[1..]))
    else Extracted([], true)
  }

  /** `get_assigns_in_node` on an expression node: a `Name` binds its id, an `Attribute`
      on a `Name` base binds `"<base>.<attr>"`, a `Subscript` binds nothing, a `Tuple`
      binds its elements' ids, and every other expression binds nothing. */
  function TargetNames(e: Expr): (r: Extracted)
    ensures r.failed <==> !IdsReadable(e)
    ensures |r.names| <= 1 || e.Tuple?
    ensures e.Subscript? || e.OtherExpr? ==> r == Nothing
  {
    match e
    case Attribute(value, attr) =>
      if value.Name? then Extracted([value.id + "." + attr], false) else Extracted([], true)
    case Subscript(_) => Nothing
    case Tuple(elts) => TupleIds(elts)
    case Name(id) => Extracted([id], false)
    case OtherExpr => Nothing
  }

  /** The targets of an `Assign`, one after another. */
  function TargetsNames(targets: seq<Expr>): (r: Extracted)
    ensures !r.failed <==> forall i :: 0 <= i < |targets| ==> IdsReadable(targets[i])
  {
    if targets == [] then Nothing
    else Then(TargetNames(targets[0]), TargetsNames(targets[1..]))
  }

  /** One `with` item: its `optional_vars`, or nothing when it has no `as` clause. */
  function ItemNames(item: Option<Expr>): (r: Extracted)
    ensures r.failed <==> item.Some? && !IdsReadable(item.value)
    ensures item.None? ==> r == Nothing
  {
    match item
    case None => Nothing
    case Some(e) => TargetNames(e)
  }

  /** The items of a `with`, one after another. */
  function ItemsNames(items: seq<Option<Expr>>): (r: Extracted)
    ensures !r.failed <==> forall i :: 0 <= i < |items| ==> items[i].Some? ==> IdsReadable(items[i].value)
  {
    if items == [] then Nothing
    else Then(ItemNames(items[0]), ItemsNames(items[1..]))
  }

  /** `get_assigns_in_node` on a statement of a body. A `for` target that is not a tuple is
      read with `.id` directly; `If`, `While`, definitions and every other statement bind
      nothing. */
  function StmtAssigns(s: Stmt): (r: Extracted)
    ensures r.failed <==> !StmtReadable(s)
    ensures !(s.Assign? || s.AugAssign? || s.AnnAssign? || s.For? || s.With?) ==> r == Nothing
  {
    match s
    case For(_, target, _, _, _) =>
      if target.Tuple? then TargetNames(target)
      else if target.Name? then Extracted([target.id], false)
      else Extracted([], true)
    case With(_, items, _, _) => ItemsNames(items)
    case AugAssign(_, target) => TargetNames(target)
    case AnnAssign(_, target) => TargetNames(target)
    case Assign(_, targets) => TargetsNames(targets)
    case _ => Nothing
  }

  /** `x = ...` binds `x`. */
  lemma AssignOneName(pos: Position, x: string)
    ensures StmtAssigns(Assign(pos, [Name(x)])) == Extracted([x], false)
  {
    assert [Name(x)][1..] == [];
    assert TargetsNames([]) == Nothing;
    assert [x] + [] == [x];
  }

  /** Running generators one after another does not depend on how they are grouped. */
  lemma ThenAssociative(a: Extracted, b: Extracted, c: Extracted)
    ensures Then(Then(a, b), c) == Then(a, Then(b, c))
  {
  }

  /** An assignment with several targets (`a = b = 1`) binds what each target binds, in
      order: splitting the targets splits the extraction. */
  lemma {:induction false} TargetsNamesAppend(xs: seq<Expr>, ys: seq<Expr>)
    ensures TargetsNames(xs + ys) == Then(TargetsNames(xs), TargetsNames(ys))
  {
    if xs == [] {
      assert xs + ys == ys;
    } else {
      assert (xs + ys)[0] == xs[0];
      assert (xs + ys)[1..] == xs[1..] + ys;
      TargetsNamesAppend(xs[1..], ys);
      ThenAssociative(TargetNames(xs[0]), TargetsNames(xs[1..]), TargetsNames(ys));
    }
  }

  /** A `with` statement binds what each item binds, in order. */
  lemma {:induction false} ItemsNamesAppend(xs: seq<Option<Expr>>, ys: seq<Option<Expr>>)
    ensures ItemsNames(xs + ys) == Then(ItemsNames(xs), ItemsNames(ys))
  {
    if xs == [] {
      assert xs + ys == ys;
    } else {
      assert (xs + ys)[0] == xs[0];
      assert (xs + ys)[1..] == xs[1..] + ys;
      ItemsNamesAppend(xs[1..], ys);
      ThenAssociative(ItemNames(xs[0]), ItemsNames(xs[1..]), ItemsNames(ys));
    }
  }

  /** Index of the first '.' in `s`, or `|s|` when there is none. */
  function FirstDot(s: string): (k: nat)
    ensures k <= |s|
  {
    if s == [] then 0 else if s[0] == '.' then 0 else 1 + FirstDot(s[1..])
  }

  lemma {:induction false} FirstDotOfKey(base: string, attr: string)
    requires '.' !in base
    ensures FirstDot(base + "." + attr) == |base|
  {
    if base != [] {
      assert (base + "." + attr)[1..] == base[1..] + "." + attr;
      FirstDotOfKey(base[1..], attr);
    }
  }

  /** The name an attribute target `<base>.<attr>` yields (invars/invars.py:121) determines its base and
      attribute when the base is a dot-free identifier: `self.x` and `other.x` are tracked
      as different names. */
  lemma AttributeKeyInjective(b1: string, a1: string, b2: string, a2: string)
    requires '.' !in b1 && '.' !in b2
    requires TargetNames(Attribute(Name(b1), a1)) == TargetNames(Attribute(Name(b2), a2))
    ensures b1 == b2 && a1 == a2
  {
    var s := b1 + "." + a1;
    assert TargetNames(Attribute(Name(b1), a1)).names[0] == s;
    assert TargetNames(Attribute(Name(b2), a2)).names[0] == b2 + "." + a2;
    FirstDotOfKey(b1, a1);
    FirstDotOfKey(b2, a2);
    assert b1 == s[..|b1|] == b2;
    assert a1 == s[|b1| + 1..] == a2;
  }
}
