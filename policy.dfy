/** The violation policy for the names one statement binds: the excluded discard name, the
    normal first-binding rule, and the loop-body rule. Also an independent statement of the
    normal rule over a flat run of bindings, proved equal to the rule as the checker
    applies it one name at a time. */
module Policy {
  import opened Syntax

  /** EXCLUDE_VARNAMES. */
  const ExcludeVarnames: string := "_"

  /** Python's `needle in hay` on two strings: a substring test. */
  predicate IsSubstring(needle: string, hay: string)
    decreases |hay|
  {
    needle <= hay || (hay != [] && IsSubstring(needle, hay[1..]))
  }

  /** `varname in EXCLUDE_VARNAMES`: the discard name, and the empty string (which no
      parsed identifier is). */
  predicate Excluded(name: string)
  {
    name == "" || name == "_"
  }

  /** `Excluded` is exactly Python's substring test against EXCLUDE_VARNAMES. */
  lemma ExcludedIsSubstringTest(name: string)
    ensures Excluded(name) <==> IsSubstring(name, ExcludeVarnames)
  {
    assert ExcludeVarnames[1..] == "";
  }

  /** One binding: a name yielded by the extractor and the position of its statement. */
  datatype Binding = Binding(name: string, pos: Position)

  /** A scope (the `track_vars` dictionary) after some bindings, and the violations they
      produced. */
  datatype Bound = Bound(vars: map<string, Position>, out: seq<Violation>)

  /** Every entry of `before` is in `after` with the same position. */
  predicate Extends(before: map<string, Position>, after: map<string, Position>)
  {
    forall k :: k in before ==> k in after && after[k] == before[k]
  }

  predicate NoExcludedKeys(vars: map<string, Position>)
  {
    forall k :: k in vars ==> !Excluded(k)
  }

  /** The bindings of `bs` whose names are not excluded. */
  function Tracked(bs: seq<Binding>): seq<Binding>
  {
    if bs == [] then []
    else (if Excluded(bs[0].name) then [] else [bs[0]]) + Tracked(bs[1..])
  }

  /** The distinct names, not excluded, that `bs` binds. */
  function NamesOf(bs: seq<Binding>): set<string>
  {
    if bs == [] then {}
    else (if Excluded(bs[0].name) then {} else {bs[0].name}) + NamesOf(bs[1..])
  }

  /** The normal policy for one name (invars/invars.py:98-110): an untracked name is
      recorded at the statement's position unless it is excluded; a tracked one is reported
      against the position recorded for it, which stays as it is. */
  function Bind(vars: map<string, Position>, b: Binding): Bound
  {
    if b.name !in vars then
      if Excluded(b.name) then Bound(vars, []) else Bound(vars[b.name := b.pos], [])
    else
      Bound(vars, [Violation(b.name, b.pos, vars[b.name])])
  }

  /** The normal policy for one name: a name is reported exactly when it is already tracked,
      against its recorded position; existing entries never change; and only an untracked
      name that is not excluded is added, recorded at the position of this binding. */
  lemma BindRule(vars: map<string, Position>, b: Binding)
    ensures var r := Bind(vars, b);
            Extends(vars, r.vars) &&
            (r.out != [] <==> b.name in vars) &&
            (b.name in vars ==> r.out == [Violation(b.name, b.pos, vars[b.name])]) &&
            r.vars.Keys == (if b.name in vars || Excluded(b.name) then vars.Keys else vars.Keys + {b.name}) &&
            (b.name !in vars && !Excluded(b.name) ==> r.vars[b.name] == b.pos)
  {
  }

  /** The normal policy over bindings in order. The scope only grows and its entries never
      change; excluded names are never recorded; every violation refers to the position the
      scope finally holds for its name, the first binding; and each binding of a tracked
      name either adds one entry or produces one violation. */
  function BindAll(vars: map<string, Position>, bs: seq<Binding>): (r: Bound)
    ensures Extends(vars, r.vars)
    ensures forall v :: v in r.out ==>
              v.variableName in r.vars && r.vars[v.variableName] == v.prevPosition
    decreases bs
  {
    if bs == [] then Bound(vars, [])
    else
      var h := Bind(vars, bs[0]);
      var t := BindAll(h.vars, bs[1..]);
      Bound(t.vars, h.out + t.out)
  }

  /** The scope after a run of bindings holds what it held before and every tracked name
      of the run. */
  lemma {:induction false} BindAllKeys(vars: map<string, Position>, bs: seq<Binding>)
    ensures BindAll(vars, bs).vars.Keys == vars.Keys + NamesOf(bs)
    decreases bs
  {
    if bs != [] {
      BindAllKeys(Bind(vars, bs[0]).vars, bs[1..]);
    }
  }

  /** Under the normal policy the discard name is never recorded and never reported, and
      each binding of a tracked name either adds one entry or produces one violation. */
  lemma {:induction false} BindAllCounts(vars: map<string, Position>, bs: seq<Binding>)
    requires NoExcludedKeys(vars)
    ensures NoExcludedKeys(BindAll(vars, bs).vars)
    ensures forall v :: v in BindAll(vars, bs).out ==> !Excluded(v.variableName)
    ensures |BindAll(vars, bs).out| + |BindAll(vars, bs).vars| == |vars| + |Tracked(bs)|
    decreases bs
  {
    if bs != [] {
      var h := Bind(vars, bs[0]);
      BindAllCounts(h.vars, bs[1..]);
      if bs[0].name !in vars && !Excluded(bs[0].name) {
        assert |h.vars| == |vars| + 1;
      }
    }
  }

  /** Binding one run after another is binding their concatenation. */
  lemma {:induction false} BindAllAppend(vars: map<string, Position>, xs: seq<Binding>, ys: seq<Binding>)
    ensures BindAll(vars, xs + ys) ==
              var r := BindAll(vars, xs);
              var t := BindAll(r.vars, ys);
              Bound(t.vars, r.out + t.out)
    decreases xs
  {
    if xs == [] {
      assert xs + ys == ys;
    } else {
      assert (xs + ys)[0] == xs[0];
      assert (xs + ys)[1..] == xs[1..] + ys;
      var h := Bind(vars, xs[0]);
      BindAllAppend(h.vars, xs[1..], ys);
      var r1 := BindAll(h.vars, xs[1..]);
      var t := BindAll(r1.vars, ys);
      assert BindAll(vars, xs) == Bound(r1.vars, h.out + r1.out);
      assert BindAll(vars, xs + ys) == Bound(t.vars, h.out + (r1.out + t.out));
      assert h.out + (r1.out + t.out) == (h.out + r1.out) + t.out;
    }
  }

  /** Bindings of several names at one statement position. */
  function At(names: seq<string>, pos: Position): (bs: seq<Binding>)
  {
    seq(|names|, i requires 0 <= i < |names| => Binding(names[i], pos))
  }

  /** A statement binding a single name. */
  lemma BindNamesOne(vars: map<string, Position>, x: string, pos: Position)
    ensures BindNames(vars, [x], pos, false) == Bind(vars, Binding(x, pos))
  {
    var bs := At([x], pos);
    assert bs == [Binding(x, pos)] && bs[1..] == [];
    var h := Bind(vars, Binding(x, pos));
    assert BindAll(h.vars, []) == Bound(h.vars, []);
    assert h.out + [] == h.out;
  }

  /** Each binding reported against itself. */
  function SelfReported(bs: seq<Binding>): seq<Violation>
  {
    seq(|bs|, i requires 0 <= i < |bs| => Violation(bs[i].name, bs[i].pos, bs[i].pos))
  }

  /** The loop-body rule (invars/invars.py:86-96): every name is reported with the
      statement's position as both its current and its previous position. */
  function Blanket(names: seq<string>, pos: Position): (r: seq<Violation>)
    ensures |r| == |names|
    ensures forall i :: 0 <= i < |names| ==> r[i] == Violation(names[i], pos, pos)
  {
    SelfReported(At(names, pos))
  }

  /** The names of one statement, judged by the loop-body rule when `blanket` holds and by
      the normal policy otherwise. */
  function BindNames(vars: map<string, Position>, names: seq<string>, pos: Position, blanket: bool): (r: Bound)
    ensures blanket ==> r.vars == vars && |r.out| == |names|
    ensures blanket ==> forall i :: 0 <= i < |names| ==> r.out[i] == Violation(names[i], pos, pos)
    ensures Extends(vars, r.vars)
    ensures forall v :: v in r.out ==> v.curPosition == pos
    ensures names == [] ==> r == Bound(vars, [])
  {
    if blanket then Bound(vars, Blanket(names, pos))
    else
      BindAllAt(vars, names, pos);
      BindAll(vars, At(names, pos))
  }

  lemma {:induction false} BindAllAt(vars: map<string, Position>, names: seq<string>, pos: Position)
    ensures forall v :: v in BindAll(vars, At(names, pos)).out ==> v.curPosition == pos
    decreases names
  {
    if names != [] {
      assert At(names, pos)[0] == Binding(names[0], pos);
      assert At(names, pos)[1..] == At(names[1..], pos);
      BindAllAt(Bind(vars, Binding(names[0], pos)).vars, names[1..], pos);
    }
  }

  // ----- An independent statement of the normal policy -----

  /** Position of the first binding of `name` in `bs`. */
  function FirstIn(bs: seq<Binding>, name: string): Option<Position>
  {
    if bs == [] then None
    else if bs[0].name == name then Some(bs[0].pos)
    else FirstIn(bs[1..], name)
  }

  /** Where `name` was first bound, given the scope before the bindings `bs`: its entry in
      the scope, else (unless it is excluded) its first binding in `bs`. */
  function FirstSeen(vars: map<string, Position>, bs: seq<Binding>, name: string): Option<Position>
  {
    if name in vars then Some(vars[name])
    else if Excluded(name) then None
    else FirstIn(bs, name)
  }

  /** The violations of a flat run of bindings, stated binding by binding from the end: the
      last binding is reported exactly when its name was seen before it, and then against
      where it was first seen. */
  function Reference(vars: map<string, Position>, bs: seq<Binding>): seq<Violation>
    decreases |bs|
  {
    if bs == [] then []
    else
      var init, last := bs[..|bs| - 1], bs[|bs| - 1];
      Reference(vars, init) +
      match FirstSeen(vars, init, last.name)
      case None => []
      case Some(p) => [Violation(last.name, last.pos, p)]
  }

  /** After `BindAll`, the scope holds exactly the names seen so far, at their first
      position. */
  lemma {:induction false} BindAllFirstSeen(vars: map<string, Position>, bs: seq<Binding>, name: string)
    ensures name in BindAll(vars, bs).vars <==> FirstSeen(vars, bs, name).Some?
    ensures name in BindAll(vars, bs).vars ==>
              FirstSeen(vars, bs, name) == Some(BindAll(vars, bs).vars[name])
    decreases bs
  {
    if bs != [] {
      var h := Bind(vars, bs[0]);
      BindAllFirstSeen(h.vars, bs[1..], name);
    }
  }

  /** Binding one more name after a run of bindings. */
  lemma {:induction false} BindAllSnoc(vars: map<string, Position>, bs: seq<Binding>, b: Binding)
    ensures BindAll(vars, bs + [b]) ==
              var r := BindAll(vars, bs);
              var h := Bind(r.vars, b);
              Bound(h.vars, r.out + h.out)
    decreases bs
  {
    if bs == [] {
      assert bs + [b] == [b];
    } else {
      assert (bs + [b])[0] == bs[0];
      assert (bs + [b])[1..] == bs[1..] + [b];
      BindAllSnoc(Bind(vars, bs[0]).vars, bs[1..], b);
    }
  }

  /** The checker's one-name-at-a-time policy produces exactly the reference violations, in
      order. */
  lemma {:induction false} BindAllIsReference(vars: map<string, Position>, bs: seq<Binding>)
    ensures BindAll(vars, bs).out == Reference(vars, bs)
  {
    if bs != [] {
      var init, last := bs[..|bs| - 1], bs[|bs| - 1];
      assert bs == init + [last];
      BindAllIsReference(vars, init);
      BindAllSnoc(vars, init, last);
      BindAllFirstSeen(vars, init, last.name);
    }
  }

  lemma {:induction false} TrackedNames(bs: seq<Binding>)
    ensures |NamesOf(bs)| <= |Tracked(bs)|
  {
    if bs != [] {
      TrackedNames(bs[1..]);
    }
  }

  /** Starting from an empty scope, a flat run of bindings produces one violation per binding
      of a tracked name beyond the first binding of that name. */
  lemma FlatCount(bs: seq<Binding>)
    ensures |NamesOf(bs)| <= |Tracked(bs)|
    ensures |Reference(map[], bs)| == |Tracked(bs)| - |NamesOf(bs)|
  {
    TrackedNames(bs);
    var r := BindAll(map[], bs);
    BindAllIsReference(map[], bs);
    BindAllCounts(map[], bs);
    BindAllKeys(map[], bs);
    assert r.vars.Keys == NamesOf(bs);
    assert |r.vars| == |r.vars.Keys|;
  }
}
