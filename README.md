# invars: single-assignment checker, modelled in Dafny

`invars` reports Python variables that are bound more than once in one lexical scope. The
model covers the checker's core in `invars/invars.py`:

- **Extractor.** `get_assigns_in_node` finds the names that one statement binds.
- **Traversal.** `get_violations` walks a module body with a `track_vars` dictionary. It maps
  each tracked name to the position of its first binding.
- **Entry point.** `analyze_code` collects what the traversal yields.
- **Records and constants.** The `Violation` and `Position` records, the node-kind groups
  `AST_DEF_STMT`, `AST_LOOP_STMT` and `AST_STMTS`, and `EXCLUDE_VARNAMES`.

The project has these modules:

- `Syntax` (syntax.dfy). The part of the Python syntax tree the checker reads, the two
  records and the three node-kind groups.
- `Assigns` (assigns.dfy). The extractor as pure functions. It yields names in textual
  order. It can stop with Python's `AttributeError` where the source reads `.id` from a
  node that is not a `Name`. The model keeps the names yielded before that point and a
  `failed` flag.
- `Policy` (policy.dfy). The per-name policy of `get_violations`:
  - the loop-body rule
  - the first-binding rule and the excluded name
  - an independent, non-incremental definition of the first-binding rule (`Reference`),
    proved equal to the checker's one-name-at-a-time rule
- `Traversal` (traversal.dfy). `Walk` is a specification function for `get_violations`:
  - it gives the scope left behind, the violations in the order they are yielded, and
    whether the extractor raised
  - it carries the traversal's properties: ordering, scope isolation, block sharing, the
    loop-body rule, the excluded name, and that unvisited blocks have no effect
- `Checker` (checker.dfy). The traversal as the source runs it:
  - the `Scope` class stands for the `track_vars` dictionary and is updated in place
  - the same `Scope` object is passed into `if`, `with` and loop bodies
  - a new `Scope` is created for each function or class body
  - each method is proved to compute exactly what `Walk` specifies
- `Scenarios` (scenarios.dfy). The snippets of the repository's test suite, as lemmas over
  arbitrary names and positions. Each one states the complete list of violations.

Three behaviours of the code that are easy to miss:

- **`if` and `with` inside a loop.** `get_violations` passes `parent=node` for these as well
  as for loops (invars/invars.py:115). So the body of an `if` or `with` nested in a loop is
  judged by the normal first-binding rule, not by the loop-body rule. The comment at
  invars/invars.py:89-91 names only the index variable of a nested loop as an exception.
  `Traversal.IfSharesScope`, `Traversal.WithSharesScope` and `Traversal.HeaderThenBody`
  state the behaviour.
- **Tuple elements are not recursed into.** Each element is read with `.id`
  (invars/invars.py:127-128). A nested tuple or a starred element raises `AttributeError`.
  So does an attribute target whose base is not a simple name (line 121), and a `for`
  target that is neither a tuple nor a name (line 138). The error ends `analyze_code`;
  the node is not quietly skipped.
- **The exclusion test is a substring test.** `varname in EXCLUDE_VARNAMES` tests for a
  substring of the string `"_"`. So the excluded names are `"_"` and the empty string
  (`Policy.ExcludedIsSubstringTest`). The test is only made under the normal rule. The
  loop-body rule reports `_` as well.

## Model

| member | source | states |
|---|---|---|
| Syntax.NodeKindGroupsDisjoint | invars/invars.py:28-30 | The definition, loop and block groups are pairwise disjoint, so each statement takes at most one of the branches at lines 112-115. |
| Assigns.TupleIds | invars/invars.py:125-128 | A tuple target yields the ids of its elements in order. It raises exactly when some element is not a `Name`, and then after yielding the ids of the elements before it. |
| Assigns.TargetNames | invars/invars.py:118-131 | An expression target raises exactly when an `.id` it reads is missing. A `Subscript` or any other expression kind binds nothing. Only a tuple binds more than one name. |
| Assigns.TargetsNames | invars/invars.py:147-149 | The targets of an assignment raise exactly when one of them is unreadable. |
| Assigns.ItemNames | invars/invars.py:141-142 | A `with` item without `as` binds nothing. One with `as` raises exactly when its target is unreadable. |
| Assigns.ItemsNames | invars/invars.py:139-142 | The items of a `with` raise exactly when one of their targets is unreadable. |
| Assigns.StmtAssigns | invars/invars.py:118-149 | Extraction from a statement raises exactly when the statement is not `StmtReadable`. Statements other than assignments, `for` and `with` bind nothing. |
| Assigns.AssignOneName | invars/invars.py:147-149 | `x = ...` binds exactly `x`. |
| Assigns.TargetsNamesAppend | invars/invars.py:148-149 | Chained targets (`a = b = 1`) yield the names of each target in order. The first target that raises stops the rest. |
| Assigns.ItemsNamesAppend | invars/invars.py:141-142 | The items of a `with` yield their names in order. The first item that raises stops the rest. |
| Assigns.AttributeKeyInjective | invars/invars.py:119-121 | The name an attribute target with a dot-free base yields determines that base and the attribute. So `self.x` and `other.x` are tracked separately. |
| Policy.ExcludedIsSubstringTest | invars/invars.py:100 | `Excluded` is exactly Python's substring test against EXCLUDE_VARNAMES (line 9). |
| Policy.BindRule | invars/invars.py:99-110 | The first-binding rule for one name. A name is reported exactly when it is already tracked, against its recorded position. Existing entries never change. Only an untracked name that is not excluded is added, and it is recorded at the position of this binding (line 103). |
| Policy.BindAll | invars/invars.py:98-110 | The normal rule over bindings in order. Existing scope entries never change. Every violation reports the position the scope holds for its name, which is its first binding. |
| Policy.BindAllKeys | invars/invars.py:99-103 | Afterwards the scope holds what it held before plus every non-excluded name bound. |
| Policy.BindAllCounts | invars/invars.py:99-110 | The excluded name is never recorded or reported. Each binding of a tracked name either adds one scope entry or produces one violation. |
| Policy.BindAllAppend | invars/invars.py:84-110 | Binding two runs one after the other is binding their concatenation. |
| Policy.Blanket | invars/invars.py:92-96 | The loop-body rule reports one violation per name, in order, with the statement's position as both current and previous position. |
| Policy.BindNames | invars/invars.py:85-110 | Under the loop-body rule, name i is reported at the statement's position as both current and previous position, and the scope is unchanged. Otherwise the scope only grows. Every violation's current position is the statement's. A statement binding nothing changes nothing. |
| Policy.BindAllIsReference | invars/invars.py:98-110 | The checker's incremental rule gives exactly the reference violations, in order. A binding is reported iff its name was seen before it, against the first binding. |
| Policy.FlatCount | invars/invars.py:98-110 | From an empty scope, the number of violations is the number of tracked bindings less the number of distinct tracked names. That difference is never negative. |
| Traversal.Walk | invars/invars.py:83-115 | The traversal only grows the scope and never changes an entry. It raises exactly when some visited statement cannot be extracted from (`AllReadable`). |
| Traversal.Visit | invars/invars.py:84-115 | One statement only grows the scope. It raises exactly when the statement is unreadable or it opens a body that raises. Under the loop-body rule it leaves the scope unchanged, and its output begins with its names reported against itself. |
| Traversal.UnderBlanket | invars/invars.py:86-88 | The loop-body rule applies only in a loop's body. It reaches only definitions and statements that open no body. |
| Traversal.Analyze | invars/invars.py:78-80 | `analyze_code` raises `AttributeError` exactly when the traversal from an empty root scope meets an unreadable statement. |
| Traversal.WalkAppend | invars/invars.py:84-115 | Statements are visited in order. Later statements see the scope earlier ones leave. An error stops the rest. |
| Traversal.ContinueCompose | invars/invars.py:84-115 | Continuing a run with two bodies one after the other is continuing with their concatenation. |
| Traversal.ExcludedOnlyByLoopRule | invars/invars.py:86-103 | The discard name is never recorded. It is reported only by the loop-body rule, with equal current and previous position, and never outside loops. |
| Traversal.DefsIsolated | invars/invars.py:112-113 | Function and class definitions leave the caller's scope unchanged. What they report does not depend on that scope or on an enclosing loop. |
| Traversal.SingleAssign | invars/invars.py:98-110 | A lone `x = ...` outside a loop is judged by the first-binding rule. |
| Traversal.SameNameInSeparateDefs | invars/invars.py:112-113 | Two definitions that each bind a name once report nothing and leave the caller's scope as it was. |
| Traversal.IfSharesScope | invars/invars.py:114-115 | An `if` body binds in the caller's scope, its `else` is never visited, and inside a loop it is judged outside the loop-body rule. |
| Traversal.WithSharesScope | invars/invars.py:114-115 | A `with` binds its `as` names by the normal rule, then runs its body in the caller's scope with no loop parent, also inside a loop. |
| Traversal.HeaderThenBody | invars/invars.py:86-88 | Loop, `if` and `with` statements are never under the loop-body rule. Their own names get the normal rule, then their body runs in the same scope with the statement as parent (lines 114-115). |
| Traversal.NestedLoopIndex | invars/invars.py:86-88 | A nested loop that reuses its index name reports it once, against the outer header. Loop headers get the first-binding rule even inside a loop. |
| Traversal.OnlyBodiesVisited | invars/invars.py:112-115 | Only `.body` is visited. Erasing `else` blocks, and the blocks of statements the traversal does not enter, changes nothing. |
| Traversal.OneScopeIsFlat | invars/invars.py:98-115 | Without loops or definitions, and with no statement that raises, the traversal is the first-binding rule over the flat run of all bindings, `if` and `with` bodies included. |
| Traversal.OneScopeAnalysis | invars/invars.py:78-115 | In one scope, `analyze_code` returns exactly the reference violations. Their number is tracked bindings less distinct tracked names. |
| Traversal.LoopBodyRule | invars/invars.py:86-96 | In a loop body, every name bound by a plain statement is reported against itself, bound before or not. The scope is left untouched. |
| Checker.Scope.constructor | invars/invars.py:80 | A new `track_vars` dictionary is empty. |
| Checker.GetViolations | invars/invars.py:83-115 | Walking a body in place leaves `scope` in the state `Walk` gives. It returns `Walk`'s violations and whether the extractor raised. |
| Checker.VisitNode | invars/invars.py:84-115 | One statement of the loop updates `scope` and yields what `Visit` specifies. A definition body gets a new `Scope`; a loop, `if` or `with` body gets `scope` itself. |
| Checker.BindNamesInPlace | invars/invars.py:85-110 | Judging a statement's names one at a time, updating the dictionary in place, gives `BindNames`' scope and violations. |
| Checker.AnalyzeCode | invars/invars.py:78-80 | Returns `Analyze`'s result. It returns `AttributeError` exactly when some visited statement is unreadable. |
| Scenarios.TwoAssignSameName | tests/test.py:4-11 | `x = 1; y = 2; y = x + y` reports exactly the third binding, against the second. |
| Scenarios.AugAssignRebinds | tests/test.py:14-21 | `y += x` after `y = 2` is reported against `y = 2`. |
| Scenarios.IncrementVariable | tests/test.py:24-30 | `a = 1; a += 1` gives one violation. |
| Scenarios.TwoAssignInMethod | tests/test.py:33-42 | A method binding a name twice gives one violation, inside the method. |
| Scenarios.TwoAssignInsideBlock | tests/test.py:45-52 | Two bindings in an `if` body give one violation. |
| Scenarios.TwoAssignOuterScope | tests/test.py:55-62 | A binding after an `if` whose body bound the name is reported against the binding in the body. |
| Scenarios.ReassignForIndex | tests/test.py:65-72 | A `for` index rebinding an earlier name is reported against it. |
| Scenarios.ReassignTupleForIndex | tests/test.py:75-82 | `for _, v in ...` after `v = 0` reports `v` only. |
| Scenarios.AssignInsideForLoop | tests/test.py:85-93 | A plain assignment in a loop body is reported against itself. |
| Scenarios.NestedForSameIndex | tests/test.py:96-103 | Nested loops with the same index give one violation. |
| Scenarios.NestedWithSameName | tests/test.py:106-113 | Nested `with ... as f` give one violation. |
| Scenarios.NestedWithSameTuple | tests/test.py:116-123 | Nested `with ... as (a, b)` give two violations, one per name. |
| Scenarios.UnderscoreTwice | tests/test.py:139-146 | `_` bound twice gives no violation. |
| Scenarios.SameNameInTwoFunctions | tests/test.py:149-158 | The same name in two functions gives no violation. |
| Scenarios.SubscriptAssignments | tests/test.py:161-168 | Subscript assignments give no violation. |
| Scenarios.FunctionShadowsModuleName | tests/test.py:171-179 | A function binding a module-level name gives no violation. |
| Scenarios.AssignInIfAndElse | tests/test.py:182-190 | Binding a name in both branches of an `if` gives no violation. |
| Scenarios.PlainForLoop | tests/test.py:193-199 | A loop with `pass` gives no violation. |
| Scenarios.NestedForDistinctIndices | tests/test.py:202-209 | Nested loops with distinct indices give no violation. |
| Scenarios.WithInsideNestedLoops | tests/test.py:212-220 | A `with` inside two nested loops gives no violation. |

## Left out

- `main`, `get_files_to_analyze`, `get_py_files_in_dir`, `analyze_file` and `EXCLUDE_DIRS`
  (invars/invars.py:10-75) are left out. They handle file discovery, reading files, the
  command line, writing to stderr and the exit status. None of them affects what a
  single analysis reports.
- `ast.parse` is left out. The model starts from the parsed tree. A `SyntaxError` on
  unparsable input is not modelled.
- The syntax tree keeps only what the checker reads:
  - statement positions
  - assignment, `for` and `with` targets
  - `body` and `orelse` blocks
  Every other expression kind is `OtherExpr`, and every other statement kind is
  `OtherStmt`.
- `async for`, `async with` and `async def` are a flag or a `DefKind` on their synchronous
  counterparts. The code treats them identically.
- The traversal is a generator, which the model treats as eager. The run keeps the
  violations yielded before an `AttributeError` and a flag. `analyze_code` drops them,
  because `list()` propagates the error.
- Positions are unbounded naturals. Python's line and column numbers are taken as given.
- The test-suite lemmas state each snippet's syntax tree directly, since `ast.parse` is not
  modelled. They hold for any names and positions meeting their stated requirements:
  the names are distinct where the snippet's names differ, and are not excluded.
