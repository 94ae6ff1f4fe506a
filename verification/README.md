# Kconfig engine and digest tool: a verified model

OpenWrt configures itself with a copy of the Linux Kconfig engine (`openwrt/scripts/config`) and names its build
products with a small digest tool (`openwrt/scripts/mkhash.c`). This project models the parts of both that decide what
a configuration means and what a digest is, and proves properties of the model. `dafny verify dfyconfig.toml` checks
all of it.

The model follows the system's own pieces:

- **Expressions** (`Expressions`, `Equality`, `Matching`, `Join`, `Paths`, `Duplicates`, `Normalize`): dependency
  expressions over n < m < y, their meaning, and the simplifier. `expr_eliminate_dups` is kept in its own form: one
  tree held in a field, rewritten in place through two positions that point into the same tree, with the global
  `trans_count`.
- **Menus** (`Submenu`, `Inherit`, `MenuTree`, `Finalize`, `Placement`, `Walk`, `Reach`): menu entries are heap
  objects with `next`, `parent` and `list` links; `menu_finalize` hands conditions down, builds automatic submenus and
  flattens, and `conf_write` walks the result.
- **Symbols** (`SymbolTable`, `Cycles`, `Values`, `Evaluate`, `Setting`, `Choice`): the hash table of names, the
  depth-first check for dependency cycles with its flags and stack, values as a solution of equations, the memoising
  evaluator with its cache, setting a value, and choices.
- **Text** (`Printing`, `ConfigText`, `Macros`, `MacroCalls`): printed expressions against the expression grammar,
  `.config` lines against their reader, and the `$(...)` macro expander.
- **Digests** (`Blocks`, `Sha256`, `Md5`, `Sha256Example`, `Md5Example`): the streaming, buffering, register-rotating
  code against FIPS 180-4 and RFC 1321, and those definitions against the digests of "abc" that the standards print.

## Assumptions

- Expression theorems about typed symbols ask for `WellTyped` valuations: booleans are never m, tristates never m
  while modules are off, constants spell themselves, and the letters y, m, n are not numbers; some ask for `OthersNo`:
  symbols of any other type are n. `Values.SolutionWellTyped` proves that calculated values are such a valuation.
- `Unambiguous` asks that no two of the constants that tristates are tested for with `=` or `!=` (`Tested`), together
  with y, m and n, read as the same tristate level. It is needed: a tristate compared with "0" is compared as a
  number. Constants compared with symbols of other types are free.
- The C library's number readers, the built-in macro functions and the environment are parameters.
- Symbols are compared by identity, and a constant is determined by its spelling; `SymbolTable.LookupAll` proves that
  identity is name and kind.

## What the proofs brought to light

Each of these is a lemma with the failing input, or an exact condition.

- Joining `A = b` with `A != c` for different constants b, c keeps the meaning if and only if b and c do not read as
  the same level; "0" and "n" are different constants that do (`Join.JoinEqualUnequalExact`).
- The comment on the last AND rule says that `A != m` and `A != n` join into `A = m`; the code makes it `A = y`
  (`Join.JoinLetters`).
- `expr_trans_compare(e, E_UNEQUAL, n)` says exactly whether e is n while every bare symbol in it is compared as it
  is, that is, found equal to n exactly if it is n, and none under a NOT is m (`Normalize.UnequalNoExact`). For a
  single symbol, bare or negated, that is also needed (`Normalize.SymbolExact`). Booleans, tristates, y, m and n are
  always compared as they are; any other symbol is n, but compared by the string it holds, so it is compared as it is
  if and only if that string is "n" (`Normalize.ExactSymbol`). A symbol that is nowhere declared holds its name.
- So `menu_finalize` can put an entry below a symbol with a prompt although the entry is visible while the symbol is n
  and its prompt is not. What the symbol takes belongs there while each symbol negated in the entry's condition is not
  m and compared as it is, and each bare symbol outside a NOT in the condition of the prompt is compared as it is
  (`Submenu.BelongsBelow`). Both are needed: for `(s || q) && !a` below s with the prompt's `a = n` it goes wrong
  exactly while a is m or not compared as it is (`Submenu.NegatedUnjustified`), for `(s || q) && u != n` below s with
  the prompt's `u` exactly while u is not compared as it is, as an undeclared u never is (`Submenu.BareUnjustified`).
- A symbol without a prompt takes every follower that mentions it, and flattening hands these on to the level the
  symbol stands on, which can be the submenu of another symbol. In the finished tree a submenu is right where what its
  own symbol took belongs there and every promptless symbol that handed entries on took them outright and is on only
  while the condition of its place is met (`Placement.FinishedRight`); what leaves an `if` block needs nothing, as it
  has inherited its condition. Both are needed. S has a prompt `if P`, T has no prompt and depends on S: an entry on
  `T || Q` behind them ends below S, which with S and P at n is wrong exactly while T or Q is not n
  (`Placement.ComparedAstray`), and so does one on `T`, which is wrong exactly while T is on
  (`Placement.OutrightAstray`). A boolean or tristate that is defined at one place only is never on while the
  condition there is not met (`Reach.SteadyAtOnePlace`).
- Constant operands are dropped only after operands have been matched. With them `expr_eq` is not transitive, so no
  canonical form decides it (`Matching.EqNotTransitive`, `Matching.NoCanon`); without them one does
  (`Matching.EqExact`).
- The comment above `expr_eq` calls two expressions equal if every operand of one equals some operand of the other.
  The code uses an operand up once it is matched, so `A && A && B` and `A && B && B` are not found equal; the model
  follows the code (`Equality.EqCounts`).
- Unless `recursive_is_error` is set, a dependency cycle never counts as an error: it is printed, but no symbol is
  returned to the parser for it (`Cycles.CheckAll`).
- `sym_set_tristate_value` accepts m and y for a symbol that is visible with y, selected with m and without its direct
  dependencies, and recalculation then makes it n (`Setting.AcceptedYetForcedOff`). It also accepts a value that the
  symbol already has, outside its range. An accepted value takes effect if and only if the symbol is not selected
  against its dependencies (there only n does) and the value is not above a visibility without select or imply to back
  it (`Setting.SetTristateTakes`); one within range, exactly if the symbol is not selected against its dependencies.
- `sym_tristate_within_range` refuses y for a symbol visible up to m and implied by y, although y is what it would be
  (`Setting.RangeExact`).
- `sym_find` does not tell plain symbols from choices: it finds a plain symbol if and only if no choice of its name
  was created after it (`SymbolTable.Registry.Find`, `SymbolTable.HiddenByChoice`).
- A place that defines a symbol without any condition drops out of the symbol's collected direct dependencies instead
  of making them y. A symbol can then be visible with its direct dependencies unmet, and selecting it forces it to n
  (`Reach.ReachableExact`, `Reach.VisibleYetForcedOff`).
- In a choice that is y, a member that is not shown but has a default of its own can be y beside the chosen member;
  there is exactly one y just when no member is in that position (`Choice.CalcAllMembers`).
- The test for too many macro arguments lets a clause with sixteen commas outside brackets pass, which is seventeen
  pieces for an array of sixteen; the model splits it (`Macros.SplitClause`).
- A string value with a newline is written but never read back (`ConfigText.StringRestored`).

## Model

| member | source | states |
|---|---|---|
| Expressions.StrCmp | openwrt/scripts/config/expr.c:1052-1053 | the comparison of two strings is 0 exactly for equal strings |
| Expressions.CompareWithConstant | openwrt/scripts/config/expr.c:998-1059 | a boolean or tristate symbol equals a constant exactly when the constant reads as the symbol's level, as a letter or as a number |
| Equality.EliminateYn | openwrt/scripts/config/expr.c:316-397 | the result is no bigger and has no new symbols or negations |
| Equality.EliminateYnValue | openwrt/scripts/config/expr.c:305-397 | removing y and n operands keeps the value under every valuation |
| Equality.EliminateYnClears | openwrt/scripts/config/expr.c:316-397 | no constant operand is left; where there was one the expression shrinks, otherwise it is unchanged |
| Equality.ElimCommonFactors | openwrt/scripts/config/expr.c:150-190 | one pass takes a common part out of both sides: some value, combined by the same connective with what is left, gives both originals back |
| Equality.EqSound | openwrt/scripts/config/expr.c:243-303 | expressions found equal have the same value under every valuation, m included; the mutual recursion ends |
| Equality.EqCounts | openwrt/scripts/config/expr.c:243-303 | operands are matched one to one: sides that repeat different operands are not found equal |
| Equality.SupersetSound | openwrt/scripts/config/expr.c:192-241 | if only y is left of the second expression, the first is at most the second under every valuation |
| Matching.ElimLevels | openwrt/scripts/config/expr.c:140-190 | what is left on each side is exactly the operands the other side does not have, counted one to one |
| Matching.EqExact | openwrt/scripts/config/expr.c:243-303 | without constant operands, two expressions are found equal if and only if they differ in order and grouping of operands only |
| Matching.SupersetExact | openwrt/scripts/config/expr.c:221-241 | without constant operands, nothing but y is left of the second expression if and only if it is y, or the first is an AND that has every operand of it, counted one to one |
| Matching.EqNotTransitive | openwrt/scripts/config/expr.c:279-284 | with constant operands there are three expressions of which the first equals the second and the second the third, but not the first the third |
| Matching.NoCanon | openwrt/scripts/config/expr.c:252-303 | so whatever form is computed from an expression, some two expressions are equal with different forms or unequal with the same |
| Join.JoinLetters | openwrt/scripts/config/expr.c:456-570 | two tests of a tristate for different letters join into one test for the third letter, in either order |
| Join.JoinBare | openwrt/scripts/config/expr.c:475-533 | a bare symbol takes in the tests that it decides, in either order; a boolean ORed with its negation is y |
| Join.JoinSame | openwrt/scripts/config/expr.c:436-437 | equal operands join into one of them |
| Join.JoinEqualUnequalForm | openwrt/scripts/config/expr.c:538-553 | `A = b` with `A != c` for constants joins to `A = b`, or to n if b is c, in either order |
| Join.RedundantJoins | openwrt/scripts/config/expr.c:431-587 | any pair of operands of which one is too many, by any of the rules, is joined |
| Join.JoinOrSound | openwrt/scripts/config/expr.c:428-493 | a joined OR has the value of the two operands ORed |
| Join.JoinAndSound | openwrt/scripts/config/expr.c:495-587 | a joined AND has the value of the two operands ANDed, given that the constants of the distinct-constants rule read as different levels |
| Join.JoinEqualUnequalExact | openwrt/scripts/config/expr.c:538-553 | the distinct-constants rule keeps the meaning for all states of the symbol if and only if the constants do not read as one level |
| Join.JoinShape | openwrt/scripts/config/expr.c:431-587 | a join is no bigger than its first operand, brings in no symbol and no test of a tristate for anything but y, m, n, and a connective or NOT only as the first operand itself |
| Duplicates.JoinStep | openwrt/scripts/config/expr.c:626-648 | writing the unit over one operand and the join over the other refines the whole group they stand in |
| Duplicates.Rewriter.Dups1 | openwrt/scripts/config/expr.c:589-651 | comparing the operands at two positions of one tree changes only that group, refines it, counts its joins, leaves a constant behind whenever it joined, and without joins proves that nothing there can be joined |
| Duplicates.Rewriter.DupsLeaves | openwrt/scripts/config/expr.c:613-648 | the same for two operands, including the recursion into an AND/OR operand before the join |
| Duplicates.Rewriter.EliminateDups | openwrt/scripts/config/expr.c:653-686 | the loop ends; the expression keeps its value under every valuation that reads the constants tristates are tested for, together with y, m and n, as different levels; it grows in nothing; at no level is an operand equal to another one or made redundant by it, and without constant operands each is there once up to order and grouping; where nothing can be joined nothing changes; and trans_count is restored |
| Duplicates.StuckSettled | openwrt/scripts/config/expr.c:672-683 | a pass over the whole expression makes no join if and only if there is nothing to join at any level |
| Duplicates.SettledIrredundant | openwrt/scripts/config/expr.c:653-686 | where nothing can be joined, no two different operands of a level are equal, or an equality and an inequality of a tristate with constants, or tests for different letters, or a symbol and a test it decides |
| Duplicates.IrredundantOnce | openwrt/scripts/config/expr.c:653-686 | without constant operands each operand is then there once, at every level |
| Normalize.Transform | openwrt/scripts/config/expr.c:688-849 | transformation ends and never raises the weight in which NOT doubles its operand |
| Normalize.TransformValue | openwrt/scripts/config/expr.c:694-849 | it keeps the three-valued meaning |
| Normalize.TransformNormal | openwrt/scripts/config/expr.c:694-849 | afterwards NOT stands only over symbols other than y, m, n, and no boolean is tested for y, m or n |
| Normalize.TransformIdempotent | openwrt/scripts/config/expr.c:694-849 | a second run changes nothing; the fixed points are exactly the normal expressions |
| Normalize.TransformSymbols | openwrt/scripts/config/expr.c:694-849 | no symbol but y, m, n comes in |
| Normalize.TransCompareValue | openwrt/scripts/config/expr.c:908-985 | for every expression and valuation, the comparison with n or y has the value of the expression with each bare symbol compared, or the complement |
| Normalize.ExactSymbol | openwrt/scripts/config/expr.c:977-978 | booleans, tristates, y, m and n compare as equal to n exactly when they are n; any other symbol does so if and only if being n and holding the string "n" coincide |
| Normalize.DeclaredExact | openwrt/scripts/config/expr.c:953-978 | the condition for exactness holds whatever the values where all bare symbols are booleans, tristates, y, m or n, and only booleans are negated, or any tristates while modules are off |
| Normalize.SeenExact | openwrt/scripts/config/expr.c:922-985 | while each bare symbol is compared as it is and none under a NOT is m, what the comparison sees is y exactly where the expression is not n |
| Normalize.UnequalNoExact | openwrt/scripts/config/expr.c:922-985 | so under that condition at the valuation the comparison with n is exact in both directions, E_UNEQUAL and E_EQUAL |
| Normalize.SeenRises | openwrt/scripts/config/expr.c:953-985 | at calculated values only symbols under a NOT can make what is not n compare as n |
| Normalize.SeenSafe | openwrt/scripts/config/expr.c:953-985 | and with NOT over symbols only, only symbols outside a NOT can make what is n compare as different from n |
| Normalize.SymbolExact | openwrt/scripts/config/expr.c:953-978 | for a single symbol of any type, bare or negated, the comparison is exact if and only if the symbol is compared as it is and, negated, is not m |
| Normalize.DependsExact | openwrt/scripts/config/expr.c:879-906 | exactly the expressions depend on a symbol that have, as an operand of the outer AND, the bare symbol or its comparison `= y`, `= m` or `!= n` |
| Normalize.DependsForms | openwrt/scripts/config/expr.c:879-906 | the bare symbol and its three comparisons depend on it, alone and anywhere in an AND, nothing does below an OR or a NOT |
| Normalize.DependsSymbolSound | openwrt/scripts/config/expr.c:879-906 | an expression that depends on a symbol is not n only while a boolean or tristate symbol is not n; any other symbol then does not hold "n" |
| Submenu.Visible | openwrt/scripts/config/menu.c:455-457 | the prepared condition has the value that the comparison with n sees, for conditions over any symbols, and has no duplicates left |
| Submenu.ContainsExact | openwrt/scripts/config/expr.c:851-877 | containing a symbol means mentioning it anywhere, comparisons included |
| Submenu.DependsContains | openwrt/scripts/config/menu.c:462-468 | what depends on a symbol contains it, so the first test never hides an absolute dependency |
| Submenu.BelongsBelow | openwrt/scripts/config/menu.c:462-490 | an entry put below a symbol is not visible unless the symbol is not n or the condition of its prompt holds, at all calculated values at which the symbols negated in its condition are not m and compared as they are and those bare outside a NOT in the condition of the prompt are compared as they are; absolute dependencies are always put there; by comparison, without constant operands, exactly those entries that mention the symbol and whose prepared condition has every operand of that of the prompt; and with no condition or no prompt to compare with, exactly those that mention the symbol |
| Submenu.SharedConditionTaken | openwrt/scripts/config/menu.c:470-490 | `(s || q) && r` goes below s whose prompt has the condition r, though it does not depend on s |
| Submenu.NegatedUnjustified | openwrt/scripts/config/menu.c:470-490 | the condition on negated symbols is needed: for any a but a boolean, `(s || q) && !a` is put below s by comparison with the prompt, and is visible with s n and the prompt hidden if and only if a is m or not compared as it is |
| Submenu.BareUnjustified | openwrt/scripts/config/menu.c:470-490 | so is that on bare symbols: for any u but a boolean, `(s || q) && u != n` is put below s whose prompt asks for u, and is visible with s n and the prompt hidden if and only if u is not compared as it is |
| Inherit.RewriteMValue | openwrt/scripts/config/menu.c:74-104 | a bare m counts no more than the modules symbol, comparisons with m stay |
| Inherit.TransBoolVisible | openwrt/scripts/config/expr.c:399-426 | dropping `!= n` never makes a condition n or not n, with NOT over symbols only as at its one caller, menu.c:404 |
| Inherit.TransBoolNegated | openwrt/scripts/config/expr.c:406-411 | for the negation of `A != n`, which no condition holds where the rewrite is called, the same would be so if and only if A is not m |
| Inherit.InheritInto | openwrt/scripts/config/menu.c:355-358 | the new condition is the upper one ANDed with the entry's own, in value, after all rewriting, and has no redundant operands |
| Inherit.InheritPrompt | openwrt/scripts/config/menu.c:399-405 | the same for a prompt, exactly for tristates, up to n or not n for the others, whose conditions test no tristate for being different from n |
| MenuTree.LinkedSplit | openwrt/scripts/config/menu.c:497-501 | a linked level cut in two is two linked levels |
| MenuTree.FlattenFacts | openwrt/scripts/config/menu.c:546-583 | flattening keeps the preorder and the entries, and leaves no promptless entry with children on the level |
| MenuTree.Reparent | openwrt/scripts/config/menu.c:575-579 | every child of the flattened entry gets the new parent and nothing else changes |
| MenuTree.Splice | openwrt/scripts/config/menu.c:574-583 | the children take their place behind the entry, linked to its followers |
| MenuTree.FlattenList | openwrt/scripts/config/menu.c:505-584 | the loop over a level links exactly the flattened forest |
| Finalize.InheritEntry | openwrt/scripts/config/menu.c:347-421 | one entry gets the conditions above it, in its own condition and its prompt's |
| Finalize.InheritList | openwrt/scripts/config/menu.c:346-421 | every entry of the level does, links untouched |
| Finalize.FinalizeKids | openwrt/scripts/config/menu.c:305-431 | conditions are handed down to all levels below, and the children are finalized in order |
| Finalize.TakeFollowers | openwrt/scripts/config/menu.c:432-504 | consecutive followers that belong below a symbol become its children, up to the first that does not |
| Finalize.TakeOne | openwrt/scripts/config/menu.c:491-494 | a taken follower is finalized first, with what it takes itself, and then hangs below the symbol |
| Finalize.FinalizeFollowers | openwrt/scripts/config/menu.c:459-501 | the loop of the automatic submenu, with the last taken entry and the links left half-done until it ends |
| Finalize.MenuFinalize | openwrt/scripts/config/menu.c:305-612 | the recursion ends; the preorder of the entries is kept, each is finalized once, every parent link is at the entry whose list holds it, no promptless entry below keeps children, conditions come from all entries above; at every depth, before flattening, each entry that was put below a symbol mentions it and, if the symbol has a prompt, is justified there, and any other is bound by the condition of the entry above; the run of followers stops only at an entry that need not be taken: it does not depend on the symbol outright, nor, while both prepared conditions are without duplicates and constants, mentions it and has every operand of the prompt |
| Placement.FlattenTops | openwrt/scripts/config/menu.c:574-583 | a flattened level has exactly its own entries and the children of its promptless ones |
| Placement.HiddenFlat | openwrt/scripts/config/menu.c:546-583 | if no entry of a level is visible, none is after flattening, provided the promptless symbols that handed entries on took them outright and are on only while the condition of their place is met |
| Placement.FinishedRight | openwrt/scripts/config/menu.c:432-583 | throughout the finished tree no entry in the automatic submenu of a symbol with a prompt is visible unless the symbol is on or its prompt visible, at values at which the comparisons for what the symbol took can be relied on and the promptless symbols behind the rest are as just said |
| Placement.UnliftedTaken | openwrt/scripts/config/menu.c:546-583 | where no promptless entry has children, the finished submenu is exactly what its symbol took, all of it justified |
| Placement.ComparedAstray | openwrt/scripts/config/menu.c:462-583 | an entry on `t || q`, taken by a promptless t which s took, ends below s; all comparisons being reliable, it is visible with s n and the prompt of s hidden if and only if t or q is not n, and then not justified below s |
| Placement.OutrightAstray | openwrt/scripts/config/menu.c:462-583 | an entry on `t` in that position is visible with s n and the prompt of s hidden if and only if t is not n, which is if and only if the condition on promptless symbols fails for t |
| Placement.HandedOn | openwrt/scripts/config/menu.c:574-583 | flattening takes an entry from below a promptless one and puts it behind it on the same level |
| Walk.Climb | openwrt/scripts/config/confdata.c:902-914 | going up from an entry without follower finds the next entry of the preorder, or the end |
| Walk.Visit | openwrt/scripts/config/confdata.c:871-915 | the walk over next and parent links lists exactly the preorder |
| Walk.FinalizeRoot | openwrt/scripts/config/menu.c:305-612 | the call on the root ends in one tree over the same entries in the same order, in which every automatic submenu of a symbol with a prompt is right under the condition of Placement.FinishedRight |
| Walk.FinalizeAndVisit | openwrt/scripts/config/confdata.c:871-915 | after finalizing, the walk meets every entry that was read, once, in the order it was read; the links form one tree in that order, whose automatic submenus are right under the condition of Placement.FinishedRight |
| Reach.DirDepNo | openwrt/scripts/config/menu.c:503 | collected direct dependencies are n exactly when some place has a condition and all places with one are n |
| Reach.InheritedBounded | openwrt/scripts/config/menu.c:399-405 | a prompt that inherits its place's condition is visible only where that condition is not n |
| Reach.PlacesBounded | openwrt/scripts/config/menu.c:346-405 | in the finished tree every prompt of a symbol, at all places where it is defined, is visible only where the condition of its place is not n |
| Reach.ReachableExact | openwrt/scripts/config/menu.c:503 | a visible symbol has its direct dependencies met, except exactly when they are unmet while a prompt shows at a place without conditions |
| Reach.TreeReachable | openwrt/scripts/config/menu.c:503 | so for the places found in the finished tree, collected in any order, direct dependencies of a visible symbol are met except exactly in the case of ReachableExact |
| Reach.ReachableUniform | openwrt/scripts/config/menu.c:503 | with conditions at all places or at none it always has |
| Reach.WithinRangeTakes | openwrt/scripts/config/symbol.c:453-508 | there every value within range takes effect |
| Reach.VisibleYetForcedOff | openwrt/scripts/config/symbol.c:379-382 | a symbol defined at one place without and one with an unmet condition is visible, yet n when selected |
| Reach.OnSomewhere | openwrt/scripts/config/symbol.c:345-390 | a boolean or tristate that is not n, whether by its user, a default, an imply or a select, has a place whose condition is met |
| Reach.SteadyAtOnePlace | openwrt/scripts/config/menu.c:546-583 | a promptless boolean or tristate with one place that took its followers outright meets the condition on promptless symbols at all calculated values |
| SymbolTable.IndexInjective | openwrt/scripts/config/symbol.c:782-821 | symbols of different names or kinds are different |
| SymbolTable.InsertIndexed | openwrt/scripts/config/symbol.c:811-818 | a new symbol at the head of its chain keeps every name found and every chain in its slot |
| SymbolTable.InsertDated | openwrt/scripts/config/symbol.c:811-818 | chains hold later symbols first |
| SymbolTable.FirstLatest | openwrt/scripts/config/symbol.c:837-846 | the first match in a chain is the one created last |
| SymbolTable.Registry.Search | openwrt/scripts/config/symbol.c:797-803 | the walk finds the first symbol of the name and kinds, and none only if there is none |
| SymbolTable.Registry.Lookup | openwrt/scripts/config/symbol.c:782-821 | the letters are fixed, a known name and kind gives its symbol and changes nothing, an unknown one a new symbol and nothing else |
| SymbolTable.Registry.Find | openwrt/scripts/config/symbol.c:823-848 | finds exactly names of plain symbols and choices; a plain symbol of the name is found if and only if no choice of the name was created after it |
| SymbolTable.LookupAll | openwrt/scripts/config/symbol.c:782-821 | over any run of lookups, two give the same symbol if and only if name and kind are the same; y, m and n are one symbol each whatever the kind, nameless symbols are always different |
| SymbolTable.HiddenByChoice | openwrt/scripts/config/symbol.c:837-846 | a choice created after a symbol of its name is what a search for the name finds |
| Cycles.OrderedAcyclic | openwrt/scripts/config/symbol.c:1225-1257 | symbols ordered after all they depend on form no cycle |
| Cycles.DepsExact | openwrt/scripts/config/symbol.c:1140-1186 | by index: a symbol depends on what its direct, reverse and implied dependencies mention, the conditions of its properties but select and imply, and the values of its defaults |
| Cycles.OrderedPrefix | openwrt/scripts/config/symbol.c:1225-1257 | a prefix of a dependency order is one, and contains all its last symbol needs |
| Cycles.ClosesCycle | openwrt/scripts/config/symbol.c:1230-1233 | meeting a symbol that is on the stack closes a cycle of the dependency relation |
| Cycles.Checker.Push | openwrt/scripts/config/symbol.c:994-1002 | both marks are set and the stack grows by the symbol |
| Cycles.Checker.Pop | openwrt/scripts/config/symbol.c:1004-1009 | and is restored |
| Cycles.Checker.CheckExpr | openwrt/scripts/config/symbol.c:1105-1137 | an expression is checked through all its symbols or up to the first report |
| Cycles.Checker.CheckProperties | openwrt/scripts/config/symbol.c:1165-1180 | conditions of all properties but select and imply, values of defaults only |
| Cycles.Checker.CheckSymDeps | openwrt/scripts/config/symbol.c:1140-1186 | direct, reverse and implied dependencies and properties in turn; check_top is restored |
| Cycles.Checker.CheckDeps | openwrt/scripts/config/symbol.c:1225-1257 | the search ends whatever the cycles; each symbol returned is on a cycle of the relation, every SYMBOL_CHECK set is cleared, and what is left marked without a report is ordered by its dependencies |
| Cycles.CheckAll | openwrt/scripts/config/parser.y:513-518 | with recursion an error, no symbol is returned if and only if the dependencies are acyclic, and the checks then end in a dependency order; otherwise none is ever returned |
| Values.ValueOfLocal | openwrt/scripts/config/symbol.c:299-440 | a value depends only on the symbols the check for cycles follows |
| Values.SolutionsAgree | openwrt/scripts/config/symbol.c:299-440 | a changed user value touches no symbol ranked below it |
| Values.SolutionExists | openwrt/scripts/config/symbol.c:299-440 | along a dependency order every symbol has a value |
| Values.SolutionUnique | openwrt/scripts/config/symbol.c:299-440 | and only one |
| Values.SolvedDependencies | openwrt/scripts/config/symbol.c:172-233 | the visibility is the greatest condition among the prompts, m counting as y but for a tristate with modules; the three dependencies are their expressions, with y, n, n where missing, m counting as y for an effective boolean, implied only while the direct ones are not n |
| Values.SolvedTristate | openwrt/scripts/config/symbol.c:345-390 | by index of the first default whose condition is not n: a boolean or tristate is n when selected against its dependencies; else the user value up to the visibility if it is visible and set; else the value of that default up to its condition, or implied; never below what selects it; m raised to y for an effective boolean or an imply of y; and it is written exactly if visible, selected, implied or given a default |
| Values.SolvedString | openwrt/scripts/config/symbol.c:391-407 | by the same index: the text of the user if visible and set, else that of the symbol the default names, else none |
| Values.SolvedUnknown | openwrt/scripts/config/symbol.c:330-333 | a symbol that is nowhere declared is n and holds its name |
| Evaluate.Evaluator.EvalExpr | openwrt/scripts/config/expr.c:1030-1102 | evaluating an expression leaves all symbols it names calculated and returns its value under the specification |
| Evaluate.Evaluator.CalcPrompts | openwrt/scripts/config/symbol.c:184-199 | the best visible prompt |
| Evaluate.Evaluator.GetDefault | openwrt/scripts/config/symbol.c:78-88 | the first default whose condition is not n |
| Evaluate.Evaluator.CalcVisibility | openwrt/scripts/config/symbol.c:172-233 | visibility, direct, reverse and implied dependencies are those of the specification |
| Evaluate.Evaluator.CalcTristate | openwrt/scripts/config/symbol.c:345-390 | the tristate branch stores the specified value, forcing a selected symbol with unmet dependencies to n |
| Evaluate.Evaluator.CalcString | openwrt/scripts/config/symbol.c:391-407 | the branch for strings and numbers likewise |
| Evaluate.Evaluator.CalcValue | openwrt/scripts/config/symbol.c:299-440 | the recursion ends even with cycles; valid symbols keep their fields, and for acyclic dependencies every valid symbol holds the specified value, whatever was asked before |
| Evaluate.CalcAll | openwrt/scripts/config/symbol.c:299-440 | requests in any order and with repetitions give each symbol its one specified value |
| Evaluate.CheckAndCalc | openwrt/scripts/config/parser.y:513-518 | a table that passes the check has exactly one solution, and all requests are answered from it |
| Values.SolutionWellTyped | openwrt/scripts/config/symbol.c:299-440 | calculated values obey the declared types, and symbols of no boolean or tristate type are n, as the simplifier and the submenu test assume |
| Values.ValueBounds | openwrt/scripts/config/symbol.c:345-390 | a value is n when selected against its dependencies, else at least what selects it; never m for an effective boolean; and never above what prompt (for a chosen value), default and imply (for any other) and select allow, but for y where they allow m |
| Setting.RangeExact | openwrt/scripts/config/symbol.c:453-472 | for a changeable symbol the values within range are exactly those that take effect when set, except that only n does where it is selected against its dependencies, and y does where an implied m is y anyway |
| Setting.SettleTakes | openwrt/scripts/config/symbol.c:453-508 | an accepted value takes effect exactly under a condition on visibility, direct dependencies, select and imply |
| Setting.AcceptedExact | openwrt/scripts/config/symbol.c:453-472 | a symbol not visible above what selects it accepts its own value only; any other accepts exactly what lies between selection and visibility, m only for a tristate with modules that is not implied by y |
| Setting.AcceptedYetForcedOff | openwrt/scripts/config/symbol.c:379-382 | a symbol visible with y, selected with m, without its direct dependencies: m and y are accepted and come out as n |
| Setting.ChangedValue | openwrt/scripts/config/symbol.c:299-440 | a changed user value leaves the symbols ranked below alone, and the symbol is calculated from them |
| Setting.SetTristateTakes | openwrt/scripts/config/symbol.c:453-508 | so after recalculation of the whole table; a value within range takes effect if and only if the symbol is not selected against its dependencies; and no symbol ranked below changes |
| Choice.MemberVisibleCrisp | openwrt/scripts/config/symbol.c:184-200 | a member of a choice that is y is visible with y or not at all |
| Choice.ShownExact | openwrt/scripts/config/symbol.c:184-200 | a member is shown exactly by a prompt on y, or for a boolean by one that is not n |
| Choice.ChoiceSymbol.CalcVisibility | openwrt/scripts/config/symbol.c:172-207 | the loop over the prompts of a member, without m-only tristate prompts |
| Choice.ChoiceSymbol.ChoiceDefault | openwrt/scripts/config/symbol.c:235-265 | the first applying default that is shown, else the first shown member |
| Choice.ChoiceSymbol.CalcChoice | openwrt/scripts/config/symbol.c:267-297 | the user's member if shown, else the default; without any the choice becomes n; it stays decided by the user exactly when it was and every shown member has a user value |
| Choice.ChoiceSymbol.CalcMembers | openwrt/scripts/config/symbol.c:350-390 | each member gets y or n by being chosen, or its own default if it is not shown |
| Choice.CalcAllMembers | openwrt/scripts/config/symbol.c:241-297 | the choice stays y exactly when some member is shown; then its val is a shown member and y, other shown members are n, and it is the only y exactly when no hidden member owes y to a default; val is the member of the user if shown, else that of the first default, by index, whose condition is not n and whose member is shown, else the first member shown; a hidden member has the value of its own first default up to its condition; the choice counts as decided by the user exactly when it did and every shown member has a user value |
| Printing.DecideProgress | openwrt/scripts/config/parser.y:445-456 | every reduction makes the stack lighter, so parsing ends |
| Printing.Parse | openwrt/scripts/config/parser.tab.c:1893-1957 | the shift-reduce loop accepts exactly the derivations of the grammar with its precedences, and gives the expression derived |
| Printing.DerivedIsRead | openwrt/scripts/config/parser.y:445-456 | what derives an expression on some level of the grammar is shifted and reduced to it, in every context where that level stands alone |
| Printing.RunDerives | openwrt/scripts/config/parser.y:88-92 | from every stack that is a reading of the tokens so far, what is accepted derives the expression returned |
| Printing.ParseExact | openwrt/scripts/config/parser.y:88-92 | a token list is accepted with an expression if and only if it derives the expression: AND before OR, NOT before both, runs of one connective to the left |
| Printing.Precedences | openwrt/scripts/config/parser.y:88-92 | AND before OR, NOT before both but after a comparison, equal connectives from the left, on the shortest texts that tell |
| Printing.LeftFormValue | openwrt/scripts/config/expr.c:1138-1228 | associating runs of one connective to the left keeps the value |
| Printing.LeftFormPrint | openwrt/scripts/config/expr.c:1138-1228 | and the printed text |
| Printing.PrintParse | openwrt/scripts/config/expr.c:1104-1238 | what is printed for any expression parses to it, associated to the left |
| Printing.BracketsExact | openwrt/scripts/config/expr.c:1138-1228 | brackets stand around an OR below an AND and around an AND or OR below a NOT, and nowhere else |
| Printing.PrintedAlike | openwrt/scripts/config/expr.c:1104-1238 | two expressions print alike if and only if they differ in association only |
| ConfigText.BodyStep | openwrt/scripts/config/symbol.c:876-886 | one round of the escaping loop appends the plain text and the escaped character behind it |
| ConfigText.BodyExact | openwrt/scripts/config/symbol.c:850-891 | a backslash is put before each quote and each backslash, and nowhere else |
| ConfigText.EscapedSize | openwrt/scripts/config/symbol.c:850-868 | the first pass computes the size of the escaped text with its terminator |
| ConfigText.Escape | openwrt/scripts/config/symbol.c:850-891 | the result is the escaped text, and the buffer has exactly its size |
| ConfigText.UnquotedBody | openwrt/scripts/config/confdata.c:263-276 | reading an escaped text up to the closing quote gives the text back, whatever follows |
| ConfigText.UnquotedEscape | openwrt/scripts/config/confdata.c:263-276 | a backslash gives way to whatever character is behind it, others stand for themselves, a quote ends the value |
| ConfigText.UnquotedOpen | openwrt/scripts/config/confdata.c:272-276 | without the closing quote there is no value |
| ConfigText.UnquoteInPlace | openwrt/scripts/config/confdata.c:263-276 | moving the text over each backslash in the line buffer leaves exactly the unquoted value, or reports that there is none |
| ConfigText.ReadsAssignment | openwrt/scripts/config/confdata.c:453-483 | a line with an assignment sets the value behind the equals sign, without a carriage return at its end |
| ConfigText.ReadsByType | openwrt/scripts/config/confdata.c:234-294 | what an assignment sets, by type: the first letter for booleans and tristates, m for tristates only; numbers valid as a whole; strings quoted and closed; nothing for unknown names |
| ConfigText.ReadsUnset | openwrt/scripts/config/confdata.c:425-452 | the comment for an unset symbol sets n |
| ConfigText.WrittenExact | openwrt/scripts/config/confdata.c:593-614 | the lines as they are written, by type and value |
| ConfigText.TristateRestored | openwrt/scripts/config/confdata.c:593-614 | booleans and tristates written come back |
| ConfigText.NumberRestored | openwrt/scripts/config/symbol.c:533-561 | valid numbers come back |
| ConfigText.StringRestored | openwrt/scripts/config/confdata.c:716-734 | a string comes back if and only if it holds no newline |
| Macros.BudgetDrops | openwrt/scripts/config/preprocess.c:266-269 | counting an expansion lowers the remaining budget by one |
| Macros.SplitClause | openwrt/scripts/config/preprocess.c:386-404 | the loop splits the clause at its top-level commas, or reports too many |
| Macros.SplitJoin | openwrt/scripts/config/preprocess.c:386-404 | the pieces joined by commas are the clause |
| Macros.SplitPieces | openwrt/scripts/config/preprocess.c:386-404 | no piece has a comma outside brackets |
| Macros.FindClose | openwrt/scripts/config/preprocess.c:467-479 | the loop finds the bracket that closes the reference |
| Macros.CloseBalanced | openwrt/scripts/config/preprocess.c:467-487 | a clause cut out for evaluation has matching brackets, so the nesting of its split never becomes negative |
| Macros.Expander.ExpandString | openwrt/scripts/config/preprocess.c:495-552 | expansion ends, gives the specified text or the error, and restores every count on return |
| Macros.Expander.ExpandDollar | openwrt/scripts/config/preprocess.c:453-488 | one reference is replaced and the position set behind it |
| Macros.Expander.EvalClause | openwrt/scripts/config/preprocess.c:346-439 | argument, variable, built-in function and environment in this order |
| Macros.Expander.VariableExpand | openwrt/scripts/config/preprocess.c:251-277 | the recursion guard, the count raised during expansion and restored after it |
| Macros.Expander.ExpandEach | openwrt/scripts/config/preprocess.c:549-557 | strings expanded one after the other give what each gives alone |
| Macros.ExpandPlain | openwrt/scripts/config/preprocess.c:495-537 | text without references is left alone, single dollar signs included |
| Macros.ExpandAppend | openwrt/scripts/config/preprocess.c:495-537 | expansion of two texts is that of their concatenation, if references end in the first |
| Macros.ExpandFewer | openwrt/scripts/config/preprocess.c:260-266 | the guard only refuses: with fewer variables under way the same text comes out |
| Macros.SelfReference | openwrt/scripts/config/preprocess.c:260-262 | a definition that refers to itself never expands, whatever stands around the reference |
| MacroCalls.CallExpands | openwrt/scripts/config/preprocess.c:346-439 | a call whose pieces expand to a name and arguments: the first variable of the name goes before a built-in function, that before the environment, which takes no arguments; a recursive variable is its value expanded with the arguments, any other its value as it stands; more than sixteen arguments are an error |
| MacroCalls.BodyExpands | openwrt/scripts/config/preprocess.c:357-366 | a body of text and numbered references expands to the text with the k-th argument in the place of each reference that reads as k |
| MacroCalls.UserFunction | openwrt/scripts/config/preprocess.c:251-277 | so a call of a user function is its body with the arguments filled in |
| Blocks.Buffered | openwrt/scripts/mkhash.c:636-639 | data that do not complete a block only lengthen the tail |
| Blocks.Filled | openwrt/scripts/mkhash.c:642-647 | data that complete the block are folded in together with the tail |
| Blocks.AbsorbMore | openwrt/scripts/mkhash.c:649-654 | whole blocks can be folded in several at a time |
| Blocks.ZeroCountLeast | openwrt/scripts/mkhash.c:574-593 | the padding uses the fewest zeros that make the length 56 modulo 64 |
| Sha256.ChIsChoose | openwrt/scripts/mkhash.c:450 | the rewritten Ch is that of FIPS 180-4, section 4.1.2 |
| Sha256.MajIsMajority | openwrt/scripts/mkhash.c:451 | so is Maj |
| Sha256.RotationForms | openwrt/scripts/mkhash.c:452-487 | shifts and ORs are the rotations of the standard |
| Sha256.RoundInPlaceIsRound | openwrt/scripts/mkhash.c:490-493 | the three in-place sums of RND are one round of section 6.2.2 |
| Sha256.RolesRotate | openwrt/scripts/mkhash.c:496-501 | the eight roles are different places and move by one each round |
| Sha256.Rndr | openwrt/scripts/mkhash.c:496-501 | a round on the array, read with rotated roles, is a round that shifts all registers |
| Sha256.Extend | openwrt/scripts/mkhash.c:504-505 | the next sixteen words of the schedule, from the words before them |
| Sha256.MixAll | openwrt/scripts/mkhash.c:513-551 | rounds and schedule in alternating batches are the 64 rounds of the standard |
| Sha256.Transform | openwrt/scripts/mkhash.c:458-563 | the state becomes the next hash value of section 6.2.2, for every state and block |
| Sha256.Be32RoundTrip | openwrt/scripts/mkhash.c:99-134 | decoding undoes encoding |
| Sha256.Be32DecIsBigEndian | openwrt/scripts/mkhash.c:120-134 | four bytes read as the big-endian number |
| Sha256.Be64EncIsBigEndian | openwrt/scripts/mkhash.c:110-117 | the eight length bytes are the number, most significant byte first |
| Sha256.DecodeBlock | openwrt/scripts/mkhash.c:438-444 | the first sixteen words of the schedule |
| Sha256.EncodeVector | openwrt/scripts/mkhash.c:425-431 | the bytes of the words in order |
| Sha256.Context.constructor | openwrt/scripts/mkhash.c:602-618 | the context stands for the empty message |
| Sha256.Context.Update | openwrt/scripts/mkhash.c:621-658 | the context stands for the message with the data appended: state folded over full blocks, buffer the tail, count the bits modulo 2 to the 64 |
| Sha256.Context.AddPadding | openwrt/scripts/mkhash.c:573-599 | the state is that of the message padded as in section 5.1.1 |
| Sha256.Context.Final | openwrt/scripts/mkhash.c:660-675 | the digest of the whole message, and a cleared context |
| Sha256.HashChunks | openwrt/scripts/mkhash.c:715-728 | the digest does not depend on how the input was split |
| Sha256Example.AbcDigest | openwrt/scripts/mkhash.c:458-618 | the definitions give the digest of "abc" that FIPS 180-2, appendix B.1, prints; this fixes every constant, rotation and step |
| Md5.F | openwrt/scripts/mkhash.c:151 | the rewritten F is that of RFC 1321, section 3.4 |
| Md5.G | openwrt/scripts/mkhash.c:152 | so is G |
| Md5.H2 | openwrt/scripts/mkhash.c:154 | so is the second form of H |
| Md5.Step | openwrt/scripts/mkhash.c:160-163 | STEP is b + ((a + f + x + t) <<< s) |
| Md5.LinesFollow | openwrt/scripts/mkhash.c:212-283 | the 64 lines take message words and shifts in the order of the standard |
| Md5.StepInPlace | openwrt/scripts/mkhash.c:160-163 | a line that rotates register names is an operation that shifts the registers |
| Md5.Mix | openwrt/scripts/mkhash.c:205-283 | the four rounds |
| Md5.CountStep | openwrt/scripts/mkhash.c:316-319 | hi and lo keep the byte count modulo 2 to the 61 through the carry, for data of any size |
| Md5.CountBits | openwrt/scripts/mkhash.c:364-372 | the two words shifted are the bit length modulo 2 to the 64 |
| Md5.LengthValue | openwrt/scripts/mkhash.c:364-372 | the eight length bytes are that number, low-order word first |
| Md5.Context.Body | openwrt/scripts/mkhash.c:189-297 | one or more blocks are folded in |
| Md5.Context.Count | openwrt/scripts/mkhash.c:313-321 | the counter step, and the fill of the buffer before it |
| Md5.Context.Update | openwrt/scripts/mkhash.c:310-343 | the context stands for the message with the data appended |
| Md5.Context.AddPadding | openwrt/scripts/mkhash.c:345-376 | the state is that of the message padded as in sections 3.1 and 3.2 of RFC 1321 |
| Md5.Context.Final | openwrt/scripts/mkhash.c:345-396 | the digest of the whole message, and a cleared context |
| Md5.HashChunks | openwrt/scripts/mkhash.c:700-713 | the digest does not depend on how the input was split |
| Md5Example.AbcDigest | openwrt/scripts/mkhash.c:189-297 | the definitions give the digest of "abc" that RFC 1321, appendix A.5, prints |

## Left out

- expr_transform, expr_eliminate_yn, expr_trans_bool and __expr_eliminate_eq overwrite nodes where they stand and free
  others; they are modelled as functions on trees, which does not capture node reuse. Sharing inside one tree is
  modelled where it matters, in `Duplicates`.
- NULL operands, E_LIST, E_RANGE and E_NONE inside conditions; a missing condition at the top is modelled.
- `expr_trans_compare` with the constant m, which no caller uses.
- Duplicates.Rewriter.EliminateDups: says nothing of the value where two of the constants read as one level, although
  only the rule for distinct constants can then change it.
- Inherit.InheritInto: asks for different levels of all constants that tristates are tested for anywhere in the tree,
  not only in the conditions it combines.
- Matching.ElimLevels: asks that the operands hold no constants inside; EqSound and ElimCommonFactors do not.
- Matching.EqExact: asks for no constant operands, since with them no canonical form decides equality
  (`Matching.NoCanon`).
- Choices and choice values in `Cycles`, `Values`, `Evaluate` and `Finalize`; `Choice` takes the values of all other
  symbols as given and not depending on the members, and covers choices whose value is y.
- Ranges: `sym_validate_range`, and conditions of range properties in evaluation.
- The modules symbol changing while values are calculated, and the flags SYMBOL_CHANGED and SYMBOL_NO_WRITE.
- Finalize.MenuFinalize: does not collect the conditions of selects and implies into the symbols they point at; the
  collected direct dependencies are the subject of `Reach`. Properties other than one prompt an entry, warnings, and
  the reverse dependency of non-optional choices are left out too.
- Reach.TreeReachable: takes the collected direct dependencies and the prompts in the table to be those of the entries
  of the tree; the collecting itself is left out.
- Finalize.FinalizeKids: leaves out the branch in which a choice becomes the parent condition of its values.
- Walk.Visit: does not write anything; which symbols a walk writes, and menu visibility, are left out.
- The tables of the generated parser and its error recovery; `Printing.Decide` settles shift or reduce by the declared
  precedences. Symbols are tokens, since printing drops quotes.
- ConfigText.ReadsAssignment: takes the line as a value, where the reader cuts it up in its buffer; only the loop over
  a quoted string is modelled in the buffer.
- Writing and reading of comments, headers and other files, and the automatic configuration's variants of the line
  reader.
- Macros: `variable_add`, the expansion of single tokens for the scanner, and the capacity of the argument array,
  which a clause with sixteen commas outside brackets exceeds by one.
- Unrolled code is modelled by loops with the same steps: the sixteen rounds and schedule steps of SHA-256, and the 64
  lines of MD5, whose four register variables are then the places of an array.
- The hexadecimal text of a digest, and reading files. The constants of both digests are the tables of the code; the
  examples of the standards fix them.
- The hash function of the symbol table is a parameter; chains are sequences instead of linked records.
- Memory management and buffer capacities, except the size that `sym_escape_string_value` computes.
- Front ends, the scanner, file handling, regular expressions, random configurations, and the other scripts of the
  repository: user interface, generated code, library calls, or easy to state.
