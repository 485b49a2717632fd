# Verified models of the Open Policy Agent compiler and bundle store

The Open Policy Agent (OPA) compiles policies written in Rego and keeps the documents they are evaluated
against in a store that bundles are activated in. This project models the parts of it that carry the most
reasoning, in Dafny, and proves what they promise.

| part | files |
|---|---|
| terms, expressions, their variables and their meaning | `Syntax`, `Semantics` |
| the unifier that decides which variables an equation binds | `UnifierSpec`, `Unifier`, `Determination`, `Monotonicity`, `UnifierBinds` |
| output variables and the reordering of bodies for safety | `OutputVars`, `Reordering`, `Twins`, `Safety` |
| generated names; flattening of nested calls and references | `LocalVars`, `Flatten`, `FlattenMeaning`, `FlattenBodies`, `FlattenShape`, `FlattenNegation` |
| renaming of declared variables | `Renaming`, `Scoping`, `Undoing`, `LocalRenaming` |
| the rule index | `IndexTrie`, `IndexReach`, `IndexOnce`, `RuleIndex`, `IndexLookup`, `BaseDocIndex`, `IndexMeaning` |
| the rule tree and the dependency graph | `RuleTree`, `DependencyGraph` |
| the order on values, sets, lazy objects, merging | `Comparison`, `OpenSet`, `LazyObjects`, `Merging` |
| bundle roots, reading and activation of bundles | `RootPaths`, `Documents`, `Regions`, `Bundles`, `PatchLocality`, `Activation`, `DeltaPatching`, `SnapshotFilling`, `ActivationResult`, `BundleStore`, `BundleFrames`, `BundleReader` |

Conventions. Code that updates objects or loops is a method or a class, proved against a function or a
predicate; what the code promises is then proved of that function. A Go map is iterated in an arbitrary
order, so every loop over a map or a set takes any element (`:|`), and what is proved of it holds for every
choice. Mostly the result is shown not to depend on the choice; where it can, as in the erasure of nested
roots (`NestedRootsByOrder`), the patching of deltas that get in each other's way, and modules of one batch
with the same id, the claims say under which condition it does not, or that it is the result of some order.
Errors are results. Hash functions, the arity of operators, which references are virtual,
whether modules compile and whether paths conflict are parameters, and nothing is assumed about them that
is not stated.

Where a promise fails, the code is modelled as it is, a lemma gives an input on which it fails, and another
says when it holds:

- An equation with a set on one side binds too much (`SetEquationUndetermined`); between a variable and a set
  of variables it is right exactly when the variable is safe, the members are safe, or the variable is itself
  a member, so that there is no solution (`SetEquationExact`). Sets below arrays and keys of objects are
  treated in the same way (`NestedSetUndetermined`, `KeyedObjectUndetermined`). Of two items of an object
  whose keys turn out equal one is dropped (`CoincidingKeysUndetermined`).
- Two expressions that are equal in place and terms confuse the reordering of a body (`TwinMisreported`),
  because membership in the reordered body compares the index that appending rewrites. Nothing is reported
  exactly when some order is safe and the order found without that confusion never puts an expression after
  its own index already holds an equal one (`TwinsExact`, `ReorderWithTwins`).
- Lifting calls and references out of a negated expression changes its meaning, as in `not h(f(x))`
  (`NestedCallNegated`). It is preserved exactly when the expression has no call in a term, has references
  only as its one term or as sides of an equation, and has neither inside a literal that a reference starts
  from (`NegatedExact`).
- The keys of an object on the left of an assignment are not renamed (`KeyLeftBehind`); renaming follows the
  scopes exactly when no such key has a variable that is declared at that point (`RenamesByScope`).
- Roots are compared before percent escapes are decoded, so two roots can share a storage path and not
  overlap (`EscapedRootsCollide`). A root is stored where it says exactly when no segment has a well-formed
  escape (`StorageExact`), and such roots overlap exactly when their storage paths do (`StorageOverlap`).
- The paths of patches decode tildes as well, so a patch can leave the root that admits it
  (`EscapedPatchLeaves`); none does exactly when the root decodes to itself (`PatchExact`).
- Manifests are kept in the document, below `system`, and nothing keeps a bundle from having that root
  (`SystemRootErases`). Bundles whose roots lie outside the system area leave it alone (`SystemApart`), and
  the claims about manifests are for those.
- Whether nested roots can be erased may depend on the order (`NestedRootsByOrder`). Where no array lies
  above a root to be erased every order succeeds, and an activation on a good store then succeeds exactly
  under the conditions one expects (`Activate`, `UnnestedOrderly`).
- Below an array that no bundle owns, erasing one root moves its neighbours (`ArrayNeighbourMoves`); from an
  empty store this never happens to a bundle's data (`Run`, through the ownership in `Good`).
- The document of a bundle with the empty root stays when the bundle is deactivated (`WholeDocumentStays`);
  a deactivation empties a root exactly when it is not the empty one, or nothing was stored (`Deactivate`,
  `EmptiedExactly`).
- A snapshot that gives up a root erases what a first delta of another bundle in the same activation put
  there (`MovedRootErasesDelta`). `SparesDeltasExactly` says when deltas are spared; otherwise their areas
  are kept exactly when nothing in them is erased (`KeptExactly`, `LostExactly`).
- A key with a slash in it passes the reader's check as if it were a path, and its value is never stored
  (`SlashedKeyLost`); a value is stored exactly when its path of keys lies in the area of a root
  (`StoredExactly`).

Where code and comments disagree, the code is followed. Lookup without hidden modules still reports rules
defined exactly at `data.system` when the walk ends at or above that node (ast/compile.go:703-733 only says
that hidden modules are excluded; see `LookupHidden`).

## Model

| member | source | states |
|---|---|---|
| `UnifierSpec.UnifyKeepsSaturated` | ast/unify.go:53-227 | after unifying any two terms no pending key or dependency is already unified and no dependency set is empty |
| `UnifierSpec.CloseIs` | ast/unify.go:183-203 | marking variables safe reaches the least state closed under the pending dependencies, and it is the only such state |
| `Unifier.Unifier.MarkSafe` | ast/unify.go:183-203 | terminates because the pending dependencies shrink before each recursive call, and reaches the least closure whatever the map order |
| `Unifier.Unifier.MarkAllSafe` | ast/unify.go:175-181 | marks exactly the visible variables of a term, with all that follows from them |
| `Unifier.Unifier.MarkUnknown` | ast/unify.go:205-210 | adds one dependency and changes nothing else |
| `Unifier.Unifier.UnifyAll` | ast/unify.go:212-227 | a variable becomes safe at once or waits for exactly the unsafe variables of the other side |
| `Unifier.Unifier.Unify` | ast/unify.go:53-173 | refines the unification function on every pair of terms, in either operand order, for any iteration order |
| `Unifier.Unify` | ast/unify.go:33-47 | returns the variables that the specification says the equation binds |
| `Determination.UnifyDetermines` | ast/unify.go:33-227 | two assignments that satisfy the equation, agree on the safe variables and give no two keys of an object the same value agree on every variable returned |
| `Determination.UnifyDeterminesAlways` | ast/unify.go:33-227 | so do any two assignments if the objects have pairwise different scalar keys, or one item |
| `Determination.SetEquationUndetermined` | ast/unify.go:78-80 | for `x = {y, ...}` with an unsafe member the returned variables are not determined: two solutions differ |
| `Determination.SetEquationExact` | ast/unify.go:78-80 | such an equation is reported correctly exactly when x is safe, all members are safe, or x is a member itself |
| `Determination.NestedSetUndetermined` | ast/unify.go:212-227 | `x = [{y, z}]` with x safe reports y and z, which are not determined |
| `Determination.KeyedObjectUndetermined` | ast/unify.go:212-227 | `x = {y: s}` reports x although its value changes with the unsafe key |
| `Determination.CoincidingKeysUndetermined` | topdown/eval.go:928-958 | `z = {x: a, y: b}` with x, y and z safe reports a, which is lost where x and y are equal |
| `Monotonicity.UnifyMonotone` | ast/unify.go:33-227 | more safe variables never make the unifier bind fewer of the others |
| `UnifierBinds.PatternBinds` | ast/unify.go:53-227 | matching a pattern against a known term of its shape binds every variable of the pattern |
| `UnifierBinds.UnifyGrows` | ast/unify.go:53-227 | what is unified stays unified |
| `OutputVars.OutputVarsForExpr` | ast/compile.go:3960-4002 | the output variables of an expression, case by case, equal the specification's |
| `OutputVars.OutputVarsForExprEq` | ast/compile.go:4004-4015 | for equalities, what unification returns with the safe variables removed |
| `OutputVars.OutputsMonotone` | ast/compile.go:3960-4062 | what is safe or output stays so when more variables are safe |
| `OutputVars.OutputsBounded` | ast/compile.go:3960-4062 | outputs of a closure-free expression are variables of that expression |
| `Reordering.ReorderSound` | ast/compile.go:3762-3818 | if nothing is reported, the result is a permutation in which each expression needs only globals, earlier outputs and its own outputs |
| `Reordering.ReorderComplete` | ast/compile.go:3762-3818 | if some permutation is safe, the fixed point reports nothing |
| `Reordering.ReorderExact` | ast/compile.go:3762-3818 | nothing is reported exactly when a safe permutation exists |
| `Reordering.ReorderMinimal` | ast/compile.go:3762-3818 | a body that is already safe keeps its order |
| `Reordering.TwinsReported` | ast/compile.go:3762-3818 | a body with two equal expressions on which the pass drops one and reports it |
| `Twins.TwinsExact` | ast/compile.go:3762-3818 | with equal expressions, nothing is reported exactly when a safe permutation exists and the order found by skipping just what was placed never puts an expression after its index holds an equal one |
| `Safety.ReorderBodyForSafety` | ast/compile.go:3762-3818 | the loops over passes and expressions compute the specified order and the specified unsafe expressions |
| `Safety.Classify` | ast/compile.go:3764-3777 | initially safe are the globals that occur; each expression lacks the rest of its variables |
| `Safety.ReorderedBodyIsSafe` | ast/compile.go:3762-3818 | no unsafe variables means a permutation that is safe left to right |
| `Safety.ReorderFindsSafeOrder` | ast/compile.go:3762-3818 | for closure-free bodies without twins, no unsafe variables exactly when some order is safe |
| `Safety.ReorderWithTwins` | ast/compile.go:3762-3818 | the same for all closure-free bodies, with the exact condition on twins |
| `Safety.SafeBodyUnchanged` | ast/compile.go:3762-3818 | a safe body comes back unchanged |
| `Safety.TwinMisreported` | ast/policy.go:1099-1103 | a concrete body with a safe order in which a repeated expression is dropped and reported unsafe |
| `LocalVars.LocalInjective` | ast/compile.go:4102-4110 | different counters give different names |
| `LocalVars.LocalVarGenerator.Generate` | ast/compile.go:4102-4110 | the next name that is not excluded, never handed out again |
| `LocalVars.GeneratedSplits` | ast/compile.go:4080-4110 | names handed out before a point are never handed out after it |
| `Flatten.LiftEval` | ast/compile.go:4741-4802 | where the lifted definitions hold, the rewritten term has the value of the original |
| `FlattenMeaning.ExtendTerm` | ast/compile.go:4582-4657 | an assignment under which a term has a value extends to the generated variables so that all definitions hold |
| `FlattenMeaning.UniqueTerm` | ast/compile.go:4582-4657 | it extends in only one way |
| `FlattenBodies.FlattenSound` | ast/compile.go:4529-4847 | every solution of the flattened body is a solution of the body |
| `FlattenBodies.FlattenExtends` | ast/compile.go:4529-4847 | every solution of the body extends to one of the flattened body |
| `FlattenBodies.FlattenUnique` | ast/compile.go:4529-4847 | two solutions of the flattened body that agree on the source variables agree on the generated ones |
| `FlattenBodies.FlattenPreserves` | ast/compile.go:4529-4847 | the solutions of the body are exactly the restrictions of those of the flattened body, each with one extension |
| `FlattenShape.BodyCallsLifted` | ast/compile.go:4683-4847 | the first pass leaves no call in term position, in any body |
| `FlattenShape.FlattenedIsFlat` | ast/compile.go:4529-4847 | after both passes references stand alone in equalities and single terms, and nowhere else |
| `FlattenBodies.ExcludedIsStale` | ast/compile.go:4095-4110 | a generator that excludes the variables of the body generates none of them |
| `FlattenNegation.NegatedExact` | ast/compile.go:4529-4847 | both passes together preserve a negated expression, for all documents and functions, exactly when it has no call in a term, references only as its one term or sides of an equation, and neither inside a literal that a reference starts from |
| `FlattenNegation.NestedCallNegated` | ast/compile.go:4683-4847 | `not h(f(x))` is not preserved |
| `FlattenNegation.LiteralSubjectNegated` | ast/compile.go:4741-4802 | a negated lookup in a plain literal, such as `not {x: 1, y: 2}[i]`, is preserved although the literal is lifted |
| `LocalRenaming.RewriteLocalVars` | ast/compile.go:5015-5052 | the pass over a body, in place on one stack of scopes, gives the scoped body exactly under the condition on keys, and what its names stand for leads back to the source |
| `LocalRenaming.LocalDeclaredVars.Body` | ast/compile.go:5021-5052 | the loop over statements leaves the specified stack and body |
| `LocalRenaming.LocalDeclaredVars.Term` | ast/compile.go:5317-5423 | the walk through a term, opening and closing scopes for comprehensions, leaves the specified stack and term |
| `LocalRenaming.LocalDeclaredVars.Pattern` | ast/compile.go:5273-5306 | so does the walk through the left side of an assignment |
| `Scoping.LookupAgrees` | ast/compile.go:4955-4979 | in every reachable stack, lookup gives the name of the innermost declaration in scope, or the variable itself |
| `Scoping.TermResolves` | ast/compile.go:5317-5423 | rewriting a term keeps stack and scopes in step through nested comprehensions, and gives the lexically scoped term exactly under that condition on keys |
| `Scoping.PatternResolves` | ast/compile.go:5273-5306 | assigned variables are declared from left to right; the pattern comes out as scoping says exactly if the variables of its keys are not declared |
| `Scoping.BodyResolves` | ast/compile.go:5021-5052 | the same for bodies: every statement sees the declarations of the statements before it |
| `Scoping.FlatStays` | ast/compile.go:5288-5292 | scoping leaves a key as it is exactly if none of its variables is declared |
| `LocalRenaming.RenamesByScope` | ast/compile.go:5015-5423 | without errors every occurrence gets the name of its innermost preceding declaration and each declaration the next generated name, exactly if no key of an assigned object has a variable declared at that point |
| `Undoing.BodyKept` | ast/compile.go:4939-4953 | rewriting never loses or changes what a generated name stands for |
| `LocalRenaming.RenamingUndone` | ast/compile.go:4849-5052 | mapping names back through the rewritten variables restores the source body, up to its declarations being gone, assignments being equations, and root documents being named by variables |
| `LocalRenaming.RewrittenNames` | ast/compile.go:4849-4864 | the rewritten names are exactly the generated ones, and no variable of the source is among them |
| `LocalRenaming.GeneratorSupplies` | ast/compile.go:4102-4110 | the names that successive calls generate are pairwise different and not excluded |
| `LocalRenaming.KeyLeftBehind` | ast/compile.go:5288-5292 | after `x := 1`, the key of `{x: y} := 2` is left as x |
| `IndexReach.ReachInsertPath` | ast/index.go:544-630 | inserting a rule makes a traversal reach it exactly when no reference contradicts its path, and changes nothing for the other rules |
| `IndexOnce.OnceInsertPath` | ast/index.go:544-630 | inserting keeps every rule in exactly one node |
| `IndexOnce.AllInsertPath` | ast/index.go:494-542 | inserting adds one rule to those in the trie |
| `RuleIndex.EntryPlaces` | ast/index.go:108-130 | rules get different pairs of position and priority |
| `RuleIndex.TrieOfEntries` | ast/index.go:108-130 | for every rule list, resolver and layout, the trie holds every rule once and a traversal reaches exactly those the plain filter keeps |
| `RuleIndex.LayoutIrrelevant` | ast/index.go:275-301 | the order of the references does not matter |
| `IndexLookup.TraversalResult.Add` | ast/index.go:425-437 | adds a node's rules to their groups and its head values to the values |
| `IndexLookup.Traverse` | ast/index.go:558-567 | the traversal records exactly the rules it reaches |
| `IndexLookup.TraverseLevel` | ast/index.go:632-675 | undefined, unknown and known references follow the branches they must |
| `IndexLookup.TraverseArray` | ast/index.go:697-721 | array patterns match element by element |
| `IndexLookup.TraverseUnknown` | ast/index.go:723-755 | an unknown reference follows every branch |
| `IndexLookup.Walk` | ast/index.go:518-542 | the walk over the trie records every rule |
| `IndexLookup.SortByPriority` | ast/index.go:146-150 | sorts a chain by priority and keeps its members |
| `IndexLookup.Summarise` | ast/index.go:146-165 | reports every chain once, its first matching link as root and the rest as else rules in order |
| `IndexLookup.ReportedOnce` | ast/index.go:146-165 | a reported rule is reported exactly once, and every chain comes back in source order |
| `BaseDocIndex.BaseDocEqIndex.IndexRule` | ast/index.go:93-105 | per reference the last constraint of the body; none if the rule prints |
| `BaseDocIndex.BaseDocEqIndex.IndexRules` | ast/index.go:83-106 | the constraints of every rule that is no default, and all references they mention |
| `BaseDocIndex.BaseDocEqIndex.Build` | ast/index.go:74-130 | refuses only the empty rule list, and otherwise holds exactly the rules of the list |
| `BaseDocIndex.BaseDocEqIndex.Lookup` | ast/index.go:132-165 | reports exactly the rules that the plain filter keeps; for complete rules, early exit exactly when they all have one ground head value |
| `BaseDocIndex.BaseDocEqIndex.AllRules` | ast/index.go:167-197 | reports every rule that is no default, with the same early exit condition |
| `BaseDocIndex.LookupWithinAllRules` | ast/index.go:132-197 | every lookup reports a part of what AllRules reports, and all of it when nothing is known |
| `BaseDocIndex.EntriesComplete` | ast/index.go:494-505 | if all rules but defaults are complete, so are all entries of the index |
| `BaseDocIndex.EarlyExitMeans` | ast/index.go:163 | one ground value collected means that all reported rules have that value |
| `IndexMeaning.NeverDropsARule` | ast/index.go:243-332 | a rule whose body holds for some assignment is kept by the filter, for any resolver that answers truthfully |
| `IndexMeaning.PatternCovers` | ast/index.go:788-814 | a term made into a pattern only takes values of that pattern |
| `IndexMeaning.LastConstraintWins` | ast/index.go:380-397 | a rule is indexed by a reference and a pattern exactly if its last constraint on that reference says so |
| `IndexMeaning.DroppedExactly` | ast/index.go:243-397 | the filter drops a rule exactly if it does not print and the last constraint on some reference is contradicted by what is known |
| `IndexMeaning.ScalarComparisonIndexed` | ast/index.go:321-332 | a rule whose last constraint on a base document reference compares it with a scalar, on either side, is dropped for every other known value and where the reference is undefined |
| `IndexMeaning.ArgumentComparisonIndexed` | ast/index.go:761-786 | so does comparing a function argument |
| `RuleTree.TreeHolds` | ast/compile.go:3378-3393 | the tree holds exactly the listed rules, each at its path |
| `RuleTree.Collector.Walk` | ast/compile.go:734-780 | the walk collects exactly the rules that the specification names, whatever the order of children |
| `RuleTree.Collector.DepthFirst` | ast/compile.go:3445-3452 | the traversal stops below hidden nodes unless they are included |
| `RuleTree.LookupExact` | ast/compile.go:734-780 | with hidden modules, exactly the rules whose path agrees with the reference on every shared position |
| `RuleTree.LookupHidden` | ast/compile.go:734-780 | without hidden modules, exactly when such a rule can be seen: below data.system only through it, by name |
| `RuleTree.CoversInstances` | ast/compile.go:703-733 | every rule that an instance of the reference refers to is found |
| `RuleTree.NewRuleTree` | ast/compile.go:3347-3376 | the loop builds the tree of the listed rules with data.system hidden |
| `RuleTree.GetRulesDynamic` | ast/compile.go:734-780 | the set of rules that the walk collects |
| `RuleTree.NewGraph` | ast/compile.go:3511-3556 | an edge between two rules exactly when a reference of the one could refer to the other or to the chain it is in |
| `RuleTree.NoEdgeMissed` | ast/compile.go:3511-3556 | no dependency through any instance of a reference is missing |
| `DependencyGraph.Graph.AddDependency` | ast/compile.go:3590-3613 | adds one edge and its reverse |
| `DependencyGraph.GraphSort.Visit` | ast/compile.go:3632-3650 | either the node and all it depends on are listed in order, or there is a cycle |
| `DependencyGraph.Graph.Sort` | ast/compile.go:3568-3589 | succeeds exactly when the graph is acyclic, and lists every node once with dependencies first |
| `DependencyGraph.OrderedMeansAcyclic` | ast/compile.go:3566-3567 | a graph that can be listed in order has no cycle |
| `Comparison.TermSliceCompare` | ast/compare.go:362-378 | the loop computes the lexicographic comparison |
| `Comparison.ObjectCompare` | ast/term.go:2106-2148 | the loop compares keys and values pair by pair |
| `Comparison.CompareValues` | ast/compare.go:39-178 | kinds first, then contents |
| `Comparison.CompareZero` | ast/compare.go:39-178 | zero exactly for equal values |
| `Comparison.CompareFlip` | ast/compare.go:39-178 | antisymmetric and total |
| `Comparison.CompareTrans` | ast/compare.go:39-178 | transitive, strictly if either step is strict |
| `Comparison.KindsInOrder` | ast/compare.go:249-303 | kinds are ordered as documented |
| `Comparison.FirstDifferenceDecides` | ast/compare.go:362-378 | sequences compare as their first different elements do |
| `Comparison.PrefixIsLess` | ast/compare.go:362-378 | a sequence is less than its extensions |
| `Comparison.SetsEqual` | ast/term.go:1478-1488 | two sets compare as equal exactly when they have the same members |
| `Comparison.ObjectsEqual` | ast/term.go:2106-2148 | two objects compare as equal exactly when they are the same map |
| `OpenSet.OpenSet.Probe` | ast/term.go:1726-1733 | finds the element, or the free slot it belongs in, around the end of the word range too |
| `OpenSet.OpenSet.Insert` | ast/term.go:1646-1744 | adds the element once, leaves no gap in any probe chain, and keeps the cached hash |
| `OpenSet.OpenSet.Get` | ast/term.go:1746-1835 | finds exactly the elements that were added |
| `OpenSet.OpenSet.SortedKeys` | ast/term.go:1469-1474 | sorts the keys and changes nothing else that can be observed |
| `OpenSet.OpenSet.CompareTo` | ast/term.go:1478-1488 | zero exactly for sets with the same elements, which then have the same hash |
| `OpenSet.NewSet` | ast/term.go:1394-1400 | for every insertion sequence the set holds exactly what was added |
| `OpenSet.PassedMeansAbsent` | ast/term.go:1726-1733 | an element that a probe passes by up to a free slot is nowhere in the table |
| `OpenSet.ProbeEnds` | ast/term.go:1726-1733 | in a table that is not full every probe ends |
| `OpenSet.SumHashByMembers` | ast/term.go:1742 | the cached hash does not depend on the order of insertion, with wrap-around |
| `OpenSet.OrderIrrelevant` | ast/term.go:1469-1474 | hash and sorted keys are determined by the elements |
| `LazyObjects.LazyObject.Force` | ast/term.go:1882-1891 | gives the strict object, and the cache may be dropped |
| `LazyObjects.LazyObject.Get` | ast/term.go:1964-1986 | denotes what the strict object has for the key |
| `LazyObjects.LazyObject.Find` | ast/term.go:2029-2054 | denotes what the strict object has at the path, through nested lazy objects |
| `LazyObjects.LazyObject.Keys` | ast/term.go:2000-2010 | the ordered keys of the strict object |
| `LazyObjects.LazyObject.Len` | ast/term.go:1950-1952 | the size of the strict object |
| `LazyObjects.LazyObject.CompareTo` | ast/term.go:1893-1902 | compares as the strict object, with a strict or a lazy value |
| `LazyObjects.AskAll` | ast/term.go:1872-2054 | any sequence of questions, each to the object or to the object in an earlier answer, is answered as by the strict object and the objects in its answers |
| `LazyObjects.OneRun` | ast/term.go:1872-2054 | the strict object has only one sequence of answers to such questions, so lazy and strict objects cannot be told apart |
| `LazyObjects.OneAnswer` | ast/term.go:1872-2054 | each question has one answer |
| `Merging.Merge` | ast/term.go:2297-2345 | the loops compute the recursive merge, and fail where it fails |
| `Merging.MergePointwise` | ast/term.go:2317-2345 | merging works key by key and fails exactly when some key clashes |
| `Merging.MergeCommutes` | ast/term.go:2297-2345 | both orders succeed together and give equal results |
| `Merging.MergeAssociates` | ast/term.go:2297-2345 | both groupings succeed together and give equal results |
| `Merging.MergeIdentity` | ast/term.go:2297-2345 | the empty object is neutral on both sides |
| `RootPaths.JoinSplit` | bundle/bundle.go:1535-1537 | splitting a path loses nothing |
| `RootPaths.RootContains` | bundle/bundle.go:1539-1556 | prefix of segments, with the empty root containing everything |
| `RootPaths.RootPathsOverlap` | bundle/bundle.go:1517-1522 | true exactly for roots whose areas are comparable |
| `RootPaths.RootPathsContain` | bundle/bundle.go:1524-1533 | true exactly if some root's area contains the path |
| `RootPaths.OverlapsIffShared` | bundle/bundle.go:1517-1522 | roots overlap exactly when some path lies in both areas |
| `RootPaths.RootsCollide` | bundle/store.go:907-914 | two lists of roots collide exactly if some root of the one overlaps some root of the other |
| `RootPaths.StorageExact` | storage/path.go:35-46 | a root is stored where it says exactly if each segment has no percent sign or a malformed escape |
| `RootPaths.StorageOverlap` | storage/path.go:35-46 | overlapping roots are stored at comparable paths, and among roots that are stored where they say only those |
| `RootPaths.EscapedRootsCollide` | storage/path.go:35-46 | two roots that share a storage path and do not overlap |
| `RootPaths.PatchExact` | internal/json/patch/patch.go:18-45 | every patch that a root admits lands in its area exactly if the root decodes to itself |
| `RootPaths.PatchInside` | internal/json/patch/patch.go:18-45 | whatever the segments of such a patch escape |
| `RootPaths.EscapedPatchLeaves` | internal/json/patch/patch.go:18-45 | a patch admitted by the root `a~1b` lands outside it |
| `Documents.WriteTouches` | storage/inmem/txn.go:277-362 | writing at or below a path that no array shadows changes nothing apart from that path |
| `Documents.RemoveGone` | storage/inmem/txn.go:277-362 | a removal takes effect, and fails only where there is nothing |
| `Documents.AddFound` | storage/inmem/txn.go:277-362 | what was added is found again |
| `Documents.RemoveKeeps` | storage/inmem/txn.go:277-362 | a removal puts no array above any path, and nothing where nothing was |
| `Documents.MakeDirTouches` | storage/storage.go:54-82 | making directories changes nothing apart from the path they lead to |
| `Documents.PlaceDone` | storage/storage.go:54-82 | making the directory and adding a value succeeds where nothing but objects is in the way |
| `Regions.EraseStep` | bundle/store.go:622-636 | removing the paths of a region in any order keeps what lies off it |
| `Regions.EraseEnd` | bundle/store.go:622-636 | and leaves the region empty |
| `Regions.ClearingStep` | bundle/store.go:622-636 | where no array lies above the paths, no removal fails except by finding nothing, and only what was there is removed |
| `Regions.PlaceValue` | bundle/store.go:742-760 | making the directory and adding a value puts it there and touches nothing else |
| `Bundles.OneOwner` | bundle/store.go:875-926 | with disjoint roots every path has at most one owning bundle |
| `Bundles.CanErase` | bundle/store.go:341-372 | where every value has an owner, the roots of whole bundles can be erased without disturbing others |
| `Bundles.DisjointAfter` | bundle/store.go:875-926 | the collision check keeps the roots of differently named bundles disjoint |
| `Bundles.PatchTouches` | bundle/store.go:928-967 | a patch inside a root touches only what lies below any path above that root that no array shadows |
| `PatchLocality.PatchesSameAt` | bundle/store.go:928-967 | whether a bundle's patches apply, and what they leave at its roots, depends only on what is stored at its roots |
| `DeltaPatching.AloneStep` | bundle/store.go:563-578 | the deltas before it change neither whether a delta applies nor what it leaves at its roots |
| `DeltaPatching.DeltasIndependent` | bundle/store.go:534-586 | on a good store spared deltas cannot get in each other's way |
| `Regions.WorkOn` | bundle/store.go:341-485 | any change at or below an outermost path of a region stays in the region, and leaves further changes there possible |
| `Activation.ConcernedErasable` | bundle/store.go:341-372 | where every value has an owner, no array of another bundle lies above a root that the bundles of a batch have or had |
| `SnapshotFilling.SnapshotRootVacant` | bundle/store.go:387-395 | after the erasure nothing is left at a snapshot's roots, whatever the deltas of the batch have put there |
| `SnapshotFilling.SnapshotRootFree` | bundle/store.go:387-395 | and nothing but objects lies above them, so they can be written |
| `ActivationResult.OwnedAfterActivation` | bundle/store.go:341-485 | patching, erasing and filling together keep every value owned, for every batch |
| `ActivationResult.ActivationFrame` | bundle/store.go:341-485 | what is confined to the roots that the bundles of a batch have and had leaves every other bundle alone |
| `ActivationResult.DeltaFrame` | bundle/store.go:341-485 | erasing and writing the snapshots leaves the areas of spared deltas as patched |
| `ActivationResult.Losses` | bundle/store.go:341-485 | nothing is left where a delta's area overlaps a root that a snapshot of the batch had before |
| `ActivationResult.KeptExactly` | bundle/store.go:341-485 | where no array is in the way, the areas of the deltas are kept exactly if nothing in them is erased |
| `ActivationResult.UnnestedOrderly` | bundle/store.go:341-372 | on a good store with spared deltas no array is in the way if no root to be erased lies below another |
| `Activation.SystemApart` | bundle/store.go:24-31 | changes below roots outside the system area leave it alone |
| `ActivationResult.EmptiedExactly` | bundle/store.go:326-339 | a deactivation empties a root exactly when it is not the empty one, or nothing was stored |
| `ActivationResult.FinishDeactivation` | bundle/store.go:326-339 | nothing is left in the areas of deactivated bundles, and nothing else changed |
| `BundleStore.Lookup` | bundle/store.go:856-873 | the value at a path through objects only |
| `BundleStore.Store.EraseData` | bundle/store.go:622-636 | in any order, stays in every region that includes the roots, and empties the outermost paths of it that are roots; the empty root is passed over; succeeds, and removes only what was there, if no array lies above a root |
| `BundleStore.Store.ErasePolicies` | bundle/store.go:638-676 | keeps exactly the policies outside the roots, and fails exactly if some policy does not parse |
| `BundleStore.Store.WriteData` | bundle/store.go:742-760 | the roots hold what the bundle has there, and nothing else changed; with the empty root the whole document is replaced; succeeds if nothing but objects lies above the roots |
| `BundleStore.Store.ApplyPatches` | bundle/store.go:928-967 | applies the patches in order and fails at the first that fails; patches inside the roots stay in every region that includes the roots |
| `BundleStore.Store.HasRootsOverlap` | bundle/store.go:875-926 | reports an overlap exactly if the new roots of one bundle overlap those of another, recorded or new |
| `BundleStore.Store.CheckDeltas` | bundle/store.go:534-561 | accepts exactly the deltas that keep recorded roots and resolvers, and those of unrecorded bundles |
| `BundleStore.Store.PatchAll` | bundle/store.go:563-578 | applies the patches of every delta, bundle by bundle in some order; deltas that cannot get in each other's way succeed exactly if each does alone, and leave what each leaves alone |
| `BundleStore.Store.ActivateDeltas` | bundle/store.go:534-586 | so it does after the check, and records the manifests |
| `BundleStore.Store.EraseBundles` | bundle/store.go:590-620 | clears data and policies under the roots and forgets the manifests |
| `BundleStore.Store.WriteDataAndModules` | bundle/store.go:702-740 | every snapshot's data is at its roots and its modules are among the policies |
| `BundleStore.Store.ReplaceSnapshots` | bundle/store.go:387-468 | the old contents of the snapshots' roots are erased and the new ones written, for any batch; if no array is in the way this succeeds exactly if policies parse and the checks pass |
| `BundleStore.Store.Activate` | bundle/store.go:341-485 | a successful activation of any batch keeps every value owned, puts the snapshots' data in place exactly, leaves other bundles' data, the system area and the other manifests unchanged, and leaves in the area of each spared delta what its patches alone make of the original document; on a good store where nothing is in the way it succeeds exactly if roots do not collide, deltas keep roots and resolvers, patches apply, policies parse and the checks pass |
| `BundleStore.Store.Deactivate` | bundle/store.go:326-339 | removes manifests, policies and all data in the bundles' areas, and nothing of other bundles; a root is emptied exactly when it is not the empty one, or nothing was stored; on a good store it succeeds exactly if policies parse |
| `BundleStore.Store.Transact` | storage/storage.go:88-101 | a failing request changes nothing; a successful one keeps the recorded roots disjoint, for bundles with roots outside the system area |
| `BundleStore.Store.Run` | bundle/store.go:308-485 | over every run of activations and deactivations of such bundles roots stay disjoint and every value keeps an owner |
| `BundleFrames.PoliciesUntouched` | bundle/store.go:638-676 | policies of bundles outside the batch survive, unless a new module takes their id |
| `BundleFrames.PoliciesReplaced` | bundle/store.go:702-740 | after a snapshot activation the policies in the bundle's area are modules of the batch |
| `BundleFrames.PoliciesGone` | bundle/store.go:638-676 | after a deactivation no policy is left in the bundle's area |
| `BundleFrames.WholeDocumentStays` | bundle/store.go:326-339 | deactivating a bundle with the empty root succeeds and leaves the document as it was |
| `BundleFrames.SystemRootErases` | bundle/store.go:24-31 | the root `system` takes in all manifests, and erasing it removes them |
| `BundleFrames.NestedRootsByOrder` | storage/inmem/txn.go:277-362 | a document from which the roots `a` and `a/1` can be erased in one order and not in the other |
| `BundleFrames.ArrayNeighbourMoves` | storage/inmem/txn.go:322-326 | erasing one element of an array moves the next into the other root |
| `BundleFrames.SparesDeltasExactly` | bundle/store.go:341-395 | the erasure spares the deltas of a batch exactly when they stay clear of roots that its snapshots had before |
| `BundleFrames.LostExactly` | bundle/store.go:341-395 | in a root that a snapshot of the batch had before, a delta's area is kept exactly when its patches left nothing there |
| `BundleFrames.MovedRootErasesDelta` | bundle/store.go:341-395 | a batch that passes the collision check and after which what a delta's patches put at its root is gone |
| `BundleReader.ValidateAndInjectDefaults` | bundle/bundle.go:319-405 | trims the roots and accepts a bundle exactly when roots, packages, resolvers, patches and data are permitted |
| `BundleReader.CheckData` | bundle/bundle.go:387-405 | the walk accepts exactly the permitted data |
| `BundleReader.CheckResolvers` | bundle/bundle.go:351-377 | resolvers name existing modules and distinct entrypoints inside the roots |
| `BundleReader.ValuesPermitted` | bundle/bundle.go:387-405 | an accepted value that is not an object lies in the area of a root, if the keys down to the first path inside the roots are plain |
| `BundleReader.AcceptedDataStored` | bundle/store.go:742-760 | on activation every such value of an accepted bundle is stored |
| `BundleReader.StoredExactly` | bundle/store.go:742-760 | a value is stored exactly when its path of keys lies in the area of a root |
| `BundleReader.SlashedKeyLost` | bundle/bundle.go:387-405 | data with the key `a/b` is accepted for the root `a/b`, and its value is never stored |

## Left out

- Closures in the safety and flattening claims, and `every` and `with` modifiers in renaming and flattening.
- ReorderBodyForSafety: bodies are closure-free; the treatment of variables that closures need, which overwrites what else an expression lacks, is not modelled.
- FlattenedIsFlat: what lies inside comprehensions is not looked at; the code flattens their bodies in place.
- BodyCallsLifted: as for `FlattenedIsFlat`.
- `some x in xs` and `every` declarations in renaming, and the checks for unused variables: they only add cases and errors.
- Type checking, parsing, printing, annotations, metrics, source locations and JSON marshalling: plumbing around the modelled code.
- Glob patterns in the index (`glob.match` entries and mappers): their matching is an external library's.
- The index's default rule, kind and ground-reference flags, and resolver errors other than an unknown document: copied through unchanged.
- In-place update of the index trie, the rule tree and rewritten terms: they are values that the operations rebuild, so sharing between nodes is not captured.
- Tree keys that are arrays, objects or sets: Go compares them by address.
- CompareValues: no comprehensions, rules and modules, and no numbers other than integers; comparison of the former follows the same scheme, of the latter needs rational arithmetic.
- Objects as hash tables: the table is the same as that of sets.
- Insertion into lazy objects: it leaves the native map and the strict object different.
- Transactions of the store as lists of pending updates, lazy bundle loading, etags, wasm modules and the unnamed legacy manifest: the store is modelled by what reads return after each write.
- Manifests as documents under `/system/bundles`: they are a separate map, so roots in the system area are excluded from the claims about manifests and data.
- ApplyPatches: a replace or remove of a value added earlier in the same transaction succeeds here; the store checks it against the committed document, and fails.
- Activate: the claims about data and manifests are for roots that are not empty, are stored where they say and do not lie in the system area, and for deltas also decode to themselves (see `StorageExact`, `PatchExact`, `SystemRootErases` and `EmptiedExactly`); so for `Deactivate`, `Transact` and `Run`. The success condition is for batches in whose way nothing is (`Orderly`); for others success can depend on the order.
- Sort orders of the index's references and of rule tree children: nothing depends on them.
- FlattenPreserves: expressions are not negated and have no modifiers, because the code changes the meaning of negated ones (see `NegatedExact`).
- LiftEval: terms contain no comprehensions, as in the other claims about the meaning of flattening.
- UnifyDetermines: variables below sets, calls, references and object keys must be safe, and keys must not coincide. For sets and keys the code does report variables that are not determined (see `SetEquationExact`, `NestedSetUndetermined`, `KeyedObjectUndetermined`, `CoincidingKeysUndetermined`); for calls and references the condition is what makes their value known.
- The order in which the index reports rules of different chains: the claims are about which rules are reported and about the order within a chain.
- ReorderFindsSafeOrder: bodies have no two equal expressions; `ReorderWithTwins` and `TwinsExact` are the statements without that condition, also for `ReorderComplete` and `ReorderExact`.
- RenamesByScope: keys of assigned objects contain no comprehensions, because the code does not descend into them.
- OpenSet.OpenSet.Insert: requires a table with a free slot, because the code would search a full one forever; the groundness flag is not modelled.
- SetEquationExact: the exact condition is for an equation between a variable and a set of variables; for sets and keys inside other terms there are the two inputs above.
