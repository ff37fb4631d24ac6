# Inline implementation matcher

A model of `InliningImplementationMatcher`, the latent method matcher Byte Buddy uses when it
redefines a type in place (inline redefinition) instead of generating a subclass. The matcher
is built from two caller-supplied method filters, the *ignored* methods and the *predefined*
methods. Resolving it against the type being redefined yields a matcher that decides, for each
method of that type's hierarchy, whether the method is selected for new instrumentation.

The implementation class is not part of this model; its behaviour is the one fixed by the unit
test `InlineImplementationMatcherTest`, whose six scenarios and set-up wiring the model follows.
The decision rule below is consistent with all six scenarios. Its `isVirtual` check on
inherited methods is not fixed by any scenario: it encodes the rule that only an overridable
(virtual and non-final) inherited method can be given a new implementation in the redefined
type, so an inherited method must be both before it is selected:

    matches(m) = !predefined(m) && (erasure(declaringType(m)) == erasure(target)
                                    || (isVirtual(m) && !final(modifiers(m)) && !ignored(m)))

- `types.dfy` (module `Types`): type descriptions, either an erased type or a generic view that
  carries type arguments and the type it erases to; `AsErasure`, `AsGenericType`, `GetSort`.
- `methods.dfy` (module `Methods`): method descriptions (`isVirtual`, 32-bit modifiers, declaring
  type), the `ACC_FINAL` bit (0x0010), and filters as total functions from methods to `bool`.
- `inlining.dfy` (module `Inlining`): the matcher value, `Resolve`, the resolved matcher's
  `Matches`, and the general properties of the rule.
- `inlining_test.dfy` (module `InliningScenarios`): the test's set-up wiring and its six scenarios,
  each a lemma about every matcher whose filters answer as the scenario stubs them.

## Model

| member | source | states |
|---|---|---|
| `Types.AsErasure` | byte-buddy-dep/src/test/java/net/bytebuddy/dynamic/scaffold/inline/InlineImplementationMatcherTest.java:44-50 | the erasure of any description is an erased, non-generic type, and an erased type is its own erasure |
| `Types.GetSort` | byte-buddy-dep/src/test/java/net/bytebuddy/dynamic/scaffold/inline/InlineImplementationMatcherTest.java:44-49 | erased types and generic views without type arguments are `NonGeneric`; a generic view with type arguments is `Parameterized` |
| `Types.AsGenericType` | byte-buddy-dep/src/test/java/net/bytebuddy/dynamic/scaffold/inline/InlineImplementationMatcherTest.java:44-50 | the generic form of a type is a generic view with the same erasure and the same sort; for an erased type it has no type arguments |
| `Types.GenericFormErasesToOriginal` | byte-buddy-dep/src/test/java/net/bytebuddy/dynamic/scaffold/inline/InlineImplementationMatcherTest.java:44-50 | the generic form of an erased type erases back to that type and is non-generic |
| `Inlining.InliningImplementationMatcher.Resolve` | byte-buddy-dep/src/test/java/net/bytebuddy/dynamic/scaffold/inline/InlineImplementationMatcherTest.java:43-60 | resolution keeps both filters and binds the matcher to the erasure of the target type |
| `Inlining.ResolvedMatcher.Matches` | byte-buddy-dep/src/test/java/net/bytebuddy/dynamic/scaffold/inline/InlineImplementationMatcherTest.java:53-111 | a predefined method is never selected; a method declared on the target is selected; an inherited method is selected exactly when it is virtual, its modifiers lack ACC_FINAL and it is not ignored |
| `Inlining.MatchesIffSelectionRule` | byte-buddy-dep/src/test/java/net/bytebuddy/dynamic/scaffold/inline/InlineImplementationMatcherTest.java:53-111 | the resolved matcher selects a method if and only if the single boolean rule above holds |
| `Inlining.PredefinedDominates` | byte-buddy-dep/src/test/java/net/bytebuddy/dynamic/scaffold/inline/InlineImplementationMatcherTest.java:93-101 | a method the predefined filter accepts is never selected, whatever its declaring type, virtuality, finality or ignored status |
| `Inlining.DeclaredOnTargetSelected` | byte-buddy-dep/src/test/java/net/bytebuddy/dynamic/scaffold/inline/InlineImplementationMatcherTest.java:73-91 | a non-predefined method declared on the target is selected regardless of the ignored filter, virtuality and finality |
| `Inlining.DeclaredOnTargetIgnoresFilterAndModifiers` | byte-buddy-dep/src/test/java/net/bytebuddy/dynamic/scaffold/inline/InlineImplementationMatcherTest.java:73-91 | for methods declared on the target, changing the ignored filter or the method's virtuality and modifiers never changes the verdict |
| `Inlining.InheritedNeedsOverridable` | byte-buddy-dep/src/test/java/net/bytebuddy/dynamic/scaffold/inline/InlineImplementationMatcherTest.java:53-111 | a non-predefined inherited method is selected if and only if it is virtual, not final and not ignored; of this, only the final half (test lines 63-71) and the ignored half (test lines 103-111) are fixed by scenarios, the virtual half is the overridability rule stated above the decision rule |
| `Inlining.FinalBlocksInherited` | byte-buddy-dep/src/test/java/net/bytebuddy/dynamic/scaffold/inline/InlineImplementationMatcherTest.java:63-71 | an inherited method with the final bit set is not selected even though it reports itself virtual |
| `Inlining.ResolveThroughErasure` | byte-buddy-dep/src/test/java/net/bytebuddy/dynamic/scaffold/inline/InlineImplementationMatcherTest.java:44-50 | two target descriptions with the same erasure resolve to the same matcher and classify every method alike |
| `Inlining.GenericTargetSameClassification` | byte-buddy-dep/src/test/java/net/bytebuddy/dynamic/scaffold/inline/InlineImplementationMatcherTest.java:44-60 | resolving against a type's generic form classifies every method as resolving against the type does |
| `Inlining.DeclaringTypeComparedByErasure` | byte-buddy-dep/src/test/java/net/bytebuddy/dynamic/scaffold/inline/InlineImplementationMatcherTest.java:44-59 | a method is on the same side of the declared/inherited split whether its declaring type is given raw or in generic form |
| `Inlining.MatcherIsValue` | byte-buddy-dep/src/test/java/net/bytebuddy/dynamic/scaffold/inline/InlineImplementationMatcherTest.java:113-116 | two matchers are equal exactly when their two filters are equal, and equal matchers resolve equally |
| `InliningScenarios.SetUpWiring` | byte-buddy-dep/src/test/java/net/bytebuddy/dynamic/scaffold/inline/InlineImplementationMatcherTest.java:41-51 | both types are non-generic, their generic forms are non-generic and erase back to them, and the two types have different erasures |
| `InliningScenarios.MatchesVirtual` | byte-buddy-dep/src/test/java/net/bytebuddy/dynamic/scaffold/inline/InlineImplementationMatcherTest.java:53-61 | an inherited virtual method with modifiers 0, neither ignored nor predefined, is selected |
| `InliningScenarios.NotMatchesVirtualAndFinal` | byte-buddy-dep/src/test/java/net/bytebuddy/dynamic/scaffold/inline/InlineImplementationMatcherTest.java:63-71 | an inherited method reported virtual but with ACC_FINAL set is not selected |
| `InliningScenarios.MatchesDeclaredNotTargetType` | byte-buddy-dep/src/test/java/net/bytebuddy/dynamic/scaffold/inline/InlineImplementationMatcherTest.java:73-81 | a non-virtual final method declared on the target, neither ignored nor predefined, is selected |
| `InliningScenarios.MatchesDeclaredButIgnoredNotPredefined` | byte-buddy-dep/src/test/java/net/bytebuddy/dynamic/scaffold/inline/InlineImplementationMatcherTest.java:83-91 | a method declared on the target is selected even though the ignored filter accepts it |
| `InliningScenarios.MatchesDeclaredButIgnoredPredefined` | byte-buddy-dep/src/test/java/net/bytebuddy/dynamic/scaffold/inline/InlineImplementationMatcherTest.java:93-101 | a method declared on the target that the predefined filter accepts is not selected |
| `InliningScenarios.NotMatchesOverridableIgnored` | byte-buddy-dep/src/test/java/net/bytebuddy/dynamic/scaffold/inline/InlineImplementationMatcherTest.java:103-111 | an inherited virtual non-final method that the ignored filter accepts is not selected |

## Left out

- The implementation of `InliningImplementationMatcher` is not part of this model, and neither is
  any factory that builds the predefined-methods filter from a type's declared methods. The rule
  is consistent with the six scenarios, but no scenario fixes the verdict on these inputs, where
  an implementation may differ from the model: (a) inherited methods that are non-virtual and
  non-final, which the model rejects because they are not overridable; (b) predefined methods that
  are not ignored, whether declared on the target or inherited and overridable, which the model
  rejects because predefined methods are always excluded.
- Method descriptions keep only what the matcher reads (virtuality, modifiers, declaring type);
  a method's name and descriptor are not modelled, so two methods that agree on those three
  are one value and no filter can tell them apart.
- The ignored and predefined policies are arbitrary caller-supplied functions; no concrete
  policy (by name, by annotation) is modelled.
- Type descriptions keep only what the matcher needs: the erased/generic distinction, type
  arguments and the sort tag. Type variables, wildcards, generic arrays, supertype walking and
  generic signature resolution are not modelled.
- Of the JVM access flags only ACC_FINAL (0x0010) is modelled; how the other modifier bits
  determine whether a method is virtual is left to the method description, which reports it.
- The test's mocking and lifecycle machinery, and the reflective equals/hashCode/toString check,
  which is modelled as equality of the matcher datatype only.
- The bytecode emission that consumes the matcher's verdict, and null filters (absent filters
  cannot be expressed: a filter is always a total function).
