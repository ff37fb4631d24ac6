/**
 * The six scenarios that fix the matcher's behaviour, over a target type and one other
 * type wired as in the test set-up: each type's generic form erases back to the type.
 * The filters are arbitrary; each scenario states only what it needs of them.
 */
module InliningScenarios {
  import opened Types
  import opened Methods
  import opened Inlining

  /** The type being redefined and the type that declares the inherited methods. */
  const Target: TypeDescription := Erased("typeDescription")
  const Other: TypeDescription := Erased("otherType")

  /** The set-up's wiring: both types are non-generic, their generic forms are non-generic
      and erase back to them, and the two types have distinct erasures. */
  lemma SetUpWiring()
    ensures GetSort(Target) == NonGeneric && GetSort(Other) == NonGeneric
    ensures GetSort(AsGenericType(Target)) == NonGeneric && GetSort(AsGenericType(Other)) == NonGeneric
    ensures AsErasure(AsGenericType(Target)) == Target
    ensures AsErasure(AsGenericType(Other)) == Other
    ensures AsErasure(Target) != AsErasure(Other)
  {
  }

  /** Inherited, virtual, modifiers 0, neither ignored nor predefined: selected. */
  lemma MatchesVirtual(matcher: InliningImplementationMatcher, m: MethodDescription)
    requires m == MethodDescription(true, 0, Other)
    requires !matcher.ignoredMethods(m) && !matcher.predefinedMethods(m)
    ensures matcher.Resolve(Target).Matches(m)
  {
  }

  /** Inherited, reported virtual but final: not selected. */
  lemma NotMatchesVirtualAndFinal(matcher: InliningImplementationMatcher, m: MethodDescription)
    requires m == MethodDescription(true, ACC_FINAL, Other)
    requires !matcher.ignoredMethods(m) && !matcher.predefinedMethods(m)
    ensures !matcher.Resolve(Target).Matches(m)
  {
  }

  /** Declared on the target, non-virtual and final, neither ignored nor predefined: selected. */
  lemma MatchesDeclaredNotTargetType(matcher: InliningImplementationMatcher, m: MethodDescription)
    requires m == MethodDescription(false, ACC_FINAL, Target)
    requires !matcher.ignoredMethods(m) && !matcher.predefinedMethods(m)
    ensures matcher.Resolve(Target).Matches(m)
  {
  }

  /** Declared on the target and ignored, not predefined: still selected. */
  lemma MatchesDeclaredButIgnoredNotPredefined(matcher: InliningImplementationMatcher, m: MethodDescription)
    requires m == MethodDescription(false, ACC_FINAL, Target)
    requires matcher.ignoredMethods(m) && !matcher.predefinedMethods(m)
    ensures matcher.Resolve(Target).Matches(m)
  {
  }

  /** Declared on the target, ignored and predefined: not selected. */
  lemma MatchesDeclaredButIgnoredPredefined(matcher: InliningImplementationMatcher, m: MethodDescription)
    requires m == MethodDescription(false, ACC_FINAL, Target)
    requires matcher.ignoredMethods(m) && matcher.predefinedMethods(m)
    ensures !matcher.Resolve(Target).Matches(m)
  {
  }

  /** Inherited, virtual and not final, but ignored: not selected. */
  lemma NotMatchesOverridableIgnored(matcher: InliningImplementationMatcher, m: MethodDescription)
    requires m == MethodDescription(true, 0, Other)
    requires matcher.ignoredMethods(m) && !matcher.predefinedMethods(m)
    ensures !matcher.Resolve(Target).Matches(m)
  {
  }
}
