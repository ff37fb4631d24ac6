/**
 * The latent method matcher of inline type redefinition. It is built from two
 * caller-supplied filters, is resolved against the type being redefined, and the
 * resolved matcher decides for every method of that type's hierarchy whether it is
 * selected for new instrumentation.
 */
module Inlining {
  import opened Types
  import opened Methods

  /** The matcher before it is bound to a target type: a plain value holding the two filters. */
  datatype InliningImplementationMatcher = InliningImplementationMatcher(
    ignoredMethods: MethodFilter,
    predefinedMethods: MethodFilter)
  {
    /** Binds the matcher to the type being redefined, keeping only that type's erasure so
        that declaring types are compared erasure to erasure. */
    function Resolve(instrumentedType: TypeDescription): (r: ResolvedMatcher)
      ensures r.instrumentedType.Erased?
      ensures r.instrumentedType == AsErasure(instrumentedType)
      ensures r.ignoredMethods == ignoredMethods && r.predefinedMethods == predefinedMethods
    {
      ResolvedMatcher(AsErasure(instrumentedType), ignoredMethods, predefinedMethods)
    }
  }

  /** The matcher bound to the erasure of one target type. */
  datatype ResolvedMatcher = ResolvedMatcher(
    instrumentedType: TypeDescription,
    ignoredMethods: MethodFilter,
    predefinedMethods: MethodFilter)
  {
    /** The method is declared by the target type itself rather than inherited. */
    predicate IsDeclaredByTarget(m: MethodDescription) {
      AsErasure(m.declaringType) == instrumentedType
    }

    /** Whether the method is selected for new instrumentation. The three ensures clauses
        cover every method: predefined methods are never selected, a method of the
        target type always is, and an inherited one exactly when it is overridable and
        not ignored. */
    function Matches(m: MethodDescription): (r: bool)
      ensures predefinedMethods(m) ==> !r
      ensures !predefinedMethods(m) && IsDeclaredByTarget(m) ==> r
      ensures !predefinedMethods(m) && !IsDeclaredByTarget(m) ==>
                (r <==> m.isVirtual && !m.IsFinal() && !ignoredMethods(m))
    {
      if predefinedMethods(m) then false
      else if IsDeclaredByTarget(m) then true
      else m.IsOverridable() && !ignoredMethods(m)
    }
  }

  /** The selection rule written as one boolean expression over the original target type. */
  ghost predicate SelectionRule(matcher: InliningImplementationMatcher, target: TypeDescription, m: MethodDescription) {
    && !matcher.predefinedMethods(m)
    && (|| AsErasure(m.declaringType) == AsErasure(target)
        || (m.isVirtual && m.modifiers & ACC_FINAL == 0 && !matcher.ignoredMethods(m)))
  }

  /** The resolved matcher selects exactly the methods the rule selects. */
  lemma MatchesIffSelectionRule(matcher: InliningImplementationMatcher, target: TypeDescription, m: MethodDescription)
    ensures matcher.Resolve(target).Matches(m) <==> SelectionRule(matcher, target, m)
  {
  }

  /** A predefined method is never selected, whatever else holds of it. */
  lemma PredefinedDominates(matcher: InliningImplementationMatcher, target: TypeDescription, m: MethodDescription)
    requires matcher.predefinedMethods(m)
    ensures !matcher.Resolve(target).Matches(m)
  {
  }

  /** A method declared on the target type and not predefined is selected, whether or not
      it is ignored, virtual or final. */
  lemma DeclaredOnTargetSelected(matcher: InliningImplementationMatcher, target: TypeDescription, m: MethodDescription)
    requires !matcher.predefinedMethods(m)
    requires AsErasure(m.declaringType) == AsErasure(target)
    ensures matcher.Resolve(target).Matches(m)
  {
  }

  /** Neither the ignored filter nor the modifiers can change the verdict on a method
      declared on the target type. */
  lemma DeclaredOnTargetIgnoresFilterAndModifiers(
    ignored1: MethodFilter, ignored2: MethodFilter, predefined: MethodFilter,
    target: TypeDescription, m1: MethodDescription, m2: MethodDescription)
    requires AsErasure(m1.declaringType) == AsErasure(target)
    requires m2.declaringType == m1.declaringType
    requires predefined(m1) == predefined(m2)
    ensures InliningImplementationMatcher(ignored1, predefined).Resolve(target).Matches(m1)
        == InliningImplementationMatcher(ignored2, predefined).Resolve(target).Matches(m2)
  {
  }

  /** An inherited method that is not predefined is selected exactly when it is virtual,
      not final, and not ignored. */
  lemma InheritedNeedsOverridable(matcher: InliningImplementationMatcher, target: TypeDescription, m: MethodDescription)
    requires !matcher.predefinedMethods(m)
    requires AsErasure(m.declaringType) != AsErasure(target)
    ensures matcher.Resolve(target).Matches(m)
        <==> m.isVirtual && m.modifiers & ACC_FINAL == 0 && !matcher.ignoredMethods(m)
  {
  }

  /** The final bit excludes an inherited method even when the method reports itself virtual. */
  lemma FinalBlocksInherited(matcher: InliningImplementationMatcher, target: TypeDescription, m: MethodDescription)
    requires m.isVirtual && m.modifiers & ACC_FINAL != 0
    requires AsErasure(m.declaringType) != AsErasure(target)
    ensures !matcher.Resolve(target).Matches(m)
  {
  }

  /** Resolving against any two descriptions of the same erased type, in particular a type
      and its generic form, gives the same resolved matcher. */
  lemma ResolveThroughErasure(matcher: InliningImplementationMatcher, t1: TypeDescription, t2: TypeDescription)
    requires AsErasure(t1) == AsErasure(t2)
    ensures matcher.Resolve(t1) == matcher.Resolve(t2)
    ensures forall m :: matcher.Resolve(t1).Matches(m) == matcher.Resolve(t2).Matches(m)
  {
  }

  /** The generic form of the target classifies every method as the target itself does. */
  lemma GenericTargetSameClassification(matcher: InliningImplementationMatcher, t: TypeDescription, m: MethodDescription)
    ensures matcher.Resolve(AsGenericType(t)).Matches(m) == matcher.Resolve(t).Matches(m)
  {
  }

  /** Whether a method counts as declared on the target depends on the erasure of its
      declaring type only, so a method reporting the generic form of its declaring type
      is placed on the same side of the split. */
  lemma DeclaringTypeComparedByErasure(matcher: InliningImplementationMatcher, target: TypeDescription, m: MethodDescription)
    ensures matcher.Resolve(target).IsDeclaredByTarget(m)
        == matcher.Resolve(target).IsDeclaredByTarget(m.(declaringType := AsGenericType(m.declaringType)))
  {
  }

  /** The matcher is a value: matchers are equal exactly when they hold the same two
      filters, and equal matchers resolve to equal matchers. */
  lemma MatcherIsValue(ignored1: MethodFilter, predefined1: MethodFilter,
                       ignored2: MethodFilter, predefined2: MethodFilter, target: TypeDescription)
    ensures InliningImplementationMatcher(ignored1, predefined1) == InliningImplementationMatcher(ignored2, predefined2)
        <==> ignored1 == ignored2 && predefined1 == predefined2
    ensures ignored1 == ignored2 && predefined1 == predefined2 ==>
              InliningImplementationMatcher(ignored1, predefined1).Resolve(target)
              == InliningImplementationMatcher(ignored2, predefined2).Resolve(target)
  {
  }
}
