/**
 * Method descriptions: the three things the inline matcher asks of a method, namely
 * whether it is reported virtual, its modifier bits, and the type that declares it.
 */
module Methods {
  import opened Types

  /** The JVM access flag that marks a method final. */
  const ACC_FINAL: bv32 := 0x0010

  datatype MethodDescription = MethodDescription(
    isVirtual: bool,
    modifiers: bv32,
    declaringType: TypeDescription)
  {
    /** Finality is read from the modifier bits, independently of isVirtual. */
    predicate IsFinal() {
      modifiers & ACC_FINAL != 0
    }

    /** An inherited method can only be overridden when it is virtual and its
        modifiers do not mark it final: both signals must agree. */
    predicate IsOverridable() {
      isVirtual && !IsFinal()
    }
  }

  /** A filter supplied by the caller, such as the ignored or the predefined methods. */
  type MethodFilter = MethodDescription -> bool
}
