/**
 * Type descriptions as the inline matcher sees them: a type is either an erased (raw,
 * non-generic) type, or a generic view of a type that carries type arguments and the
 * type it erases to. Declaring types are always compared through their erasure.
 */
module Types {

  /** The sort tag of a type description: a raw type or a parameterized one. */
  datatype Sort = NonGeneric | Parameterized

  datatype TypeDescription =
    | Erased(name: string)
      /** A generic view: its type arguments (none for the view of a non-generic type)
          and the description it erases through. No operation here builds a view over a
          view, but such a description is still a well-formed input: erasure follows the
          chain down to the raw type, so every shape erases to an erased type. */
    | Generic(arguments: seq<TypeDescription>, raw: TypeDescription)

  /** The sort of a description; a generic view without type arguments is non-generic. */
  function GetSort(t: TypeDescription): (r: Sort)
    ensures r == Parameterized <==> t.Generic? && |t.arguments| > 0
  {
    match t
    case Erased(_) => NonGeneric
    case Generic(args, _) => if |args| == 0 then NonGeneric else Parameterized
  }

  /** The raw identity used to decide whether two descriptions denote the same type. */
  function AsErasure(t: TypeDescription): (r: TypeDescription)
    ensures r.Erased?
    ensures GetSort(r) == NonGeneric
    ensures t.Erased? ==> r == t
  {
    match t
    case Erased(_) => t
    case Generic(_, raw) => AsErasure(raw)
  }

  /** The generic view of a type: an erased type is wrapped without type arguments, a
      generic view is already its own generic form. */
  function AsGenericType(t: TypeDescription): (r: TypeDescription)
    ensures r.Generic?
    ensures AsErasure(r) == AsErasure(t)
    ensures GetSort(r) == GetSort(t)
    ensures t.Erased? ==> r.arguments == []
  {
    match t
    case Erased(_) => Generic([], t)
    case Generic(_, _) => t
  }

  /** Taking the generic form of an erased type and erasing it again gives back that type. */
  lemma GenericFormErasesToOriginal(t: TypeDescription)
    requires t.Erased?
    ensures AsErasure(AsGenericType(t)) == t
    ensures GetSort(AsGenericType(t)) == NonGeneric
  {
  }
}
