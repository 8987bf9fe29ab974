/**
 * The three mutation policies of StateMutationPolicy.java.
 *
 * A Java object reference is modelled as an `Obj`: an identity (what `==`
 * compares) together with the content that `equals` compares. A nullable
 * reference is an `Option<Obj<C>>`, with `None` for `null`.
 */
module Policies {
  import opened Support

  datatype Obj<C> = Obj(id: nat, content: C)

  type Value<C> = Option<Obj<C>>

  /** The built-in policies; each is stateless, so a tag is all it is. */
  datatype MutationPolicy = ReferenceEquality | StructuralEquality | NeverEqual

  /** Java's `a == b` on references: both null, or the same identity. */
  predicate SameReference<C>(a: Value<C>, b: Value<C>)
  {
    match (a, b)
    case (None, None) => true
    case (Some(x), Some(y)) => x.id == y.id
    case _ => false
  }

  /** `Objects.equals(a, b)`: both null, or both present and `equals`. */
  predicate ObjectsEquals<C(==)>(a: Value<C>, b: Value<C>)
  {
    match (a, b)
    case (None, None) => true
    case (Some(x), Some(y)) => x.content == y.content
    case _ => false
  }

  /**
   * A well-formed pair of references: one identity never carries two
   * different contents.
   */
  predicate Consistent<C(==)>(a: Value<C>, b: Value<C>)
  {
    a.Some? && b.Some? && a.value.id == b.value.id ==> a.value.content == b.value.content
  }

  /** `shouldMutate(current, next)` of each policy. */
  predicate ShouldMutate<C(==)>(policy: MutationPolicy, current: Value<C>, next: Value<C>)
  {
    match policy
    case ReferenceEquality => !SameReference(current, next)
    case StructuralEquality =>
      if current.None? || next.None? then false
      else current.value.content != next.value.content
    case NeverEqual => true
  }

  /** Reference: a change exactly when the two references differ; null to null is none. */
  lemma ReferenceMutatesIffDistinct<C>(current: Value<C>, next: Value<C>)
    requires Consistent(current, next)
    ensures ShouldMutate(ReferenceEquality, current, next) <==> current != next
    ensures !ShouldMutate<C>(ReferenceEquality, None, None)
  {
  }

  /** Structural: a null on either side is never a change. */
  lemma StructuralNullNeverMutates<C>(current: Value<C>, next: Value<C>)
    requires current.None? || next.None?
    ensures !ShouldMutate(StructuralEquality, current, next)
  {
  }

  /** Structural on two non-null values: a change exactly when they are not `equals`. */
  lemma StructuralMutatesIffNotEqual<C>(current: Obj<C>, next: Obj<C>)
    ensures ShouldMutate(StructuralEquality, Some(current), Some(next))
        <==> !ObjectsEquals(Some(current), Some(next))
  {
  }

  /** NeverEqual: every pair is a change. */
  lemma NeverEqualAlwaysMutates<C>(current: Value<C>, next: Value<C>)
    ensures ShouldMutate(NeverEqual, current, next)
  {
  }

  /**
   * A distinct copy with equal content is a change for Reference and not for
   * Structural.
   */
  lemma StructuralIgnoresCopies<C>(current: Obj<C>, next: Obj<C>)
    requires current.id != next.id && current.content == next.content
    ensures !ShouldMutate(StructuralEquality, Some(current), Some(next))
    ensures ShouldMutate(ReferenceEquality, Some(current), Some(next))
  {
  }

  /**
   * On well-formed references the policies are ordered: whatever Structural
   * accepts Reference accepts, and whatever any policy accepts NeverEqual accepts.
   */
  lemma PoliciesAreOrdered<C>(p: MutationPolicy, current: Value<C>, next: Value<C>)
    requires Consistent(current, next)
    ensures ShouldMutate(StructuralEquality, current, next) ==> ShouldMutate(ReferenceEquality, current, next)
    ensures ShouldMutate(p, current, next) ==> ShouldMutate(NeverEqual, current, next)
  {
  }
}
