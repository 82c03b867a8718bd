/** Generic call instantiation in the typed-facts verifier.

    Unification is compared with substitution. Completeness is unconditional; soundness can
    fail only where a type parameter occurs unsubstituted in the call's own types. */
module Generics {
  import opened WireTypes

  datatype FactType = Unknown | Known(ty: WireType)

  datatype Signature = Signature(parameters: seq<WireType>, result: WireType)

  datatype Substitution = Substitution(parameter: WireType, argument: WireType)

  datatype Call = Call(parameters: seq<FactType>, result: FactType,
                       typeParameters: seq<WireType>, typeArguments: seq<WireType>)

  /** The form of a declared type parameter: a bare unpackaged name. */
  predicate Bare(ty: WireType) {
    ty.Named? && ty.package.NoPackage? && ty.arguments == []
  }

  predicate Declares(sub: seq<Substitution>, ty: WireType) {
    exists i :: 0 <= i < |sub| && sub[i].parameter == ty
  }

  /** The argument of the first entry for `ty`. */
  function Lookup(sub: seq<Substitution>, ty: WireType): (argument: WireType)
    requires Declares(sub, ty)
  {
    if sub[0].parameter == ty then sub[0].argument else
      assert Declares(sub[1..], ty) by {
        var i :| 0 <= i < |sub| && sub[i].parameter == ty;
        assert sub[1..][i - 1] == sub[i];
      }
      Lookup(sub[1..], ty)
  }

  /** `unify_generic_wire_type`. */
  predicate Unify(pattern: WireType, actual: WireType, sub: seq<Substitution>)
    decreases pattern
  {
    if pattern == actual then true
    else if Bare(pattern) then Declares(sub, pattern) && Lookup(sub, pattern) == actual
    else
      && SameHead(pattern, actual)
      && forall i :: 0 <= i < |Components(pattern)| ==> Unify(Components(pattern)[i], Components(actual)[i], sub)
  }

  /** Replace every declared parameter by its argument. */
  function Substitute(sub: seq<Substitution>, ty: WireType): WireType
    decreases ty, 1
  {
    if Bare(ty) then if Declares(sub, ty) then Lookup(sub, ty) else ty
    else Rebuild(ty, SubstituteAll(sub, ty))
  }

  function SubstituteAll(sub: seq<Substitution>, ty: WireType): (cs: seq<WireType>)
    ensures |cs| == |Components(ty)|
    decreases ty, 0
  {
    seq(|Components(ty)|, i requires 0 <= i < |Components(ty)| => Substitute(sub, Components(ty)[i]))
  }

  /** A parameter of `pattern` stands unsubstituted at the same place of `actual`. */
  predicate Kept(sub: seq<Substitution>, pattern: WireType, actual: WireType)
    decreases pattern
  {
    if Bare(pattern) then Declares(sub, pattern) && actual == pattern && Lookup(sub, pattern) != pattern
    else
      && SameHead(pattern, actual)
      && exists i :: 0 <= i < |Components(pattern)| && Kept(sub, Components(pattern)[i], Components(actual)[i])
  }

  /** Away from a bare name, substitution works component by component. */
  lemma SubstituteByComponents(sub: seq<Substitution>, pattern: WireType, actual: WireType)
    requires !Bare(pattern)
    ensures Substitute(sub, pattern) == actual <==>
      && SameHead(pattern, actual)
      && forall i :: 0 <= i < |Components(pattern)| ==> Substitute(sub, Components(pattern)[i]) == Components(actual)[i]
  {
    var parts := SubstituteAll(sub, pattern);
    RebuiltIs(pattern, parts, actual);
    assert forall i :: 0 <= i < |parts| ==> parts[i] == Substitute(sub, Components(pattern)[i]);
  }

  lemma RebuiltIs(pattern: WireType, parts: seq<WireType>, actual: WireType)
    requires |parts| == |Components(pattern)|
    ensures Rebuild(pattern, parts) == actual <==> SameHead(pattern, actual) && parts == Components(actual)
  {
    if SameHead(pattern, actual) && parts == Components(actual) {
      HeadAndComponentsDetermine(Rebuild(pattern, parts), actual);
    }
  }

  /** So does unification, the shortcut for equal types included. */
  lemma UnifyByComponents(sub: seq<Substitution>, pattern: WireType, actual: WireType)
    requires !Bare(pattern)
    ensures Unify(pattern, actual, sub) <==>
      && SameHead(pattern, actual)
      && forall i :: 0 <= i < |Components(pattern)| ==> Unify(Components(pattern)[i], Components(actual)[i], sub)
  {
  }

  /** Unification is substitution, except where it keeps a parameter. */
  lemma {:induction false} UnifyIsSubstitution(sub: seq<Substitution>, pattern: WireType, actual: WireType)
    ensures Substitute(sub, pattern) == actual <==> Unify(pattern, actual, sub) && !Kept(sub, pattern, actual)
    decreases pattern
  {
    if !Bare(pattern) && SameHead(pattern, actual) {
      forall i | 0 <= i < |Components(pattern)|
        ensures var p, a := Components(pattern)[i], Components(actual)[i];
          Substitute(sub, p) == a <==> Unify(p, a, sub) && !Kept(sub, p, a)
      {
        UnifyIsSubstitution(sub, Components(pattern)[i], Components(actual)[i]);
      }
    }
    if !Bare(pattern) {
      SubstituteByComponents(sub, pattern, actual);
      UnifyByComponents(sub, pattern, actual);
    }
  }

  ghost predicate MentionFree(sub: seq<Substitution>, ty: WireType) {
    forall i :: 0 <= i < |sub| ==> !Contains(ty, sub[i].parameter)
  }

  lemma MentionFreeComponent(sub: seq<Substitution>, ty: WireType, j: nat)
    requires MentionFree(sub, ty) && j < |Components(ty)|
    ensures MentionFree(sub, Components(ty)[j])
  {
    forall i | 0 <= i < |sub| ensures !Contains(Components(ty)[j], sub[i].parameter) {
      assert !Contains(ty, sub[i].parameter);
    }
  }

  lemma {:induction false} MentionFreeKeepsNothing(sub: seq<Substitution>, pattern: WireType, actual: WireType)
    requires MentionFree(sub, actual)
    ensures !Kept(sub, pattern, actual)
    decreases pattern
  {
    if !Bare(pattern) && SameHead(pattern, actual) {
      forall j | 0 <= j < |Components(pattern)| ensures !Kept(sub, Components(pattern)[j], Components(actual)[j]) {
        MentionFreeComponent(sub, actual, j);
        MentionFreeKeepsNothing(sub, Components(pattern)[j], Components(actual)[j]);
      }
    }
  }

  // ----- one call -----

  function Substitutions(call: Call): seq<Substitution>
    requires |call.typeParameters| == |call.typeArguments|
  {
    seq(|call.typeParameters|, i requires 0 <= i < |call.typeParameters| =>
      Substitution(call.typeParameters[i], call.typeArguments[i]))
  }

  predicate Distinct(types: seq<WireType>) {
    forall i, j :: 0 <= i < j < |types| ==> types[i] != types[j]
  }

  predicate OccursIn(signature: Signature, parameter: WireType) {
    || (exists i :: 0 <= i < |signature.parameters| && Contains(signature.parameters[i], parameter))
    || Contains(signature.result, parameter)
  }

  predicate UnifyFact(pattern: WireType, actual: FactType, sub: seq<Substitution>) {
    actual.Known? && Unify(pattern, actual.ty, sub)
  }

  function Min(a: nat, b: nat): nat { if a < b then a else b }

  /** What the declared parameters must look like. */
  predicate ParametersOk(call: Call, signature: Signature) {
    && |call.typeParameters| == |call.typeArguments| && call.typeParameters != []
    && (forall p :: p in call.typeParameters ==> Bare(p) && OccursIn(signature, p))
    && Distinct(call.typeParameters)
  }

  /** `verified_generic_instantiation`; the parameter lists are zipped, so a longer one is truncated. */
  predicate VerifiedInstantiation(call: Call, signature: Signature) {
    && ParametersOk(call, signature)
    && (forall i :: 0 <= i < Min(|signature.parameters|, |call.parameters|) ==>
          UnifyFact(signature.parameters[i], call.parameters[i], Substitutions(call)))
    && UnifyFact(signature.result, call.result, Substitutions(call))
  }

  predicate MentionsNone(call: Call, fact: FactType) {
    fact.Known? ==> forall p :: p in call.typeParameters ==> !Contains(fact.ty, p)
  }

  predicate InstanceOf(call: Call, pattern: WireType, fact: FactType)
    requires |call.typeParameters| == |call.typeArguments|
  {
    fact == Known(Substitute(Substitutions(call), pattern))
  }

  /** Somewhere in `fact` a declared parameter of the callee stands unsubstituted. */
  predicate KeepsParameter(call: Call, pattern: WireType, fact: FactType)
    requires |call.typeParameters| == |call.typeArguments|
  {
    fact.Known? && Kept(Substitutions(call), pattern, fact.ty)
  }

  predicate KeepsNone(call: Call, signature: Signature)
    requires |call.typeParameters| == |call.typeArguments| && |call.parameters| == |signature.parameters|
  {
    && (forall i :: 0 <= i < |signature.parameters| ==>
      !KeepsParameter(call, signature.parameters[i], call.parameters[i]))
    && !KeepsParameter(call, signature.result, call.result)
  }

  predicate IsInstance(call: Call, signature: Signature)
    requires |call.typeParameters| == |call.typeArguments| && |call.parameters| == |signature.parameters|
  {
    && (forall i :: 0 <= i < |signature.parameters| ==> InstanceOf(call, signature.parameters[i], call.parameters[i]))
    && InstanceOf(call, signature.result, call.result)
  }

  lemma UnifyFactIsInstance(call: Call, pattern: WireType, fact: FactType)
    requires |call.typeParameters| == |call.typeArguments|
    ensures InstanceOf(call, pattern, fact) <==>
      UnifyFact(pattern, fact, Substitutions(call)) && !KeepsParameter(call, pattern, fact)
  {
    if fact.Known? { UnifyIsSubstitution(Substitutions(call), pattern, fact.ty); }
  }

  /** For every call of the callee's arity: its types are the signature with the arguments substituted in exactly
      when the check accepts it and it keeps no parameter. */
  lemma InstanceIsUnificationKeepingNone(call: Call, signature: Signature)
    requires |call.parameters| == |signature.parameters| && ParametersOk(call, signature)
    ensures IsInstance(call, signature) <==> VerifiedInstantiation(call, signature) && KeepsNone(call, signature)
  {
    UnifyFactIsInstance(call, signature.result, call.result);
    forall i | 0 <= i < |signature.parameters|
      ensures InstanceOf(call, signature.parameters[i], call.parameters[i]) <==>
        && UnifyFact(signature.parameters[i], call.parameters[i], Substitutions(call))
        && !KeepsParameter(call, signature.parameters[i], call.parameters[i])
    {
      UnifyFactIsInstance(call, signature.parameters[i], call.parameters[i]);
    }
  }

  lemma MentionsNoneKeepsNone(call: Call, pattern: WireType, fact: FactType)
    requires |call.typeParameters| == |call.typeArguments| && MentionsNone(call, fact)
    ensures !KeepsParameter(call, pattern, fact)
  {
    if fact.Known? {
      var sub := Substitutions(call);
      forall i | 0 <= i < |sub| ensures !Contains(fact.ty, sub[i].parameter) {
        assert sub[i].parameter == call.typeParameters[i];
      }
      MentionFreeKeepsNothing(sub, pattern, fact.ty);
    }
  }

  /** When the call's types mention no declared parameter, the check accepts exactly the calls whose
      types are the callee signature with the arguments substituted in. */
  lemma InstantiationIsSubstitution(call: Call, signature: Signature)
    requires |call.parameters| == |signature.parameters|
    requires MentionsNone(call, call.result)
    requires forall i :: 0 <= i < |call.parameters| ==> MentionsNone(call, call.parameters[i])
    ensures VerifiedInstantiation(call, signature) <==> ParametersOk(call, signature) && IsInstance(call, signature)
  {
    if ParametersOk(call, signature) {
      InstanceIsUnificationKeepingNone(call, signature);
      MentionsNoneKeepsNone(call, signature.result, call.result);
      forall i | 0 <= i < |signature.parameters|
        ensures !KeepsParameter(call, signature.parameters[i], call.parameters[i])
      {
        MentionsNoneKeepsNone(call, signature.parameters[i], call.parameters[i]);
      }
    }
  }

  /** The hypothesis is needed: `fn id(T) -> T` instantiated at `T := Int` accepts a call typed `T -> T`. */
  lemma MentioningCallIsAcceptedUnsubstituted()
    ensures var t := Named(NoPackage, "T", []);
      var call := Call([Known(t)], Known(t), [t], [Int(64, true)]);
      var signature := Signature([t], t);
      && VerifiedInstantiation(call, signature)
      && !InstanceOf(call, signature.result, call.result)
  {
    var t := Named(NoPackage, "T", []);
    var call := Call([Known(t)], Known(t), [t], [Int(64, true)]);
    assert Substitutions(call)[0].parameter == t;
    assert Declares(Substitutions(call), t);
    assert Contains(t, t);
  }
}
