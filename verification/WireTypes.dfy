/** The canonical wire types shared by artifacts and Providers, viewed as a head and a list of
    component types. */
module WireTypes {

  datatype DataEffect = Read | Mut | Take

  datatype WireQualifier = Fresh | Owned | NoEscape

  datatype Package = NoPackage | Package(name: string)

  datatype WireType =
    | Unit
    | Bool
    | Int(bits: nat, signed: bool)
    | Float(bits: nat)
    | String
    | Char
    | Bytes
    | List(element: WireType)
    | Map(key: WireType, value: WireType)
    | Option(value: WireType)
    | Result(ok: WireType, error: WireType)
    | Tuple(elements: seq<WireType>)
    | Named(package: Package, name: string, arguments: seq<WireType>)
    | Resource(name: string)
    | Handle(name: string)
    | Function(parameters: seq<WireType>, effects: seq<DataEffect>, result: WireType)
    | Qualified(qualifier: WireQualifier, value: WireType)

  /** The component types, in the order every traversal visits them. */
  function Components(ty: WireType): (cs: seq<WireType>)
    ensures forall i :: 0 <= i < |cs| ==> cs[i] < ty
  {
    match ty
    case List(element) => [element]
    case Map(key, value) => [key, value]
    case Option(value) => [value]
    case Result(ok, error) => [ok, error]
    case Tuple(elements) => elements
    case Named(_, _, arguments) => arguments
    case Function(parameters, _, result) => parameters + [result]
    case Qualified(_, value) => [value]
    case _ => []
  }

  /** The type with the same head and the given components. */
  function Rebuild(ty: WireType, cs: seq<WireType>): (r: WireType)
    requires |cs| == |Components(ty)|
    ensures Components(r) == cs && SameHead(ty, r)
  {
    match ty
    case List(_) => List(cs[0])
    case Map(_, _) => Map(cs[0], cs[1])
    case Option(_) => Option(cs[0])
    case Result(_, _) => Result(cs[0], cs[1])
    case Tuple(_) => Tuple(cs)
    case Named(package, name, _) => Named(package, name, cs)
    case Function(_, effects, _) => Function(cs[..|cs| - 1], effects, cs[|cs| - 1])
    case Qualified(qualifier, _) => Qualified(qualifier, cs[0])
    case _ => ty
  }

  /** Equal constructors, equal non-type data and equally many components. */
  predicate SameHead(a: WireType, b: WireType) {
    && |Components(a)| == |Components(b)|
    && match (a, b)
       case (List(_), List(_)) => true
       case (Map(_, _), Map(_, _)) => true
       case (Option(_), Option(_)) => true
       case (Result(_, _), Result(_, _)) => true
       case (Tuple(_), Tuple(_)) => true
       case (Named(p, n, _), Named(q, m, _)) => p == q && n == m
       case (Function(_, e, _), Function(_, f, _)) => e == f
       case (Qualified(q, _), Qualified(r, _)) => q == r
       case _ => a == b
  }

  lemma HeadAndComponentsDetermine(a: WireType, b: WireType)
    requires SameHead(a, b) && Components(a) == Components(b)
    ensures a == b
  {
    if a.Function? {
      assert a.parameters == Components(a)[..|a.parameters|] && b.parameters == Components(b)[..|b.parameters|];
    }
  }

  /** `wire_type_contains`. */
  predicate Contains(ty: WireType, needle: WireType)
    decreases ty
  {
    ty == needle || exists i :: 0 <= i < |Components(ty)| && Contains(Components(ty)[i], needle)
  }

  /** `strip_qualifiers`: the type under all top-level qualifiers. */
  function Strip(ty: WireType): (r: WireType)
    ensures !r.Qualified?
  {
    if ty.Qualified? then Strip(ty.value) else ty
  }
}
