/**
 * The PROXY protocol setting of an endpoint: the three enum constants and the
 * version number each one carries.
 */
module ProxyProtos {

  /** `ProxyProto`, with its constants in declaration order. */
  datatype ProxyProto = None | V1 | V2

  /** The constants as Java's `values()` lists them. */
  const Declared: seq<ProxyProto> := [None, V1, V2]

  /** The `version` field (and `version()` getter): the number given to the constant's constructor. */
  function Version(p: ProxyProto): (v: int)
    ensures 0 <= v <= 2
    ensures v == 0 <==> p.None?
  {
    match p
    case None => 0
    case V1 => 1
    case V2 => 2
  }

  /** Every constant is declared exactly once. */
  lemma DeclaredOnce(p: ProxyProto)
    ensures p in Declared
    ensures forall i, j :: 0 <= i < j < |Declared| ==> Declared[i] != Declared[j]
  {
  }

  /** Each constant's version is its position in the declaration, so None is 0, V1 is 1 and V2 is 2. */
  lemma VersionIsDeclarationIndex()
    ensures forall i :: 0 <= i < |Declared| ==> Version(Declared[i]) == i
  {
  }

  /** Distinct constants carry distinct versions. */
  lemma VersionInjective(p: ProxyProto, q: ProxyProto)
    ensures Version(p) == Version(q) ==> p == q
  {
  }

  /** Declaration order and version order agree. */
  lemma DeclarationOrderIsVersionOrder()
    ensures forall i, j :: 0 <= i < j < |Declared| ==> Version(Declared[i]) < Version(Declared[j])
  {
    VersionIsDeclarationIndex();
  }
}
