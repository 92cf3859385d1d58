/** Severity-tagged findings collected while a block is assembled. */
module Diagnostics {
  import opened Wrappers
  import opened Dxf

  datatype Severity = Info | Warning | Error

  /** The numeric value of the severity enumeration. */
  function Level(s: Severity): (n: nat)
    ensures 1 <= n <= 3
  {
    match s
    case Info => 1
    case Warning => 2
    case Error => 3
  }

  function SeverityOfLevel(n: nat): Option<Severity> {
    if n == 1 then Some(Info)
    else if n == 2 then Some(Warning)
    else if n == 3 then Some(Error)
    else None
  }

  /** The enumeration is a bijection onto 1, 2, 3, ordered by seriousness. */
  lemma LevelRoundTrip(s: Severity, n: nat)
    ensures SeverityOfLevel(Level(s)) == Some(s)
    ensures SeverityOfLevel(n).Some? <==> 1 <= n <= 3
    ensures SeverityOfLevel(n).Some? ==> Level(SeverityOfLevel(n).value) == n
    ensures Level(Info) < Level(Warning) < Level(Error)
  {
  }

  /** What a diagnostic points at: the offending entity, or the vertex list
      of an offending line. */
  datatype Subject = OfEntity(entity: Entity) | OfVertices(vertices: seq<Vertex>)

  datatype Diagnostic = Diagnostic(severity: Severity, message: string, data: Subject)
}
