/** The tokenised drawing the assembler consumes: entities grouped in blocks,
    each entity tagged with its layer exactly as the drawing spells it. */
module Dxf {

  /** A drawing coordinate. Interning compares coordinates only for exact
      equality, so no rounding is involved. */
  type Coord = real

  datatype Vertex = Vertex(x: Coord, y: Coord)

  /** The type name of an entity kind the assembler does not handle: any
      name but the four it dispatches on. */
  type OtherKind = k: string | k != "TEXT" && k != "LINE" && k != "POLYLINE" && k != "POINT" witness "CIRCLE"

  /** One drawing entity, tagged by its DXF type. `Other` carries the type
      name of every entity kind the assembler does not handle. */
  datatype Entity =
    | Text(layer: string, text: string)
    | Line(layer: string, vertices: seq<Vertex>)
    | Polyline(layer: string, vertices: seq<Vertex>)
    | Point(layer: string, position: Vertex)
    | Other(layer: string, kind: OtherKind)

  /** The entity's `type` field. */
  function TypeName(e: Entity): string {
    match e
    case Text(_, _) => "TEXT"
    case Line(_, _) => "LINE"
    case Polyline(_, _) => "POLYLINE"
    case Point(_, _) => "POINT"
    case Other(_, kind) => kind
  }

  /** The `type` field tells the four handled kinds apart from each other
      and from every other kind. */
  lemma TypeNameIdentifiesKind(e: Entity)
    ensures TypeName(e) == "TEXT" <==> e.Text?
    ensures TypeName(e) == "LINE" <==> e.Line?
    ensures TypeName(e) == "POLYLINE" <==> e.Polyline?
    ensures TypeName(e) == "POINT" <==> e.Point?
  {
  }

  /** A named block: one piece at one size. */
  datatype Block = Block(name: string, entities: seq<Entity>)

  /** The tokenised document: its blocks in key order and its top-level
      entities. */
  datatype Document = Document(blocks: seq<Block>, entities: seq<Entity>)
}
