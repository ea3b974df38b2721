/**
 * The map-data records the core consumes: the `elements` of an Overpass
 * JSON answer. A node carries an id and coordinates; a way carries an id,
 * its ordered node ids and its string tags (an absent `tags` object is the
 * empty map); every other element type is ignored by the core.
 */
module Osm {

  type NodeId = int

  datatype Coord = Coord(lat: real, lon: real)

  type Tags = map<string, string>

  datatype Way = Way(id: int, nodes: seq<NodeId>, tags: Tags)

  datatype Element =
    | NodeElement(id: NodeId, lat: real, lon: real)
    | WayElement(way: Way)
    | OtherElement

  /** `tags.get(key, default)`. */
  function TagOr(tags: Tags, key: string, default: string): (v: string)
    ensures key in tags ==> v == tags[key]
    ensures key !in tags ==> v == default
  {
    if key in tags then tags[key] else default
  }
}
