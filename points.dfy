/**
 * A map point as js/data.js and the crime generator store it: a record with
 * a numeric id, coordinates, a category name, Russian and Kazakh variants of
 * its title, address and description, and a list of photo paths.
 */
module Points {

  /** A latitude/longitude pair in degrees. */
  datatype Coord = Coord(lat: real, lng: real)

  datatype Point = Point(
    id: int,
    lat: real,
    lng: real,
    category: string,
    titleRu: string,
    titleKz: string,
    addressRu: string,
    addressKz: string,
    descriptionRu: string,
    descriptionKz: string,
    photos: seq<string>)

  /** `point[key]` for the string-valued properties of a point; any other
      key reads as `undefined`, which the callers treat like "". */
  function Prop(p: Point, key: string): string
  {
    match key
    case "title_ru" => p.titleRu
    case "title_kz" => p.titleKz
    case "address_ru" => p.addressRu
    case "address_kz" => p.addressKz
    case "description_ru" => p.descriptionRu
    case "description_kz" => p.descriptionKz
    case _ => ""
  }

  /** No two points of `ps` share an id. */
  predicate UniqueIds(ps: seq<Point>)
  {
    forall i, j :: 0 <= i < j < |ps| ==> ps[i].id != ps[j].id
  }

  predicate HasId(ps: seq<Point>, id: int)
  {
    exists i :: 0 <= i < |ps| && ps[i].id == id
  }
}
