/**
 * The record shapes shared by the whole game: one grid section and the single
 * stored game document, as the local-storage backend keeps it.
 */
module GameTypes {

  /** A value that may be absent (`null` or `undefined` on the JavaScript side). */
  datatype Option<+T> = None | Some(value: T) {

    /** The carried value, or `default` when absent (JavaScript's `x || default` on objects). */
    function GetOr(default: T): T {
      match this
      case Some(v) => v
      case None => default
    }
  }

  /**
   * One grid cell of the photo. `id` is its position in the section list,
   * `row` and `col` its grid coordinates, `code` the secret printed on its card.
   */
  datatype Section = Section(id: int, code: string, isUnlocked: bool, row: int, col: int)

  /**
   * The stored document `{ imageUrl, sections }`. Either field may be missing
   * once the document has gone through a JSON round trip (an `undefined` image
   * is dropped by the serializer), so both are optional.
   */
  datatype Doc = Doc(imageUrl: Option<string>, sections: Option<seq<Section>>)

  /** What a subscriber's callback receives: the parsed document, or `null` when none is stored. */
  type Snapshot = Option<Doc>
}
