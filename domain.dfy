/** The records the store keeps and the errors the core reports. */
module Domain {
  import opened ObjectIds

  /** A blog post; `id` is written by the store, everything else by the author. */
  datatype Blog = Blog(
    id: ObjectId,
    title: string,
    excerpt: string,
    content: string,
    author: string,
    authorImage: string,
    date: string,
    readTime: string,
    category: string,
    tags: seq<string>,
    image: string,
    featured: bool)

  datatype Subscriber = Subscriber(id: ObjectId, email: string)

  /**
   * The failures the core distinguishes: a malformed identifier, a store write
   * that fails, an insert whose identifier is already taken (the store's unique
   * `_id` index), no document for an identifier, a cursor that cannot be opened
   * or breaks off, a document that cannot be decoded, and a template that
   * cannot be rendered.
   */
  datatype Error =
    | InvalidHex
    | WriteFailed
    | DuplicateKey
    | NoDocuments
    | CursorFailed
    | DecodeFailed
    | RenderFailed
}
