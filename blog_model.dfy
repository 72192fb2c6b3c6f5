/** The documents of the `blogs` collection and the replies the routes send. */
module BlogModel {

  datatype Option<+T> = None | Some(value: T)

  /** The `data.text` of a block. The aggregation pipeline distinguishes a
      field that is absent from one that holds JSON null. */
  datatype Text = Missing | NullText | Chars(s: string)

  /** One block of the rich-text body: its `type`, its `data.text`, and the
      rest of the block (its `id` and any other `data`, such as a header's
      `level`, a list's `items` or an image's URL) as one opaque value. */
  datatype Block = Block(kind: string, text: Text, rest: string)

  /** The `blog` field: a rich-text document whose `blocks` array may be
      absent, and its other members (the editor's `time` and `version`) as one
      opaque value. */
  datatype Body = Body(blocks: Option<seq<Block>>, rest: string)

  /** A stored blog document, apart from the store's own `_id`. */
  datatype Doc = Doc(
    id: string,
    title: string,
    blog: Body,
    thumbnail: string,
    category: string,
    tags: seq<string>,
    authorName: string,
    createdAt: int,
    reactCount: int)

  /** A document as the collection holds it: the store-assigned `_id` and the fields. */
  datatype Entry = Entry(key: nat, doc: Doc)

  /** An HTTP reply: a status with a JSON body, or an error status with its `error` message. */
  datatype Response<T> = Reply(status: nat, body: T) | Fail(status: nat, error: string)

  /** JavaScript truthiness of an optional string field: present and not "". */
  predicate TruthyText(o: Option<string>) {
    o.Some? && o.value != ""
  }

  /** The string fields `POST /blogs` insists on; every stored document keeps them non-empty. */
  predicate Complete(d: Doc) {
    d.id != "" && d.title != "" && d.category != "" && d.authorName != ""
  }

  /** The `_id`s present in a collection. */
  function Keys(es: seq<Entry>): set<nat> {
    set i | 0 <= i < |es| :: es[i].key
  }

  predicate UniqueKeys(es: seq<Entry>) {
    forall i, j :: 0 <= i < j < |es| ==> es[i].key != es[j].key
  }

  function Min(a: int, b: int): int {
    if a <= b then a else b
  }
}
