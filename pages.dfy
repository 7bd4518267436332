/**
 * The shape of one page of the album database as the client library returns
 * it, reduced to the properties the core reads.  Where the source indexes a
 * loosely-typed dictionary, each way that lookup can come out is a variant
 * here.
 */
module Pages {
  import opened Wrappers

  /** One rich-text segment of a title: only text segments carry `text.content`. */
  datatype Segment = TextSegment(content: string) | OtherSegment

  /**
   * A select- or status-typed property: missing from `properties`, present
   * with a null value, or present with a chosen option whose name is given.
   */
  datatype Select = Absent | NoChoice | Choice(name: string)

  /**
   * A page: its id, the `Album` title property (None when the property is
   * missing), the `Alex Top`, `Artist` and `Status` properties, and the page's
   * `cover` and `icon` (None when null or missing).
   */
  datatype Page = Page(
    id: string,
    title: Option<seq<Segment>>,
    alexTop: Select,
    artist: Select,
    status: Select,
    cover: Option<string>,
    icon: Option<string>)

  /** A `KeyError` raised while reading a page: the key that was not there. */
  datatype ParseError = MissingKey(key: string)
}
