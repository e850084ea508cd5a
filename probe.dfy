/** The document the media prober prints, already parsed from JSON and cut
    down to the fields the normaliser reads, with the dotted-path lookups
    made on it and the errors the normaliser raises. */
module Probe {
  import opened Wrappers

  /** A tag set: tag name to tag text. */
  type Tags = map<string, string>

  /** One entry of `streams`: its `duration` text and its `tags`. */
  datatype Stream = Stream(duration: Option<string>, tags: Option<Tags>)

  /** The `format` section: the container-level `tags`. */
  datatype Format = Format(tags: Option<Tags>)

  /** A probe document; any part may be missing. */
  datatype Document = Document(format: Option<Format>, streams: Option<seq<Stream>>)

  /** What the normaliser throws. */
  datatype Failure =
    | UnrecognisedMetadata  // the document has no `streams`
    | NoContainerTags       // `format.tags` is missing, so indexing it throws
    | NoHandlerName         // the first stream has no `handler_name`, so `.includes` on it throws
    | NoStreamTags          // a stream has no `tags`, so reading its `creation_time` throws

  /** The lookup of `format.tags`: missing if any step of the path is. */
  function ContainerTags(doc: Document): Option<Tags> {
    if doc.format.Some? then doc.format.value.tags else None
  }

  /** The lookup of `format.tags.<key>`. */
  function ContainerTag(doc: Document, key: string): Option<string> {
    var tags := ContainerTags(doc);
    if tags.Some? && key in tags.value then Some(tags.value[key]) else None
  }

  /** The lookup of `streams.0.tags.<key>`. */
  function FirstStreamTag(doc: Document, key: string): Option<string> {
    if doc.streams.Some? && |doc.streams.value| > 0 && doc.streams.value[0].tags.Some?
       && key in doc.streams.value[0].tags.value
    then Some(doc.streams.value[0].tags.value[key])
    else None
  }

  /** JavaScript truthiness of a looked-up tag: present and not the empty string. */
  predicate Truthy(v: Option<string>) {
    v.Some? && v.value != ""
  }
}
