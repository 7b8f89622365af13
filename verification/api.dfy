/** The JSON-API records the generator builds.  A `Document` is a resource with a
    type, an id and string attributes; only the crate document carries
    relationships.  A `Data` is the `{type, id}` stub a relationship points with. */
module Api {

  datatype Data = Data(ty: string, id: string)

  datatype Document = Document(
    ty: string,
    id: string,
    attributes: map<string, string>,
    relationships: map<string, seq<Data>>)

  /** The envelope: the crate document as `data`, every other resource in `included`. */
  datatype Documentation = Documentation(data: Document, included: seq<Document>)
}
