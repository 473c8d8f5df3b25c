/** The tag descriptors that html-webpack-plugin hands to its alter-asset-tags hook. */
module Tags {

  /** One attribute of a tag, as a key of the descriptor's `attributes` object, in key order. */
  datatype Attribute = Attribute(name: string, value: string)

  /** One element the injector script recreates: its tag name and its attributes. */
  datatype TagDescriptor = TagDescriptor(tagName: string, attributes: seq<Attribute>)
}
