/**
 * The collaborators of the scalar shapes that live outside scalars.go: the raw YAML node the
 * decoders read, the parsed `Node` they build, the library conversions they call, the
 * `BaseShape` every variant embeds and the generator of shape ids.
 */
module Nodes {
  import opened Wrappers

  /** Go's int64 and uint64, whose ranges bound `multipleOf` and the length facets. */
  newtype int64 = x: int | -0x8000_0000_0000_0000 <= x < 0x8000_0000_0000_0000
  newtype uint64 = x: int | 0 <= x < 0x1_0000_0000_0000_0000

  /** yaml.Kind */
  datatype Kind = DocumentNode | SequenceNode | MappingNode | ScalarNode | AliasNode

  /** A raw yaml.Node, reduced to the fields the decoders read (positions are left out). */
  datatype YamlNode = YamlNode(kind: Kind, tag: string, value: string, content: seq<YamlNode>)

  /** The decoded value a parsed node holds; its structure is MakeNode's business. */
  type Payload(==, 0, !new)

  /** A parsed node: enum members, file types and custom facets are held as these. */
  datatype Node = Node(value: Payload, location: string)

  /** A compiled regular expression, as produced by regexp.Compile. */
  type Regexp(==, !new)

  /**
   * The foreign conversions the decoders call, each fallible with the library's own message.
   * The Decode conversions decode into a Go pointer, so a YAML null yields `None`.
   */
  datatype Library = Library(
    makeNode: (YamlNode, string) -> Result<Node, string>,
    decodeInt64: YamlNode -> Result<Option<int64>, string>,
    decodeUint64: YamlNode -> Result<Option<uint64>, string>,
    decodeFloat64: YamlNode -> Result<Option<real>, string>,
    decodeString: YamlNode -> Result<Option<string>, string>,
    compile: string -> Result<Regexp, string>)

  /** The identity, type name, location and custom facets shared by every shape variant. */
  datatype BaseShape = BaseShape(
    id: nat,
    typeName: string,
    location: string,
    customShapeFacets: map<string, Node>)

  /** GenerateShapeId as a counter: every id it hands out is one it never handed out before. */
  class ShapeIds {
    var next: nat

    constructor ()
      ensures next == 0
    {
      next := 0;
    }

    method Generate() returns (id: nat)
      modifies this
      ensures id == old(next) && next == old(next) + 1
    {
      id := next;
      next := next + 1;
    }
  }
}
