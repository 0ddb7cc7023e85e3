/**
 * The intermediate model that the parsers produce and the renderers
 * consume: plain records standing for the hashes of the source.
 * An absent (`nil`) hash value is `None`; the empty string is a present
 * value, as in Ruby, where only `nil` and `false` are falsy.
 */
module DiagramModel {
  import opened Wrappers

  /** A class attribute; `visibility` falls back to `+` when absent. */
  datatype Attribute = Attribute(name: string, typ: string, visibility: Option<string>)

  /** A class method; the return type is shown only when present. */
  datatype Method = Method(name: string, visibility: Option<string>, returnType: Option<string>)

  datatype ClassEntity = ClassEntity(
    name: string,
    isAbstract: bool,
    attributes: seq<Attribute>,
    methods: seq<Method>)

  /** The `type:` symbol of a class-diagram relationship. */
  datatype RelKind = Inheritance | Composition | Aggregation | Association | Dependency | OtherKind(symbol: string)

  /** `labelText` is the source's `label:` (a keyword in Dafny). */
  datatype Relationship = Relationship(
    source: string,
    target: string,
    kind: RelKind,
    labelText: Option<string>,
    sourceCardinality: Option<string>,
    targetCardinality: Option<string>)

  datatype ClassDiagram = ClassDiagram(classes: seq<ClassEntity>, relationships: seq<Relationship>) {
    /** This diagram followed by `other`: classes after classes, relationships after relationships. */
    function Then(other: ClassDiagram): ClassDiagram {
      ClassDiagram(classes + other.classes, relationships + other.relationships)
    }
  }

  datatype ErAttribute = ErAttribute(
    name: string,
    typ: string,
    primaryKey: bool,
    foreignKey: bool,
    unique: bool)

  datatype Entity = Entity(name: string, attributes: seq<ErAttribute>)

  datatype ErRelationship = ErRelationship(
    source: string,
    target: string,
    labelText: Option<string>,
    sourceCardinality: Option<string>,
    targetCardinality: Option<string>,
    identifying: bool)

  datatype ErDiagram = ErDiagram(entities: seq<Entity>, relationships: seq<ErRelationship>) {
    /** This diagram followed by `other`: entities after entities, relationships after relationships. */
    function Then(other: ErDiagram): ErDiagram {
      ErDiagram(entities + other.entities, relationships + other.relationships)
    }
  }
}
