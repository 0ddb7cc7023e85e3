/**
 * The Mermaid `classDiagram` renderer: a header, one block per class, a
 * blank separator, then one line per relationship, all joined by newlines.
 */
module ClassDiagramRenderer {
  import opened Wrappers
  import opened Text
  import opened Seqs
  import opened Lookup
  import opened BaseRenderer
  import opened DiagramModel

  const Indent: string := "    "
  const MemberIndent: string := "        "
  const AbstractLine: string := "        <<abstract>>"

  /** The arrow of a relationship kind; any kind outside the table gets a plain link. */
  function Arrow(kind: RelKind): (r: string)
    ensures kind == Inheritance <==> r == "<|--"
    ensures kind == Composition <==> r == "*--"
    ensures kind == Aggregation <==> r == "o--"
    ensures kind == Association <==> r == "-->"
    ensures kind == Dependency <==> r == "..>"
    ensures kind.OtherKind? <==> r == "--"
  {
    match kind
    case Inheritance => "<|--"
    case Composition => "*--"
    case Aggregation => "o--"
    case Association => "-->"
    case Dependency => "..>"
    case OtherKind(_) => "--"
  }

  /** The five named kinds draw five different arrows, none of them the plain link. */
  lemma ArrowInjective(a: RelKind, b: RelKind)
    ensures Arrow(a) == Arrow(b) <==> a == b || (a.OtherKind? && b.OtherKind?)
  {
  }

  /** `<vis><Type> <name>`, the visibility defaulting to `+`. */
  function AttributeLine(a: Attribute): string {
    MemberIndent + a.visibility.GetOr("+") + TypeToMermaid(a.typ) + " " + a.name
  }

  /** `<vis><name>()`, then ` <Type>` only when a return type is given. */
  function MethodLine(m: Method): string {
    MemberIndent + m.visibility.GetOr("+") + m.name + "()" + ReturnTypeSegment(m.returnType)
  }

  function ReturnTypeSegment(returnType: Option<string>): string {
    if returnType.Some? then " " + TypeToMermaid(returnType.value) else ""
  }

  /** A member without a visibility is drawn exactly as a public (`+`) one. */
  lemma VisibilityDefaultsToPublic(a: Attribute, m: Method)
    ensures AttributeLine(a.(visibility := None)) == AttributeLine(a.(visibility := Some("+")))
    ensures MethodLine(m.(visibility := None)) == MethodLine(m.(visibility := Some("+")))
  {
  }

  /** A return type appends ` <Type>` to the method line and changes nothing else. */
  lemma ReturnTypeAppended(m: Method, t: string)
    ensures MethodLine(m.(returnType := Some(t))) == MethodLine(m.(returnType := None)) + " " + TypeToMermaid(t)
  {
  }

  /** The lines before a class's members: its opening line and, for an abstract class, `<<abstract>>`. */
  function ClassFront(c: ClassEntity): seq<string> {
    [Indent + "class " + EscapeClassName(c.name) + " {"] + (if c.isAbstract then [AbstractLine] else [])
  }

  /** The closing brace and the empty line that end a class block. */
  const ClassClose: seq<string> := [Indent + "}", ""]

  /**
   * The lines of a class block: the opening line, `<<abstract>>` for an
   * abstract class, the attributes, the methods, the closing brace and an
   * empty line.
   */
  function ClassLines(c: ClassEntity): (r: seq<string>)
    ensures |r| == 3 + (if c.isAbstract then 1 else 0) + |c.attributes| + |c.methods|
    ensures r[0] == Indent + "class " + EscapeClassName(c.name) + " {"
    ensures r[|r| - 2] == Indent + "}" && r[|r| - 1] == ""
  {
    ClassFront(c) + (AttributeLines(c.attributes) + (MethodLines(c.methods) + ClassClose))
  }

  /**
   * Between the opening line and the closing brace: `<<abstract>>` for an
   * abstract class, then every attribute line, then every method line, each
   * in input order.
   */
  lemma ClassLinesMembers(c: ClassEntity)
    ensures |ClassFront(c)| == if c.isAbstract then 2 else 1
    ensures c.isAbstract ==> ClassLines(c)[1] == AbstractLine
    ensures forall i :: 0 <= i < |c.attributes| ==>
      ClassLines(c)[|ClassFront(c)| + i] == AttributeLine(c.attributes[i])
    ensures forall i :: 0 <= i < |c.methods| ==>
      ClassLines(c)[|ClassFront(c)| + |c.attributes| + i] == MethodLine(c.methods[i])
  {
    var front := ClassFront(c);
    var attrs := AttributeLines(c.attributes);
    var meths := MethodLines(c.methods);
    forall i | 0 <= i < |c.attributes|
      ensures ClassLines(c)[|front| + i] == AttributeLine(c.attributes[i])
    {
      IndexSecond(front, attrs, meths + ClassClose, i);
    }
    forall i | 0 <= i < |c.methods|
      ensures ClassLines(c)[|front| + |c.attributes| + i] == MethodLine(c.methods[i])
    {
      IndexThird(front, attrs, meths, ClassClose, i);
    }
  }

  function AttributeLines(attributes: seq<Attribute>): (r: seq<string>)
    ensures |r| == |attributes|
    ensures forall i :: 0 <= i < |attributes| ==> r[i] == AttributeLine(attributes[i])
  {
    seq(|attributes|, i requires 0 <= i < |attributes| => AttributeLine(attributes[i]))
  }

  function MethodLines(methods: seq<Method>): (r: seq<string>)
    ensures |r| == |methods|
    ensures forall i :: 0 <= i < |methods| ==> r[i] == MethodLine(methods[i])
  {
    seq(|methods|, i requires 0 <= i < |methods| => MethodLine(methods[i]))
  }

  /** `render_class`: the block's lines joined; it ends in a newline. */
  function RenderClass(c: ClassEntity): (r: string)
    ensures EndsWith(r, "\n")
  {
    var lines := ClassLines(c);
    JoinAppend(lines[..|lines| - 1], [""]);
    assert lines == lines[..|lines| - 1] + [""];
    Join(lines)
  }

  function SourceCardinalitySegment(card: Option<string>): string {
    if card.Some? then " \"" + card.value + "\"" else ""
  }

  function TargetCardinalitySegment(card: Option<string>): string {
    if card.Some? then "\"" + card.value + "\" " else ""
  }

  function LabelSegment(caption: Option<string>): string {
    if caption.Some? then " : " + caption.value else ""
  }

  /** The escaped source, indented. */
  function SourcePart(rel: Relationship): string {
    Indent + EscapeClassName(rel.source)
  }

  /** The arrow with a space on each side. */
  function LinkPart(rel: Relationship): string {
    " " + Arrow(rel.kind) + " "
  }

  /** The escaped target and the label, if any. */
  function TargetPart(rel: Relationship): string {
    EscapeClassName(rel.target) + LabelSegment(rel.labelText)
  }

  /** `render_relationship`: both ends escaped, each optional part only when present. */
  function RelationshipLine(rel: Relationship): (r: string)
    ensures StartsWith(r, Indent + EscapeClassName(rel.source))
    ensures EndsWith(r, TargetPart(rel))
  {
    var r := SourcePart(rel) + SourceCardinalitySegment(rel.sourceCardinality) + LinkPart(rel)
      + TargetCardinalitySegment(rel.targetCardinality) + TargetPart(rel);
    assert r == SourcePart(rel) + (SourceCardinalitySegment(rel.sourceCardinality) + LinkPart(rel)
      + TargetCardinalitySegment(rel.targetCardinality) + TargetPart(rel));
    StartsWithAppend(SourcePart(rel), SourceCardinalitySegment(rel.sourceCardinality) + LinkPart(rel)
      + TargetCardinalitySegment(rel.targetCardinality) + TargetPart(rel));
    EndsWithAppend(SourcePart(rel) + SourceCardinalitySegment(rel.sourceCardinality) + LinkPart(rel)
      + TargetCardinalitySegment(rel.targetCardinality), TargetPart(rel));
    r
  }

  /** With no cardinalities and no label the line is just source, arrow and target. */
  lemma BareRelationshipLine(rel: Relationship)
    requires rel.sourceCardinality.None? && rel.targetCardinality.None? && rel.labelText.None?
    ensures RelationshipLine(rel)
      == Indent + EscapeClassName(rel.source) + " " + Arrow(rel.kind) + " " + EscapeClassName(rel.target)
  {
  }

  /** A source cardinality inserts ` "<card>"` right after the source and changes nothing else. */
  lemma SourceCardinalityInserted(rel: Relationship, card: string)
    ensures var rest := LinkPart(rel) + TargetCardinalitySegment(rel.targetCardinality) + TargetPart(rel);
      && RelationshipLine(rel.(sourceCardinality := None)) == SourcePart(rel) + rest
      && RelationshipLine(rel.(sourceCardinality := Some(card))) == SourcePart(rel) + " \"" + card + "\"" + rest
  {
    var rest := LinkPart(rel) + TargetCardinalitySegment(rel.targetCardinality) + TargetPart(rel);
    var segment := " \"" + card + "\"";
    assert SourcePart(rel) + "" + LinkPart(rel) + TargetCardinalitySegment(rel.targetCardinality) + TargetPart(rel)
      == SourcePart(rel) + rest;
    assert SourcePart(rel) + segment + LinkPart(rel) + TargetCardinalitySegment(rel.targetCardinality) + TargetPart(rel)
      == SourcePart(rel) + segment + rest;
  }

  /** A target cardinality inserts `"<card>" ` right before the target and changes nothing else. */
  lemma TargetCardinalityInserted(rel: Relationship, card: string)
    ensures var front := SourcePart(rel) + SourceCardinalitySegment(rel.sourceCardinality) + LinkPart(rel);
      && RelationshipLine(rel.(targetCardinality := None)) == front + TargetPart(rel)
      && RelationshipLine(rel.(targetCardinality := Some(card))) == front + "\"" + card + "\" " + TargetPart(rel)
  {
  }

  /** A label appends ` : <label>` and changes nothing else. */
  lemma LabelAppended(rel: Relationship, caption: string)
    ensures RelationshipLine(rel.(labelText := Some(caption))) == RelationshipLine(rel.(labelText := None)) + " : " + caption
  {
  }

  function Header(r: Renderer): seq<string> {
    ["classDiagram", Indent + "direction " + r.direction, ""]
  }

  function ClassBlocks(classes: seq<ClassEntity>): seq<seq<string>> {
    seq(|classes|, i requires 0 <= i < |classes| => ClassLines(classes[i]))
  }

  function RelationshipLines(rels: seq<Relationship>): seq<string> {
    seq(|rels|, i requires 0 <= i < |rels| => RelationshipLine(rels[i]))
  }

  /**
   * `render`: the header lines, each class block, an empty line and each
   * relationship line, joined by newlines.
   */
  function Render(r: Renderer, d: ClassDiagram): string {
    Join(Header(r) + JoinEach(ClassBlocks(d.classes)) + [""] + RelationshipLines(d.relationships))
  }

  lemma HeaderText(r: Renderer)
    ensures Join(Header(r)) + "\n" == "classDiagram\n" + Indent + "direction " + r.direction + "\n\n"
  {
    var h := Header(r);
    assert h[1..][1..] == [""];
  }

  /** The text always opens with the header lines and a blank line, whatever the diagram holds. */
  lemma RenderOpensWithHeader(r: Renderer, d: ClassDiagram)
    ensures StartsWith(Render(r, d), "classDiagram\n" + Indent + "direction " + r.direction + "\n\n")
  {
    var rest := JoinEach(ClassBlocks(d.classes)) + [""] + RelationshipLines(d.relationships);
    assert Header(r) + JoinEach(ClassBlocks(d.classes)) + [""] + RelationshipLines(d.relationships) == Header(r) + rest;
    JoinOpensWith(Header(r), rest);
    HeaderText(r);
  }

  /** The lines of the rendered text, class blocks spliced in line by line. */
  function RenderLines(r: Renderer, d: ClassDiagram): seq<string> {
    Header(r) + Flatten(ClassBlocks(d.classes)) + [""] + RelationshipLines(d.relationships)
  }

  /** The rendered text is the join of its lines. */
  lemma RenderIsJoinOfLines(r: Renderer, d: ClassDiagram)
    ensures Render(r, d) == Join(RenderLines(r, d))
  {
    var h := Header(r);
    var blocks := ClassBlocks(d.classes);
    var rels := RelationshipLines(d.relationships);
    forall i | 0 <= i < |blocks|
      ensures |blocks[i]| > 0
    {
      assert blocks[i] == ClassLines(d.classes[i]);
    }
    JoinSplice(h, blocks, [""] + rels);
    assert Render(r, d) == Join(h + JoinEach(blocks) + ([""] + rels)) by {
      assert h + JoinEach(blocks) + [""] + rels == h + JoinEach(blocks) + ([""] + rels);
    }
    assert RenderLines(r, d) == h + Flatten(blocks) + ([""] + rels);
  }

  /** Every string the diagram and the renderer contribute is a single line. */
  predicate SingleLineStrings(r: Renderer, d: ClassDiagram) {
    && NoNewline(r.direction)
    && (forall i :: 0 <= i < |d.classes| ==> ClassSingleLine(d.classes[i]))
    && (forall i :: 0 <= i < |d.relationships| ==> RelationshipSingleLine(d.relationships[i]))
  }

  predicate OptionSingleLine(v: Option<string>) {
    v.Some? ==> NoNewline(v.value)
  }

  predicate ClassSingleLine(c: ClassEntity) {
    && NoNewline(c.name)
    && (forall i :: 0 <= i < |c.attributes| ==>
          NoNewline(c.attributes[i].name) && NoNewline(c.attributes[i].typ) && OptionSingleLine(c.attributes[i].visibility))
    && (forall i :: 0 <= i < |c.methods| ==>
          NoNewline(c.methods[i].name) && OptionSingleLine(c.methods[i].visibility) && OptionSingleLine(c.methods[i].returnType))
  }

  predicate RelationshipSingleLine(rel: Relationship) {
    && NoNewline(rel.source) && NoNewline(rel.target)
    && OptionSingleLine(rel.labelText)
    && OptionSingleLine(rel.sourceCardinality) && OptionSingleLine(rel.targetCardinality)
  }

  lemma ClassLinesSingle(c: ClassEntity)
    requires ClassSingleLine(c)
    ensures AllNoNewline(ClassLines(c))
  {
    EscapeClassNameNoNewline(c.name);
    var attributes := AttributeLines(c.attributes);
    forall i | 0 <= i < |attributes|
      ensures NoNewline(attributes[i])
    {
      TypeToMermaidNoNewline(c.attributes[i].typ);
    }
    var methods := MethodLines(c.methods);
    forall i | 0 <= i < |methods|
      ensures NoNewline(methods[i])
    {
      var m := c.methods[i];
      if m.returnType.Some? {
        TypeToMermaidNoNewline(m.returnType.value);
      }
    }
    AllNoNewlineAppend(methods, ClassClose);
    AllNoNewlineAppend(attributes, methods + ClassClose);
    AllNoNewlineAppend(ClassFront(c), attributes + (methods + ClassClose));
  }

  lemma RelationshipLineSingle(rel: Relationship)
    requires RelationshipSingleLine(rel)
    ensures NoNewline(RelationshipLine(rel))
  {
    EscapeClassNameNoNewline(rel.source);
    EscapeClassNameNoNewline(rel.target);
  }

  /**
   * Splitting the rendered text at its newlines gives the header, every
   * class block's lines in input order, an empty line, and one line per
   * relationship in input order.
   */
  lemma RenderLinesOf(r: Renderer, d: ClassDiagram)
    requires SingleLineStrings(r, d)
    ensures LinesOf(Render(r, d)) == RenderLines(r, d)
  {
    RenderIsJoinOfLines(r, d);
    var blocks := ClassBlocks(d.classes);
    forall i | 0 <= i < |blocks|
      ensures AllNoNewline(blocks[i])
    {
      ClassLinesSingle(d.classes[i]);
    }
    FlattenNoNewline(blocks);
    var rels := RelationshipLines(d.relationships);
    forall i | 0 <= i < |rels|
      ensures NoNewline(rels[i])
    {
      RelationshipLineSingle(d.relationships[i]);
    }
    var h := Header(r);
    var f := Flatten(blocks);
    assert AllNoNewline(h) by {
      assert NoNewline(Indent + "direction " + r.direction);
    }
    AllNoNewlineAppend(h, f);
    AllNoNewlineAppend(h + f, [""]);
    AllNoNewlineAppend(h + f + [""], rels);
    LinesOfJoin(RenderLines(r, d));
  }

  /** Relationship lines depend on the relationships alone, never on the class list. */
  lemma RelationshipsIgnoreClasses(r: Renderer, d: ClassDiagram, e: ClassDiagram)
    requires d.relationships == e.relationships
    ensures var n := |d.relationships|;
      && |RenderLines(r, d)| >= n && |RenderLines(r, e)| >= n
      && RenderLines(r, d)[|RenderLines(r, d)| - n..] == RenderLines(r, e)[|RenderLines(r, e)| - n..]
  {
  }

  /** With no classes and no relationships only the header and a blank separator remain. */
  lemma EmptyDiagram(r: Renderer)
    ensures Render(r, ClassDiagram([], [])) == "classDiagram\n" + Indent + "direction " + r.direction + "\n\n"
  {
    var d := ClassDiagram([], []);
    assert Header(r) + JoinEach(ClassBlocks(d.classes)) + [""] + RelationshipLines(d.relationships) == Header(r) + [""];
    JoinAppend(Header(r), [""]);
    HeaderText(r);
  }

  // The relationship lines and member lines that the renderer's examples expect.

  /** An association between plain names with both cardinalities and a label, as in `User "1" --> "*" Post : has_many posts`. */
  lemma AssociationShape(source: string, target: string, sourceCard: string, targetCard: string, caption: string)
    requires AllWordChars(source) && AllWordChars(target)
    ensures RelationshipLine(Relationship(source, target, Association, Some(caption), Some(sourceCard), Some(targetCard)))
      == "    " + source + " \"" + sourceCard + "\" --> \"" + targetCard + "\" " + target + " : " + caption
  {
  }

  /** A composition edge between plain names, as in `Car *-- Engine`. */
  lemma CompositionShape(whole: string, part: string)
    requires AllWordChars(whole) && AllWordChars(part)
    ensures RelationshipLine(Relationship(whole, part, Composition, None, None, None)) == "    " + whole + " *-- " + part
  {
  }

  /** An aggregation edge between plain names, as in `Team o-- Player`. */
  lemma AggregationShape(whole: string, part: string)
    requires AllWordChars(whole) && AllWordChars(part)
    ensures RelationshipLine(Relationship(whole, part, Aggregation, None, None, None)) == "    " + whole + " o-- " + part
  {
  }

  /** A dependency edge between plain names, as in `OrdersController ..> Order`. */
  lemma DependencyShape(source: string, target: string)
    requires AllWordChars(source) && AllWordChars(target)
    ensures RelationshipLine(Relationship(source, target, Dependency, None, None, None)) == "    " + source + " ..> " + target
  {
  }

  /** An inheritance edge between plain names, as in `ApplicationRecord <|-- User`. */
  lemma InheritanceShape(parent: string, child: string)
    requires AllWordChars(parent) && AllWordChars(child)
    ensures RelationshipLine(Relationship(parent, child, Inheritance, None, None, None)) == "    " + parent + " <|-- " + child
  {
  }

  lemma MemberExamples()
    ensures AttributeLine(Attribute("id", "integer", Some("+"))) == "        +Integer id"
    ensures MethodLine(Method("full_name", Some("+"), None)) == "        +full_name()"
  {
    MermaidClause0();
    FirstMatchIsLeast(MermaidTypes, "integer", 0);
    assert Lower("integer") == "integer";
  }

  /** A concrete class with no members is its opening line, the closing brace and an empty line. */
  lemma EmptyClassBlock(name: string)
    ensures ClassLines(ClassEntity(name, false, [], [])) == [Indent + "class " + EscapeClassName(name) + " {", Indent + "}", ""]
  {
    var lines := ClassLines(ClassEntity(name, false, [], []));
    assert |lines| == 3;
  }
}
