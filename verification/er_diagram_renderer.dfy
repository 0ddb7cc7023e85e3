/**
 * The Mermaid `erDiagram` renderer: relationship lines first, then one
 * upper-cased block per entity whose attribute lines carry PK, FK and UK
 * markers, with its own tables for cardinality symbols and column types.
 */
module ErDiagramRenderer {
  import opened Wrappers
  import opened Text
  import opened Seqs
  import opened Lookup
  import opened DiagramModel

  const Indent: string := "    "
  const MemberIndent: string := "        "

  /** Mermaid's crow's-foot end for a cardinality token; anything else, absent included, is exactly one. */
  function CardinalitySymbol(cardinality: Option<string>): (r: string)
    ensures r == "|o" <==> cardinality == Some("0..1") || cardinality == Some("zero_or_one")
    ensures r == "}|" <==> cardinality == Some("1..*") || cardinality == Some("one_or_more")
    ensures r == "}o" <==> (cardinality == Some("*") || cardinality == Some("0..*")
                           || cardinality == Some("zero_or_more") || cardinality == Some("many"))
    ensures r == "||" || r == "|o" || r == "}|" || r == "}o"
  {
    match cardinality
    case Some(token) =>
      if token == "1" || token == "one" then "||"
      else if token == "0..1" || token == "zero_or_one" then "|o"
      else if token == "1..*" || token == "one_or_more" then "}|"
      else if token == "*" || token == "0..*" || token == "zero_or_more" || token == "many" then "}o"
      else "||"
    case None => "||"
  }

  /** The renderer's examples, and the symbols themselves, which are not tokens it knows. */
  lemma CardinalityExamples()
    ensures CardinalitySymbol(Some("1")) == "||"
    ensures CardinalitySymbol(Some("0..1")) == "|o"
    ensures CardinalitySymbol(Some("1..*")) == "}|"
    ensures CardinalitySymbol(Some("*")) == "}o"
    ensures CardinalitySymbol(Some("unknown")) == "||"
    ensures CardinalitySymbol(Some("}o")) == "||"
    ensures CardinalitySymbol(None) == "||"
  {
  }

  /** The `case` clauses of `type_to_er_type`, in source order. */
  const ErTypes: seq<Rule> := [
    Rule(["integer", "bigint"], "int"),
    Rule(["string", "varchar"], "string"),
    Rule(["text"], "text"),
    Rule(["boolean"], "boolean"),
    Rule(["datetime", "timestamp"], "datetime"),
    Rule(["date"], "date"),
    Rule(["time"], "time"),
    Rule(["decimal", "numeric"], "decimal"),
    Rule(["float", "double"], "float"),
    Rule(["json", "jsonb"], "json")
  ]

  /**
   * The ER name of a column type: the lower-cased type is matched against
   * the clauses in order and the first hit's value is taken; otherwise the
   * lower-cased type itself.
   */
  function TypeToErType(t: string): string {
    match FirstMatch(ErTypes, Lower(t))
    case Some(i) => ErTypes[i].result
    case None => Lower(t)
  }

  /** First match wins; a type no clause matches passes through lower-cased. */
  lemma TypeToErTypeFirstMatch(t: string, i: nat)
    requires i < |ErTypes|
    ensures Matches(ErTypes[i], Lower(t)) && (forall j :: 0 <= j < i ==> !Matches(ErTypes[j], Lower(t)))
      ==> TypeToErType(t) == ErTypes[i].result
    ensures (forall j :: 0 <= j < |ErTypes| ==> !Matches(ErTypes[j], Lower(t)))
      ==> TypeToErType(t) == Lower(t)
  {
    FirstMatchIsLeast(ErTypes, Lower(t), i);
    FirstMatchFromCorrect(ErTypes, Lower(t), 0);
  }

  lemma ErResultLowerCase(i: nat)
    requires i < |ErTypes|
    ensures IsLowerCase(ErTypes[i].result)
  {
  }

  /** The ER type is always lower-case. */
  lemma TypeToErTypeIsLowerCase(t: string)
    ensures IsLowerCase(TypeToErType(t))
  {
    match FirstMatch(ErTypes, Lower(t))
    case Some(i) =>
      ErResultLowerCase(i);
    case None =>
  }

  // One lemma per clause of `ErTypes`: its first pattern is matched first
  // by that clause.

  lemma ErClause0()
    ensures IsFirstMatch(ErTypes, "integer", 0)
  {
    var R := ErTypes;
    var s := "integer";
    HitRule(R[0], s);
  }

  lemma ErClause1()
    ensures IsFirstMatch(ErTypes, "string", 1)
  {
    var R := ErTypes;
    var s := "string";
    forall j | 0 <= j < 1 ensures !Matches(R[j], s) {
      MissRule(R[j], s, 'b');
    }
    HitRule(R[1], s);
  }

  lemma ErClause2()
    ensures IsFirstMatch(ErTypes, "text", 2)
  {
    var R := ErTypes;
    var s := "text";
    forall j | 0 <= j < 2 ensures !Matches(R[j], s) {
      if j == 0 { MissRule(R[j], s, 'i'); }
      else { MissRule(R[j], s, 's'); }
    }
    HitRule(R[2], s);
  }

  lemma ErClause3()
    ensures IsFirstMatch(ErTypes, "boolean", 3)
  {
    var R := ErTypes;
    var s := "boolean";
    forall j | 0 <= j < 3 ensures !Matches(R[j], s) {
      if j == 0 { MissRule(R[j], s, 'i'); }
      else if j == 1 { MissRule(R[j], s, 'r'); }
      else { MissRule(R[j], s, 't'); }
    }
    HitRule(R[3], s);
  }

  /** Both `datetime` and `timestamp` first match the `datetime|timestamp` clause. */
  lemma ErClause4(s: string)
    requires s == "datetime" || s == "timestamp"
    ensures IsFirstMatch(ErTypes, s, 4)
  {
    var R := ErTypes;
    forall j | 0 <= j < 4 ensures !Matches(R[j], s) {
      if j == 0 { MissRule(R[j], s, 'n'); }
      else if j == 1 { MissRule(R[j], s, 'r'); }
      else if j == 2 { MissRule(R[j], s, 'x'); }
      else { MissRule(R[j], s, 'b'); }
    }
    HitRule(R[4], s);
  }

  lemma ErClause5()
    ensures IsFirstMatch(ErTypes, "date", 5)
  {
    var R := ErTypes;
    var s := "date";
    forall j | 0 <= j < 5 ensures !Matches(R[j], s) {
      if j == 0 { MissRule(R[j], s, 'i'); }
      else if j == 1 { MissRule(R[j], s, 's'); }
      else if j == 2 { MissRule(R[j], s, 'x'); }
      else if j == 3 { MissRule(R[j], s, 'b'); }
      else { MissRule(R[j], s, 'i'); }
    }
    HitRule(R[5], s);
  }

  lemma ErClause6()
    ensures IsFirstMatch(ErTypes, "time", 6)
  {
    var R := ErTypes;
    var s := "time";
    forall j | 0 <= j < 6 ensures !Matches(R[j], s) {
      if j == 0 { MissRule(R[j], s, 'n'); }
      else if j == 1 { MissRule(R[j], s, 's'); }
      else if j == 2 { MissRule(R[j], s, 'x'); }
      else if j == 3 { MissRule(R[j], s, 'b'); }
      else if j == 4 { MissRule(R[j], s, 'd'); }
      else { MissRule(R[j], s, 'd'); }
    }
    HitRule(R[6], s);
  }

  lemma ErClause7()
    ensures IsFirstMatch(ErTypes, "decimal", 7)
  {
    var R := ErTypes;
    var s := "decimal";
    forall j | 0 <= j < 7 ensures !Matches(R[j], s) {
      if j == 0 { MissRule(R[j], s, 'n'); }
      else if j == 1 { MissRule(R[j], s, 'r'); }
      else if j == 2 { MissRule(R[j], s, 't'); }
      else if j == 3 { MissRule(R[j], s, 'b'); }
      else if j == 4 { MissRule(R[j], s, 't'); }
      else if j == 5 { MissRule(R[j], s, 't'); }
      else { MissRule(R[j], s, 't'); }
    }
    HitRule(R[7], s);
  }

  lemma ErClause8()
    ensures IsFirstMatch(ErTypes, "float", 8)
  {
    var R := ErTypes;
    var s := "float";
    forall j | 0 <= j < 8 ensures !Matches(R[j], s) {
      if j == 0 { MissRule(R[j], s, 'i'); }
      else if j == 1 { MissRule(R[j], s, 's'); }
      else if j == 2 { MissRule(R[j], s, 'e'); }
      else if j == 3 { MissRule(R[j], s, 'b'); }
      else if j == 4 { MissRule(R[j], s, 'd'); }
      else if j == 5 { MissRule(R[j], s, 'd'); }
      else if j == 6 { MissRule(R[j], s, 'i'); }
      else { MissRule(R[j], s, 'd'); }
    }
    HitRule(R[8], s);
  }

  lemma ErClause9()
    ensures IsFirstMatch(ErTypes, "json", 9)
  {
    var R := ErTypes;
    var s := "json";
    forall j | 0 <= j < 9 ensures !Matches(R[j], s) {
      if j == 0 { MissRule(R[j], s, 'i'); }
      else if j == 1 { MissRule(R[j], s, 't'); }
      else if j == 2 { MissRule(R[j], s, 't'); }
      else if j == 3 { MissRule(R[j], s, 'b'); }
      else if j == 4 { MissRule(R[j], s, 'd'); }
      else if j == 5 { MissRule(R[j], s, 'd'); }
      else if j == 6 { MissRule(R[j], s, 't'); }
      else if j == 7 { MissRule(R[j], s, 'd'); }
      else { MissRule(R[j], s, 'f'); }
    }
    HitRule(R[9], s);
  }

  /** `int`, the value of the first clause, is matched by no clause: every pattern is longer. */
  lemma IntMatchesNoErClause()
    ensures forall j :: 0 <= j < |ErTypes| ==> !Matches(ErTypes[j], "int")
  {
    var R := ErTypes;
    var s := "int";
    forall j | 0 <= j < 10 ensures !Matches(R[j], s) {
      if j == 0 { MissRule(R[j], s, 'e'); }
      else if j == 1 { MissRule(R[j], s, 's'); }
      else if j == 2 { MissRule(R[j], s, 'e'); }
      else if j == 3 { MissRule(R[j], s, 'b'); }
      else if j == 4 { MissRule(R[j], s, 'd'); }
      else if j == 5 { MissRule(R[j], s, 'd'); }
      else if j == 6 { MissRule(R[j], s, 'm'); }
      else if j == 7 { MissRule(R[j], s, 'd'); }
      else if j == 8 { MissRule(R[j], s, 'f'); }
      else { MissRule(R[j], s, 'j'); }
    }
  }

  /** Every value of the table other than `int` is its clause's first pattern and is matched first by it. */
  lemma ErResultMatchesItself(i: nat)
    requires 1 <= i < |ErTypes|
    ensures IsFirstMatch(ErTypes, ErTypes[i].result, i)
  {
    if i < 5 {
      ErLowResultMatchesItself(i);
    } else {
      ErHighResultMatchesItself(i);
    }
  }

  lemma ErLowResultMatchesItself(i: nat)
    requires 1 <= i < 5
    ensures IsFirstMatch(ErTypes, ErTypes[i].result, i)
  {
    if i == 1 { ErClause1(); }
    else if i == 2 { ErClause2(); }
    else if i == 3 { ErClause3(); }
    else { ErClause4(ErTypes[i].result); }
  }

  lemma ErHighResultMatchesItself(i: nat)
    requires 5 <= i < |ErTypes|
    ensures IsFirstMatch(ErTypes, ErTypes[i].result, i)
  {
    if i == 5 { ErClause5(); }
    else if i == 6 { ErClause6(); }
    else if i == 7 { ErClause7(); }
    else if i == 8 { ErClause8(); }
    else { ErClause9(); }
  }

  /** Converting an ER type again changes nothing. */
  lemma TypeToErTypeIdempotent(t: string)
    ensures TypeToErType(TypeToErType(t)) == TypeToErType(t)
  {
    var u := TypeToErType(t);
    TypeToErTypeIsLowerCase(t);
    LowerOfLowerCase(u);
    match FirstMatch(ErTypes, Lower(t))
    case Some(i) =>
      if i == 0 {
        IntMatchesNoErClause();
        FirstMatchFromCorrect(ErTypes, "int", 0);
      } else {
        ErResultMatchesItself(i);
        FirstMatchIsLeast(ErTypes, u, i);
      }
    case None =>
  }

  /** The renderer's examples: `integer` becomes `int`; the other types keep their names. */
  lemma IntegerIsInt()
    ensures TypeToErType("integer") == "int"
  {
    ErClause0();
    FirstMatchIsLeast(ErTypes, "integer", 0);
    assert Lower("integer") == "integer";
  }

  /** Each value other than `int` is its own ER type, as for `string`, `text`, `datetime` and `json`. */
  lemma TypeToErTypeOfResult(i: nat)
    requires 1 <= i < |ErTypes|
    ensures TypeToErType(ErTypes[i].result) == ErTypes[i].result
  {
    ErResultLowerCase(i);
    LowerOfLowerCase(ErTypes[i].result);
    ErResultMatchesItself(i);
    FirstMatchIsLeast(ErTypes, ErTypes[i].result, i);
  }

  /** Unlike the class-diagram table, this one sends a timestamp to `datetime`. */
  lemma TimestampIsDatetime()
    ensures TypeToErType("timestamp") == "datetime"
  {
    ErClause4("timestamp");
    FirstMatchIsLeast(ErTypes, "timestamp", 4);
    assert Lower("timestamp") == "timestamp";
  }

  /** The rank of a constraint marker in the fixed order PK, FK, UK. */
  function ConstraintRank(marker: string): nat {
    if marker == "PK" then 0 else if marker == "FK" then 1 else 2
  }

  /** The markers of an attribute: each present exactly when its flag is set. */
  function Constraints(a: ErAttribute): (r: seq<string>)
    ensures "PK" in r <==> a.primaryKey
    ensures "FK" in r <==> a.foreignKey
    ensures "UK" in r <==> a.unique
  {
    (if a.primaryKey then ["PK"] else [])
    + (if a.foreignKey then ["FK"] else [])
    + (if a.unique then ["UK"] else [])
  }

  /** The markers are always listed in the order PK, FK, UK, each at most once. */
  lemma ConstraintsInFixedOrder(a: ErAttribute)
    ensures var r := Constraints(a);
      && (forall k :: 0 <= k < |r| ==> r[k] == "PK" || r[k] == "FK" || r[k] == "UK")
      && (forall i, j :: 0 <= i < j < |r| ==> ConstraintRank(r[i]) < ConstraintRank(r[j]))
  {
  }

  /** A space and the space-joined markers, or nothing at all when there are none. */
  function ConstraintSuffix(a: ErAttribute): string {
    var markers := Constraints(a);
    if |markers| > 0 then " " + JoinWith(markers, " ") else ""
  }

  /** `<ertype> <name>`, then the constraint markers if any. */
  function AttributeLine(a: ErAttribute): string {
    MemberIndent + TypeToErType(a.typ) + " " + a.name + ConstraintSuffix(a)
  }

  /** The suffixes the renderer's examples show: `PK`, `FK`, `UK`, and nothing when no flag is set. */
  lemma ConstraintSuffixExamples(name: string, typ: string)
    ensures ConstraintSuffix(ErAttribute(name, typ, true, false, false)) == " PK"
    ensures ConstraintSuffix(ErAttribute(name, typ, false, true, false)) == " FK"
    ensures ConstraintSuffix(ErAttribute(name, typ, false, false, true)) == " UK"
    ensures ConstraintSuffix(ErAttribute(name, typ, false, false, false)) == ""
  {
    AppendNil(["PK"]);
    AppendNil(["FK"]);
    AppendNil(["UK"]);
    AppendNil<string>([]);
    assert Constraints(ErAttribute(name, typ, true, false, false)) == ["PK"];
    assert Constraints(ErAttribute(name, typ, false, true, false)) == ["FK"];
    assert Constraints(ErAttribute(name, typ, false, false, true)) == ["UK"];
  }

  /** All three markers are separated by single spaces, in the fixed order. */
  lemma AllConstraintsSuffix(name: string, typ: string)
    ensures ConstraintSuffix(ErAttribute(name, typ, true, true, true)) == " PK FK UK"
  {
    var all := Constraints(ErAttribute(name, typ, true, true, true));
    assert all == ["PK", "FK", "UK"];
    assert all[1..] == ["FK", "UK"];
    assert all[1..][1..] == ["UK"];
    assert JoinWith(all[1..], " ") == "FK" + " " + "UK";
  }

  /** The example line `int id PK`. */
  lemma PrimaryKeyIdExample()
    ensures AttributeLine(ErAttribute("id", "integer", true, false, false)) == MemberIndent + "int" + " " + "id" + " PK"
  {
    IntegerIsInt();
    ConstraintSuffixExamples("id", "integer");
  }

  /**
   * The lines of an entity block: the upper-cased name and an opening
   * brace, one line per attribute in order, the closing brace and an empty
   * line.
   */
  function EntityLines(e: Entity): (r: seq<string>)
    ensures |r| == |e.attributes| + 3
    ensures r[0] == Indent + Upper(e.name) + " {"
    ensures r[|r| - 2] == Indent + "}" && r[|r| - 1] == ""
  {
    [Indent + Upper(e.name) + " {"] + (AttributeLines(e.attributes) + EntityClose)
  }

  /** The closing brace and the empty line that end an entity block. */
  const EntityClose: seq<string> := [Indent + "}", ""]

  /** Between the opening and the closing brace: one line per attribute, in input order. */
  lemma EntityLinesMembers(e: Entity)
    ensures forall i :: 0 <= i < |e.attributes| ==> EntityLines(e)[1 + i] == AttributeLine(e.attributes[i])
  {
    var attrs := AttributeLines(e.attributes);
    forall i | 0 <= i < |e.attributes|
      ensures EntityLines(e)[1 + i] == AttributeLine(e.attributes[i])
    {
      IndexSecond([Indent + Upper(e.name) + " {"], attrs, EntityClose, i);
    }
  }

  function AttributeLines(attributes: seq<ErAttribute>): (r: seq<string>)
    ensures |r| == |attributes|
    ensures forall i :: 0 <= i < |attributes| ==> r[i] == AttributeLine(attributes[i])
  {
    seq(|attributes|, i requires 0 <= i < |attributes| => AttributeLine(attributes[i]))
  }

  /** `render_entity`: the block's lines joined. */
  function RenderEntity(e: Entity): string {
    Join(EntityLines(e))
  }

  /** Identifying relationships are drawn solid, the others dotted. */
  function LineType(identifying: bool): (r: string)
    ensures r == "--" || r == ".."
    ensures identifying <==> r == "--"
  {
    if identifying then "--" else ".."
  }

  /** The upper-cased source and its cardinality symbol, indented. */
  function SourcePart(rel: ErRelationship): string {
    Indent + Upper(rel.source) + " " + CardinalitySymbol(rel.sourceCardinality)
  }

  /** The target's cardinality symbol, the upper-cased target and the quoted label. */
  function TargetPart(rel: ErRelationship): string {
    CardinalitySymbol(rel.targetCardinality) + " " + Upper(rel.target) + " : \"" + rel.labelText.GetOr("") + "\""
  }

  /** `render_relationship`: `SRC <s><lt><t> TGT : "<label>"`. */
  function RelationshipLine(rel: ErRelationship): string {
    SourcePart(rel) + LineType(rel.identifying) + TargetPart(rel)
  }

  /** The two characters after the source's symbol are `--` exactly for an identifying relationship, `..` otherwise. */
  lemma LineTypeShowsIdentifying(rel: ErRelationship)
    ensures var r := RelationshipLine(rel);
      var k := |SourcePart(rel)|;
      && k + 2 <= |r|
      && (rel.identifying <==> r[k..k + 2] == "--")
      && (!rel.identifying <==> r[k..k + 2] == "..")
  {
    var r := RelationshipLine(rel);
    assert r[|SourcePart(rel)|..|SourcePart(rel)| + 2] == LineType(rel.identifying);
  }

  /** A missing label is drawn as an empty quoted label. */
  lemma MissingLabelIsEmpty(rel: ErRelationship)
    ensures RelationshipLine(rel.(labelText := None)) == RelationshipLine(rel.(labelText := Some("")))
  {
  }

  /**
   * The schema parser's relationships carry the tokens `||` and `}o`, which
   * are symbols rather than tokens this table knows, so both ends come out
   * as exactly-one.
   */
  lemma SchemaTokensRenderAsOneToOne(source: string, target: string, caption: string)
    ensures RelationshipLine(ErRelationship(source, target, Some(caption), Some("||"), Some("}o"), true))
      == Indent + Upper(source) + " " + "||" + "--" + "||" + " " + Upper(target) + " : \"" + caption + "\""
  {
  }

  function EntityBlocks(entities: seq<Entity>): seq<seq<string>> {
    seq(|entities|, i requires 0 <= i < |entities| => EntityLines(entities[i]))
  }

  function RelationshipLines(rels: seq<ErRelationship>): (r: seq<string>)
    ensures |r| == |rels|
    ensures forall i :: 0 <= i < |rels| ==> r[i] == RelationshipLine(rels[i])
  {
    seq(|rels|, i requires 0 <= i < |rels| => RelationshipLine(rels[i]))
  }

  /** The relationship lines and a blank separator, or nothing when there are no relationships. */
  function RelationshipSection(rels: seq<ErRelationship>): seq<string> {
    if |rels| > 0 then RelationshipLines(rels) + [""] else []
  }

  /** `render`: `erDiagram`, the relationship section, then each entity block, joined by newlines. */
  function Render(d: ErDiagram): string {
    Join(["erDiagram"] + RelationshipSection(d.relationships) + JoinEach(EntityBlocks(d.entities)))
  }

  /** The lines of the rendered text, entity blocks spliced in line by line. */
  function RenderLines(d: ErDiagram): seq<string> {
    ["erDiagram"] + RelationshipSection(d.relationships) + Flatten(EntityBlocks(d.entities))
  }

  /**
   * With relationships, the lines open with `erDiagram`, then the
   * relationship lines in order, then exactly one blank line.
   */
  lemma RenderLinesWithRelationships(d: ErDiagram)
    requires |d.relationships| > 0
    ensures |RenderLines(d)| > |d.relationships| + 1
    ensures RenderLines(d)[0] == "erDiagram" && RenderLines(d)[|d.relationships| + 1] == ""
    ensures forall k :: 1 <= k <= |d.relationships| ==> RenderLines(d)[k] == RelationshipLine(d.relationships[k - 1])
  {
    var r := RenderLines(d);
    var lines := RelationshipLines(d.relationships);
    var rest := Flatten(EntityBlocks(d.entities));
    assert r == ["erDiagram"] + (lines + [""]) + rest;
    AppendAssoc(["erDiagram"], lines + [""], rest);
    AppendAssoc(lines, [""], rest);
    IndexThird(["erDiagram"], lines, [""], rest, 0);
    forall k | 1 <= k <= |d.relationships|
      ensures r[k] == RelationshipLine(d.relationships[k - 1])
    {
      IndexSecond(["erDiagram"], lines, [""] + rest, k - 1);
    }
  }

  /** Without relationships the entity lines follow `erDiagram` directly, with no blank line. */
  lemma RenderLinesWithoutRelationships(d: ErDiagram)
    requires |d.relationships| == 0
    ensures RenderLines(d) == ["erDiagram"] + Flatten(EntityBlocks(d.entities))
  {
    var section := RelationshipSection(d.relationships);
    assert section == [];
    assert ["erDiagram"] + section == ["erDiagram"];
  }

  /** The rendered text is the join of its lines. */
  lemma RenderIsJoinOfLines(d: ErDiagram)
    ensures Render(d) == Join(RenderLines(d))
  {
    JoinSplice(["erDiagram"] + RelationshipSection(d.relationships), EntityBlocks(d.entities), []);
    assert ["erDiagram"] + RelationshipSection(d.relationships) + JoinEach(EntityBlocks(d.entities)) + []
      == ["erDiagram"] + RelationshipSection(d.relationships) + JoinEach(EntityBlocks(d.entities));
    assert ["erDiagram"] + RelationshipSection(d.relationships) + Flatten(EntityBlocks(d.entities)) + []
      == RenderLines(d);
  }

  /** Every string the diagram contributes is a single line. */
  predicate SingleLineStrings(d: ErDiagram) {
    && (forall i :: 0 <= i < |d.entities| ==> EntitySingleLine(d.entities[i]))
    && (forall i :: 0 <= i < |d.relationships| ==> RelationshipSingleLine(d.relationships[i]))
  }

  predicate EntitySingleLine(e: Entity) {
    && NoNewline(e.name)
    && forall i :: 0 <= i < |e.attributes| ==> NoNewline(e.attributes[i].name) && NoNewline(e.attributes[i].typ)
  }

  predicate RelationshipSingleLine(rel: ErRelationship) {
    && NoNewline(rel.source) && NoNewline(rel.target)
    && (rel.labelText.Some? ==> NoNewline(rel.labelText.value))
  }

  lemma TypeToErTypeNoNewline(t: string)
    requires NoNewline(t)
    ensures NoNewline(TypeToErType(t))
  {
    NoNewlineLower(t);
  }

  lemma ConstraintSuffixNoNewline(a: ErAttribute)
    ensures NoNewline(ConstraintSuffix(a))
  {
    JoinWithNoNewline(Constraints(a), " ");
  }

  lemma EntityLinesSingle(e: Entity)
    requires EntitySingleLine(e)
    ensures AllNoNewline(EntityLines(e))
  {
    NoNewlineUpper(e.name);
    var attributes := AttributeLines(e.attributes);
    forall i | 0 <= i < |attributes|
      ensures NoNewline(attributes[i])
    {
      TypeToErTypeNoNewline(e.attributes[i].typ);
      ConstraintSuffixNoNewline(e.attributes[i]);
    }
    AllNoNewlineAppend(attributes, EntityClose);
    AllNoNewlineAppend([Indent + Upper(e.name) + " {"], attributes + EntityClose);
  }

  lemma RelationshipLineSingle(rel: ErRelationship)
    requires RelationshipSingleLine(rel)
    ensures NoNewline(RelationshipLine(rel))
  {
    NoNewlineUpper(rel.source);
    NoNewlineUpper(rel.target);
  }

  /**
   * Splitting the rendered text at its newlines gives `erDiagram`, the
   * relationship lines and one blank line when there are relationships,
   * then every entity block's lines in input order.
   */
  lemma RenderLinesOf(d: ErDiagram)
    requires SingleLineStrings(d)
    ensures LinesOf(Render(d)) == RenderLines(d)
  {
    RenderIsJoinOfLines(d);
    var blocks := EntityBlocks(d.entities);
    forall i | 0 <= i < |blocks|
      ensures AllNoNewline(blocks[i])
    {
      EntityLinesSingle(d.entities[i]);
    }
    FlattenNoNewline(blocks);
    var rels := RelationshipLines(d.relationships);
    forall i | 0 <= i < |rels|
      ensures NoNewline(rels[i])
    {
      RelationshipLineSingle(d.relationships[i]);
    }
    AllNoNewlineAppend(rels, [""]);
    AllNoNewlineAppend(["erDiagram"], RelationshipSection(d.relationships));
    AllNoNewlineAppend(["erDiagram"] + RelationshipSection(d.relationships), Flatten(blocks));
    LinesOfJoin(RenderLines(d));
  }

  /** With neither entities nor relationships the text is the keyword alone. */
  lemma EmptyErDiagram()
    ensures Render(ErDiagram([], [])) == "erDiagram"
  {
    assert ["erDiagram"] + RelationshipSection([]) + JoinEach(EntityBlocks([])) == ["erDiagram"];
  }
}
