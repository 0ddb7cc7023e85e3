/**
 * The schema parser: one ER entity per application table, with primary
 * and foreign keys read off the column names, and one relationship per
 * foreign-key column whose referenced table can be inferred.
 *
 * The table list is a parameter (the connection is not modelled), and so
 * is `pluralize`, which may fail (`None`): the parser then skips the column.
 */
module SchemaParser {
  import opened Wrappers
  import opened Seqs
  import opened Text
  import opened DiagramModel
  import opened Descriptors
  import ErDiagramRenderer

  /** The tables Rails keeps for itself. */
  const InternalTables: seq<string> := ["schema_migrations", "ar_internal_metadata"]

  predicate IsInternalTable(tableName: string) {
    tableName in InternalTables
  }

  /** `excluded?` excludes nothing. */
  predicate Excluded(tableName: string) {
    false
  }

  /** A table that yields an entity: neither internal nor excluded. */
  predicate KeptTable(t: TableDescriptor) {
    !IsInternalTable(t.name) && !Excluded(t.name)
  }

  predicate IsForeignKey(columnName: string) {
    EndsWith(columnName, "_id")
  }

  /** `parse_column`: the key flags come from the column name alone. */
  function ParseColumn(c: ColumnDescriptor): (a: ErAttribute)
    ensures a.name == c.name && a.typ == c.typ
    ensures a.primaryKey <==> c.name == "id"
    ensures a.foreignKey <==> EndsWith(c.name, "_id")
    ensures !a.unique
  {
    ErAttribute(c.name, c.typ, c.name == "id", IsForeignKey(c.name), false)
  }

  /** No column is both the primary key and a foreign key. */
  lemma NoColumnIsBothKeys(c: ColumnDescriptor)
    ensures !(ParseColumn(c).primaryKey && ParseColumn(c).foreignKey)
  {
    var a := ParseColumn(c);
    if a.primaryKey {
      assert c.name == "id";
      assert |c.name| < |"_id"|;
    }
  }

  /** `parse_table`: one attribute per column, in column order. */
  function ParseTable(t: TableDescriptor): (e: Entity)
    ensures e.name == t.name
    ensures |e.attributes| == |t.columns|
    ensures forall i :: 0 <= i < |t.columns| ==> e.attributes[i].name == t.columns[i].name
    ensures forall i :: 0 <= i < |t.columns| ==> e.attributes[i].typ == t.columns[i].typ
    ensures forall i :: 0 <= i < |t.columns| ==> e.attributes[i] == ParseColumn(t.columns[i])
  {
    Entity(t.name, seq(|t.columns|, i requires 0 <= i < |t.columns| => ParseColumn(t.columns[i])))
  }

  // Ruby's `sub(/_id$/, "")`: `$` matches at the end of the string and
  // before any newline, and `sub` replaces only the leftmost match.

  /** `_id` occurs at `i`, at the end of `s` or right before a newline. */
  predicate IdSuffixAt(s: string, i: nat) {
    i + 3 <= |s| && s[i..i + 3] == "_id" && (i + 3 == |s| || s[i + 3] == '\n')
  }

  /** The leftmost match at or after `from`. */
  function FirstIdSuffix(s: string, from: nat): (r: Option<nat>)
    requires from <= |s|
    ensures r.Some? ==> from <= r.value && IdSuffixAt(s, r.value)
    ensures r.Some? ==> forall j: nat :: from <= j < r.value ==> !IdSuffixAt(s, j)
    ensures r.None? ==> forall j: nat :: from <= j ==> !IdSuffixAt(s, j)
    decreases |s| - from
  {
    if from + 3 > |s| then None
    else if IdSuffixAt(s, from) then Some(from)
    else FirstIdSuffix(s, from + 1)
  }

  /** The name with its leftmost line-final `_id` removed. */
  function StripIdSuffix(name: string): string {
    match FirstIdSuffix(name, 0)
    case None => name
    case Some(i) => name[..i] + name[i + 3..]
  }

  /** `sub` semantics: the leftmost match is cut out, and a name without a match is unchanged. */
  lemma StripIdSuffixIsLeftmost(name: string)
    ensures (forall i: nat :: !IdSuffixAt(name, i)) ==> StripIdSuffix(name) == name
    ensures forall i: nat ::
              (IdSuffixAt(name, i) && (forall j: nat :: j < i ==> !IdSuffixAt(name, j))
               ==> StripIdSuffix(name) == name[..i] + name[i + 3..])
  {
  }

  /** For a one-line foreign-key name the suffix removed is the final `_id`. */
  lemma StripIdSuffixOfForeignKey(name: string)
    requires NoNewline(name) && IsForeignKey(name)
    ensures StripIdSuffix(name) == name[..|name| - 3]
  {
    var i := |name| - 3;
    assert name[i..i + 3] == name[|name| - 3..];
    assert IdSuffixAt(name, i);
    forall j | 0 <= j < i
      ensures !IdSuffixAt(name, j)
    {
      assert name[j + 3] in name;
    }
    assert name[i + 3..] == [];
    StripIdSuffixIsLeftmost(name);
  }

  /** Appending `_id` to a one-line name and stripping it again gives the name back. */
  lemma StripIdSuffixRestores(base: string)
    requires NoNewline(base)
    ensures StripIdSuffix(base + "_id") == base
  {
    var name := base + "_id";
    EndsWithAppend(base, "_id");
    assert NoNewline(name) by {
      assert forall k :: 0 <= k < |name| ==> name[k] != '\n' by {
        forall k | 0 <= k < |name| ensures name[k] != '\n' {
          if k < |base| { assert name[k] == base[k] && base[k] in base; }
        }
      }
    }
    StripIdSuffixOfForeignKey(name);
    assert name[..|name| - 3] == base;
  }

  /** Only the first line's `_id` goes: `$` matches before a newline and `sub` replaces once. */
  lemma StripIdSuffixFirstLineOnly()
    ensures StripIdSuffix("a_id\nb_id") == "a\nb_id"
  {
    var s := "a_id\nb_id";
    assert IdSuffixAt(s, 1);
    assert !IdSuffixAt(s, 0);
    assert s[..1] + s[4..] == "a\nb_id";
    StripIdSuffixIsLeftmost(s);
  }

  /** `infer_target_table`; `None` when `pluralize` raises. */
  function InferTargetTable(foreignKeyName: string, pluralize: string -> Option<string>): Option<string> {
    pluralize(StripIdSuffix(foreignKeyName))
  }

  /** `user_id` refers to the plural of `user`. */
  lemma InferTargetTableOfForeignKey(base: string, pluralize: string -> Option<string>)
    requires NoNewline(base)
    ensures InferTargetTable(base + "_id", pluralize) == pluralize(base)
  {
    StripIdSuffixRestores(base);
  }

  /** The relationship a foreign key of `tableName` to `target` yields. */
  function SchemaEdge(tableName: string, target: string): ErRelationship {
    ErRelationship(tableName, target, Some("has many"), Some("||"), Some("}o"), true)
  }

  /** The relationship one column yields, if it is a foreign key whose target can be inferred. */
  function ForeignKeyEdge(tableName: string, c: ColumnDescriptor, pluralize: string -> Option<string>)
    : (r: Option<ErRelationship>)
    ensures r.Some? <==> IsForeignKey(c.name) && InferTargetTable(c.name, pluralize).Some?
    ensures r.Some? ==> r.value == SchemaEdge(tableName, InferTargetTable(c.name, pluralize).value)
  {
    if !IsForeignKey(c.name) then None
    else match InferTargetTable(c.name, pluralize)
      case None => None
      case Some(target) => Some(SchemaEdge(tableName, target))
  }

  /** `extract_foreign_keys`: every edge leaves this table and comes from one of its foreign-key columns. */
  function ExtractForeignKeys(tableName: string, columns: seq<ColumnDescriptor>, pluralize: string -> Option<string>)
    : (r: seq<ErRelationship>)
    ensures |r| <= |columns|
    ensures forall e | e in r :: e == SchemaEdge(tableName, e.target)
    decreases |columns|
  {
    if |columns| == 0 then []
    else (ForeignKeyEdge(tableName, columns[0], pluralize).ToSeq()
          + ExtractForeignKeys(tableName, columns[1..], pluralize))
  }

  /** Each edge's target is inferred from one of the table's foreign-key columns. */
  lemma {:induction false} ExtractForeignKeysSound(tableName: string, columns: seq<ColumnDescriptor>,
                                                   pluralize: string -> Option<string>)
    ensures forall e | e in ExtractForeignKeys(tableName, columns, pluralize) :: exists c | c in columns ::
      IsForeignKey(c.name) && InferTargetTable(c.name, pluralize) == Some(e.target)
    decreases |columns|
  {
    if |columns| > 0 {
      ExtractForeignKeysSound(tableName, columns[1..], pluralize);
      assert forall c | c in columns[1..] :: c in columns;
      assert columns[0] in columns;
    }
  }

  /** Foreign keys are extracted one column at a time, in column order. */
  lemma {:induction false} ExtractForeignKeysAppend(tableName: string, a: seq<ColumnDescriptor>, b: seq<ColumnDescriptor>,
                                                    pluralize: string -> Option<string>)
    ensures ExtractForeignKeys(tableName, a + b, pluralize)
      == ExtractForeignKeys(tableName, a, pluralize) + ExtractForeignKeys(tableName, b, pluralize)
    decreases |a|
  {
    if |a| == 0 {
      assert a + b == b;
      AppendNil(ExtractForeignKeys(tableName, b, pluralize));
    } else {
      assert (a + b)[0] == a[0];
      assert (a + b)[1..] == a[1..] + b;
      ExtractForeignKeysAppend(tableName, a[1..], b, pluralize);
      AppendAssoc(ForeignKeyEdge(tableName, a[0], pluralize).ToSeq(),
                  ExtractForeignKeys(tableName, a[1..], pluralize), ExtractForeignKeys(tableName, b, pluralize));
    }
  }

  /**
   * One column's edge sits in place among the others' edges; a foreign key
   * whose target cannot be inferred drops only its own edge.
   */
  lemma ForeignKeyInPlace(tableName: string, a: seq<ColumnDescriptor>, c: ColumnDescriptor, b: seq<ColumnDescriptor>,
                          pluralize: string -> Option<string>)
    ensures ExtractForeignKeys(tableName, a + [c] + b, pluralize)
      == ExtractForeignKeys(tableName, a, pluralize) + ForeignKeyEdge(tableName, c, pluralize).ToSeq()
         + ExtractForeignKeys(tableName, b, pluralize)
  {
    ExtractForeignKeysAppend(tableName, a + [c], b, pluralize);
    ExtractForeignKeysAppend(tableName, a, [c], pluralize);
    assert [c][1..] == [];
    AppendNil(ForeignKeyEdge(tableName, c, pluralize).ToSeq());
    assert ExtractForeignKeys(tableName, [c], pluralize) == ForeignKeyEdge(tableName, c, pluralize).ToSeq() + [];
  }

  /** The foreign-key columns, in order. */
  function ForeignKeyColumns(columns: seq<ColumnDescriptor>): seq<ColumnDescriptor> {
    if |columns| == 0 then []
    else (if IsForeignKey(columns[0].name) then [columns[0]] else []) + ForeignKeyColumns(columns[1..])
  }

  /** When every target can be inferred, each foreign-key column yields exactly one edge, in column order. */
  lemma {:induction false} ExtractForeignKeysComplete(tableName: string, columns: seq<ColumnDescriptor>,
                                                      pluralize: string -> Option<string>)
    requires forall c | c in columns && IsForeignKey(c.name) :: InferTargetTable(c.name, pluralize).Some?
    ensures var r := ExtractForeignKeys(tableName, columns, pluralize);
      var fks := ForeignKeyColumns(columns);
      && |r| == |fks|
      && forall i :: 0 <= i < |r| ==> InferTargetTable(fks[i].name, pluralize) == Some(r[i].target)
    decreases |columns|
  {
    if |columns| > 0 {
      var c := columns[0];
      var rest := ExtractForeignKeys(tableName, columns[1..], pluralize);
      var fkRest := ForeignKeyColumns(columns[1..]);
      assert forall d | d in columns[1..] :: d in columns;
      ExtractForeignKeysComplete(tableName, columns[1..], pluralize);
      var r := ExtractForeignKeys(tableName, columns, pluralize);
      var fks := ForeignKeyColumns(columns);
      if IsForeignKey(c.name) {
        assert c in columns;
        var e := SchemaEdge(tableName, InferTargetTable(c.name, pluralize).value);
        assert ForeignKeyEdge(tableName, c, pluralize) == Some(e);
        assert r == [e] + rest;
        assert fks == [c] + fkRest;
        forall i | 0 <= i < |r|
          ensures InferTargetTable(fks[i].name, pluralize) == Some(r[i].target)
        {
          if i > 0 {
            ConsIndex(e, rest, i);
            ConsIndex(c, fkRest, i);
          }
        }
      } else {
        AppendNil(rest);
        AppendNil(fkRest);
        assert r == [] + rest;
        assert fks == [] + fkRest;
      }
    }
  }

  /** A table without foreign-key columns yields no edge. */
  lemma {:induction false} NoForeignKeyNoEdge(tableName: string, columns: seq<ColumnDescriptor>,
                                              pluralize: string -> Option<string>)
    requires forall c | c in columns :: !IsForeignKey(c.name)
    ensures ExtractForeignKeys(tableName, columns, pluralize) == []
    decreases |columns|
  {
    if |columns| > 0 {
      assert columns[0] in columns;
      assert forall c | c in columns[1..] :: c in columns;
      NoForeignKeyNoEdge(tableName, columns[1..], pluralize);
    }
  }

  /** `parse` over the tables the connection lists, in order. */
  function Parse(tables: seq<TableDescriptor>, pluralize: string -> Option<string>): (d: ErDiagram)
    ensures |d.entities| <= |tables|
    decreases |tables|
  {
    if |tables| == 0 then ErDiagram([], [])
    else
      var rest := Parse(tables[1..], pluralize);
      var t := tables[0];
      if !KeptTable(t) then rest
      else ErDiagram([ParseTable(t)] + rest.entities,
                     ExtractForeignKeys(t.name, t.columns, pluralize) + rest.relationships)
  }

  /** Parsing is compositional: the tables are handled one at a time, in order. */
  lemma {:induction false} ParseAppend(a: seq<TableDescriptor>, b: seq<TableDescriptor>, pluralize: string -> Option<string>)
    ensures Parse(a + b, pluralize) == Parse(a, pluralize).Then(Parse(b, pluralize))
    decreases |a|
  {
    var db := Parse(b, pluralize);
    if |a| == 0 {
      assert a + b == b;
      AppendNil(db.entities);
      AppendNil(db.relationships);
    } else {
      var t := a[0];
      assert (a + b)[0] == t;
      assert (a + b)[1..] == a[1..] + b;
      ParseAppend(a[1..], b, pluralize);
      var dr := Parse(a[1..], pluralize);
      if KeptTable(t) {
        var edges := ExtractForeignKeys(t.name, t.columns, pluralize);
        AppendAssoc([ParseTable(t)], dr.entities, db.entities);
        AppendAssoc(edges, dr.relationships, db.relationships);
      }
    }
  }

  /** An internal table contributes nothing, wherever it stands. */
  lemma InternalTableDropped(a: seq<TableDescriptor>, t: TableDescriptor, b: seq<TableDescriptor>,
                             pluralize: string -> Option<string>)
    requires IsInternalTable(t.name)
    ensures Parse(a + [t] + b, pluralize) == Parse(a, pluralize).Then(Parse(b, pluralize))
  {
    var da := Parse(a, pluralize);
    var db := Parse(b, pluralize);
    ParseAppend(a + [t], b, pluralize);
    ParseAppend(a, [t], pluralize);
    assert Parse([t], pluralize) == ErDiagram([], []) by {
      assert [t][1..] == [];
    }
    AppendNil(da.entities);
    AppendNil(da.relationships);
  }

  /** Any other table contributes its entity and then its edges, in place. */
  lemma TableInPlace(a: seq<TableDescriptor>, t: TableDescriptor, b: seq<TableDescriptor>,
                     pluralize: string -> Option<string>)
    requires !IsInternalTable(t.name)
    ensures var d := Parse(a + [t] + b, pluralize);
      var da := Parse(a, pluralize);
      var db := Parse(b, pluralize);
      && d.entities == da.entities + [ParseTable(t)] + db.entities
      && d.relationships == da.relationships + ExtractForeignKeys(t.name, t.columns, pluralize) + db.relationships
  {
    ParseAppend(a + [t], b, pluralize);
    ParseAppend(a, [t], pluralize);
    assert [t][1..] == [];
    AppendNil([ParseTable(t)]);
    AppendNil(ExtractForeignKeys(t.name, t.columns, pluralize));
    assert Parse([t], pluralize).entities == [ParseTable(t)] + [];
  }

  /** The entities are exactly the parsed non-internal tables. */
  lemma {:induction false} ParseEntities(tables: seq<TableDescriptor>, pluralize: string -> Option<string>)
    ensures var d := Parse(tables, pluralize);
      && (forall e | e in d.entities :: !IsInternalTable(e.name) && exists t | t in tables :: ParseTable(t) == e)
      && (forall t | t in tables && !IsInternalTable(t.name) :: ParseTable(t) in d.entities)
    decreases |tables|
  {
    if |tables| > 0 {
      ParseEntities(tables[1..], pluralize);
      assert forall t | t in tables[1..] :: t in tables;
      assert forall t | t in tables :: t == tables[0] || t in tables[1..];
    }
  }

  /** Every relationship is a schema edge leaving a table that yielded an entity. */
  lemma {:induction false} ParseRelationships(tables: seq<TableDescriptor>, pluralize: string -> Option<string>)
    ensures forall e | e in Parse(tables, pluralize).relationships ::
      && e == SchemaEdge(e.source, e.target)
      && exists t | t in tables :: !IsInternalTable(t.name) && t.name == e.source
    decreases |tables|
  {
    if |tables| > 0 {
      ParseRelationships(tables[1..], pluralize);
      assert forall t | t in tables[1..] :: t in tables;
    }
  }

  /**
   * Rendered, every schema edge is one-to-one at both ends: the renderer
   * does not know the `}o` token the parser emits.
   */
  lemma SchemaEdgesRenderOneToOne(tables: seq<TableDescriptor>, pluralize: string -> Option<string>)
    ensures forall e | e in Parse(tables, pluralize).relationships ::
      ErDiagramRenderer.RelationshipLine(e)
        == ErDiagramRenderer.Indent + Upper(e.source) + " " + "||" + "--" + "||" + " " + Upper(e.target)
           + " : \"" + "has many" + "\""
  {
    ParseRelationships(tables, pluralize);
    forall e | e in Parse(tables, pluralize).relationships
      ensures ErDiagramRenderer.RelationshipLine(e)
        == ErDiagramRenderer.Indent + Upper(e.source) + " " + "||" + "--" + "||" + " " + Upper(e.target)
           + " : \"" + "has many" + "\""
    {
      ErDiagramRenderer.SchemaTokensRenderAsOneToOne(e.source, e.target, "has many");
    }
  }

  /** A stand-in inflection for the example below. */
  function AppendS(s: string): Option<string> {
    Some(s + "s")
  }

  /** A target is not checked against the tables: `comments.post_id` refers to `posts` even when there is no such table. */
  lemma DanglingTargetExample()
    ensures var d := Parse([TableDescriptor("comments", [ColumnDescriptor("post_id", "integer")])], AppendS);
      && d.relationships == [SchemaEdge("comments", "posts")]
      && forall e | e in d.entities :: e.name != "posts"
  {
    var pluralize := AppendS;
    var c := ColumnDescriptor("post_id", "integer");
    var t := TableDescriptor("comments", [c]);
    assert "post" + "_id" == "post_id";
    assert "post" + "s" == "posts";
    assert NoNewline("post");
    StripIdSuffixRestores("post");
    assert StripIdSuffix("post_id") == "post";
    assert InferTargetTable("post_id", pluralize) == Some("posts");
    assert IsForeignKey("post_id") by { EndsWithAppend("post", "_id"); }
    assert ExtractForeignKeys("comments", [c], pluralize) == [SchemaEdge("comments", "posts")] by {
      assert [c][1..] == [];
    }
    assert !IsInternalTable("comments");
    assert [t][1..] == [];
  }
}
