/**
 * The model parser: one class per model that is not excluded, its
 * columns as public attributes, its associations as labelled edges
 * with cardinalities, and an edge from a concrete parent model.
 *
 * The model list is a parameter (eager loading is not modelled); a
 * `NameError` while building an association and any error while reading
 * the superclass are rescued, and so appear here as `None` and as an
 * unreadable superclass.
 */
module ModelParser {
  import opened Wrappers
  import opened Seqs
  import opened DiagramModel
  import opened Descriptors
  import Configuration
  import ClassDiagramRenderer
  import BaseRenderer

  /** `excluded?`: the model's name is listed in the configuration. */
  predicate Excluded(config: Configuration.Config, m: ModelDescriptor) {
    m.name in config.excludeModels
  }

  /** The timestamp and key columns hidden unless `all_columns` is given. */
  const MagicFields: seq<string> := ["id", "created_at", "updated_at"]

  /** `magic_field?`; with `all_columns` no field is magic. */
  predicate MagicField(opts: ParseOptions, fieldName: string) {
    !opts.allColumns && fieldName in MagicFields
  }

  /** `columns.reject { |col| magic_field?(col.name) }`. */
  function NonMagicColumns(opts: ParseOptions, columns: seq<ColumnDescriptor>): (r: seq<ColumnDescriptor>)
    ensures |r| <= |columns|
    ensures forall c | c in r :: c in columns && !MagicField(opts, c.name)
    decreases |columns|
  {
    if |columns| == 0 then []
    else (if MagicField(opts, columns[0].name) then [] else [columns[0]]) + NonMagicColumns(opts, columns[1..])
  }

  lemma {:induction false} NonMagicColumnsAppend(opts: ParseOptions, a: seq<ColumnDescriptor>, b: seq<ColumnDescriptor>)
    ensures NonMagicColumns(opts, a + b) == NonMagicColumns(opts, a) + NonMagicColumns(opts, b)
    decreases |a|
  {
    if |a| == 0 {
      assert a + b == b;
    } else {
      var h := if MagicField(opts, a[0].name) then [] else [a[0]];
      var ra := NonMagicColumns(opts, a[1..]);
      var rb := NonMagicColumns(opts, b);
      assert (a + b)[0] == a[0];
      assert (a + b)[1..] == a[1..] + b;
      assert NonMagicColumns(opts, a + b) == h + NonMagicColumns(opts, a[1..] + b);
      NonMagicColumnsAppend(opts, a[1..], b);
      assert h + (ra + rb) == (h + ra) + rb;
    }
  }

  /** Every other column is kept. */
  lemma {:induction false} NonMagicColumnsComplete(opts: ParseOptions, columns: seq<ColumnDescriptor>)
    ensures forall c | c in columns && !MagicField(opts, c.name) :: c in NonMagicColumns(opts, columns)
    decreases |columns|
  {
    if |columns| > 0 {
      NonMagicColumnsComplete(opts, columns[1..]);
      assert forall c | c in columns :: c == columns[0] || c in columns[1..];
    }
  }

  /** Dropping a magic column leaves the other columns, in their order. */
  lemma MagicColumnDropped(opts: ParseOptions, a: seq<ColumnDescriptor>, c: ColumnDescriptor, b: seq<ColumnDescriptor>)
    requires MagicField(opts, c.name)
    ensures NonMagicColumns(opts, a + [c] + b) == NonMagicColumns(opts, a + b)
  {
    NonMagicColumnsAppend(opts, a + [c], b);
    NonMagicColumnsAppend(opts, a, [c]);
    NonMagicColumnsAppend(opts, a, b);
    assert [c][1..] == [];
    assert NonMagicColumns(opts, [c]) == [];
    assert NonMagicColumns(opts, a) + [] == NonMagicColumns(opts, a);
  }

  /** The guard inside `magic_field?` makes the `all_columns` branch of `extract_columns` redundant. */
  lemma {:induction false} NonMagicColumnsWithAllColumns(opts: ParseOptions, columns: seq<ColumnDescriptor>)
    requires opts.allColumns
    ensures NonMagicColumns(opts, columns) == columns
    decreases |columns|
  {
    if |columns| > 0 {
      NonMagicColumnsWithAllColumns(opts, columns[1..]);
      assert columns == [columns[0]] + columns[1..];
    }
  }

  /** A column as a public attribute. */
  function ColumnAttribute(c: ColumnDescriptor): Attribute {
    Attribute(c.name, c.typ, Some("+"))
  }

  /** `extract_columns`: no attributes without a table; magic columns hidden unless `all_columns`. */
  function ExtractColumns(opts: ParseOptions, m: ModelDescriptor): (r: seq<Attribute>)
    ensures !m.tableExists ==> r == []
    ensures forall a | a in r :: a.visibility == Some("+")
  {
    if !m.tableExists then []
    else
      var columns := if opts.allColumns then m.columns else NonMagicColumns(opts, m.columns);
      seq(|columns|, i requires 0 <= i < |columns| => ColumnAttribute(columns[i]))
  }

  /** With `all_columns`, every column becomes an attribute, in order. */
  lemma ExtractColumnsAll(opts: ParseOptions, m: ModelDescriptor)
    requires opts.allColumns && m.tableExists
    ensures var r := ExtractColumns(opts, m);
      && |r| == |m.columns|
      && forall i :: 0 <= i < |r| ==> r[i].name == m.columns[i].name && r[i].typ == m.columns[i].typ
  {
    var r := ExtractColumns(opts, m);
    assert r == seq(|m.columns|, i requires 0 <= i < |m.columns| => ColumnAttribute(m.columns[i]));
  }

  /** Without `all_columns`, a column becomes an attribute exactly when it is not magic. */
  lemma ExtractColumnsMembership(opts: ParseOptions, m: ModelDescriptor, c: ColumnDescriptor)
    requires !opts.allColumns && m.tableExists
    ensures ColumnAttribute(c) in ExtractColumns(opts, m) <==> c in m.columns && c.name !in MagicFields
  {
    var kept := NonMagicColumns(opts, m.columns);
    var r := ExtractColumns(opts, m);
    NonMagicColumnsComplete(opts, m.columns);
    if ColumnAttribute(c) in r {
      var i :| 0 <= i < |r| && r[i] == ColumnAttribute(c);
      assert r[i] == ColumnAttribute(kept[i]);
      assert kept[i] == c;
      assert c in kept;
    }
    if c in m.columns && c.name !in MagicFields {
      assert c in kept;
      var i :| 0 <= i < |kept| && kept[i] == c;
      assert r[i] == ColumnAttribute(c);
    }
  }

  /** `extract_methods` lists nothing. */
  function ExtractMethods(m: ModelDescriptor): seq<Method> {
    []
  }

  /** `parse_model`. */
  function ParseModel(config: Configuration.Config, opts: ParseOptions, m: ModelDescriptor): (r: ClassEntity)
    ensures r.name == m.name && r.isAbstract == m.isAbstract
    ensures r.methods == []
    ensures !config.showAttributes || !m.tableExists ==> r.attributes == []
    ensures config.showAttributes ==> r.attributes == ExtractColumns(opts, m)
  {
    ClassEntity(
      m.name,
      m.isAbstract,
      if config.showAttributes then ExtractColumns(opts, m) else [],
      if config.showMethods then ExtractMethods(m) else [])
  }

  /** The four macros `build_association` knows. */
  predicate KnownMacro(macro: AssocMacro) {
    !macro.OtherMacro?
  }

  /** The macro as it reads in a label. */
  function MacroName(macro: AssocMacro): string {
    match macro
    case BelongsTo => "belongs_to"
    case HasOne => "has_one"
    case HasMany => "has_many"
    case HasAndBelongsToMany => "has_and_belongs_to_many"
    case OtherMacro(symbol) => symbol
  }

  /** An association edge from the model to the associated class; `None` when the class cannot be resolved. */
  function AssociationEdge(modelName: string, a: AssociationDescriptor, sourceCard: string, targetCard: string)
    : Option<Relationship>
  {
    match a.className
    case None => None
    case Some(target) =>
      Some(Relationship(modelName, target, Association, Some(MacroName(a.macro) + " " + a.name),
                        Some(sourceCard), Some(targetCard)))
  }

  /**
   * `build_association`: an edge exactly for a known macro whose class
   * resolves, `belongs_to` only when asked for; its cardinalities follow
   * the macro.
   */
  function BuildAssociation(opts: ParseOptions, modelName: string, a: AssociationDescriptor): (r: Option<Relationship>)
    ensures r.Some? <==> a.className.Some? && KnownMacro(a.macro) && (a.macro.BelongsTo? ==> opts.showBelongsTo)
    ensures r.Some? ==> && r.value.source == modelName && r.value.target == a.className.value
                        && r.value.kind == Association
                        && r.value.labelText == Some(MacroName(a.macro) + " " + a.name)
    ensures r.Some? && (a.macro.BelongsTo? || a.macro.HasOne?) ==>
      r.value.sourceCardinality == Some("1") && r.value.targetCardinality == Some("0..1")
    ensures r.Some? && a.macro.HasMany? ==>
      r.value.sourceCardinality == Some("1") && r.value.targetCardinality == Some("*")
    ensures r.Some? && a.macro.HasAndBelongsToMany? ==>
      r.value.sourceCardinality == Some("*") && r.value.targetCardinality == Some("*")
  {
    match a.macro
    case BelongsTo => if !opts.showBelongsTo then None else AssociationEdge(modelName, a, "1", "0..1")
    case HasOne => AssociationEdge(modelName, a, "1", "0..1")
    case HasMany => AssociationEdge(modelName, a, "1", "*")
    case HasAndBelongsToMany => AssociationEdge(modelName, a, "*", "*")
    case OtherMacro(_) => None
  }

  /** An association skipped by `hide_through`. */
  predicate HiddenThrough(opts: ParseOptions, a: AssociationDescriptor) {
    a.through && opts.hideThrough
  }

  /** `extract_associations`: built edges in order, `nil` ones compacted away. */
  function ExtractAssociations(opts: ParseOptions, modelName: string, assocs: seq<AssociationDescriptor>)
    : (r: seq<Relationship>)
    ensures |r| <= |assocs|
    ensures forall e | e in r :: e.source == modelName && e.kind == Association
    decreases |assocs|
  {
    if |assocs| == 0 then []
    else ((if HiddenThrough(opts, assocs[0]) then [] else BuildAssociation(opts, modelName, assocs[0]).ToSeq())
          + ExtractAssociations(opts, modelName, assocs[1..]))
  }

  lemma {:induction false} ExtractAssociationsAppend(opts: ParseOptions, modelName: string,
                                                     a: seq<AssociationDescriptor>, b: seq<AssociationDescriptor>)
    ensures ExtractAssociations(opts, modelName, a + b)
      == ExtractAssociations(opts, modelName, a) + ExtractAssociations(opts, modelName, b)
    decreases |a|
  {
    if |a| == 0 {
      assert a + b == b;
    } else {
      assert (a + b)[0] == a[0];
      assert (a + b)[1..] == a[1..] + b;
      ExtractAssociationsAppend(opts, modelName, a[1..], b);
    }
  }

  /** Where an association stands, its edge (if any) stands; a hidden `through` association leaves nothing. */
  lemma AssociationInPlace(opts: ParseOptions, modelName: string,
                           a: seq<AssociationDescriptor>, x: AssociationDescriptor, b: seq<AssociationDescriptor>)
    ensures ExtractAssociations(opts, modelName, a + [x] + b)
      == ExtractAssociations(opts, modelName, a)
         + (if HiddenThrough(opts, x) then [] else BuildAssociation(opts, modelName, x).ToSeq())
         + ExtractAssociations(opts, modelName, b)
  {
    ExtractAssociationsAppend(opts, modelName, a + [x], b);
    ExtractAssociationsAppend(opts, modelName, a, [x]);
    assert [x][1..] == [];
    var one := if HiddenThrough(opts, x) then [] else BuildAssociation(opts, modelName, x).ToSeq();
    AppendNil(one);
    assert ExtractAssociations(opts, modelName, [x]) == one + [];
  }

  /** `extract_inheritance`: an edge from the parent exactly when the parent is a concrete model. */
  function ExtractInheritance(m: ModelDescriptor): (r: seq<Relationship>)
    ensures r != [] <==> m.superclass.ParentModel? && !m.superclass.isAbstract
    ensures r != [] ==> r == [Relationship(m.superclass.name, m.name, Inheritance, None, None, None)]
  {
    match m.superclass
    case RootBase => []
    case ParentModel(parent, isAbstract) =>
      if isAbstract then [] else [Relationship(parent, m.name, Inheritance, None, None, None)]
    case UnreadableModelSuperclass => []
  }

  /** A kept model's edges: its associations, then its inheritance edge when enabled. */
  function ModelEdges(config: Configuration.Config, opts: ParseOptions, m: ModelDescriptor): seq<Relationship> {
    ExtractAssociations(opts, m.name, m.associations)
      + (if config.includeInheritance then ExtractInheritance(m) else [])
  }

  /** `parse` over the loaded models, in order. */
  function Parse(config: Configuration.Config, opts: ParseOptions, models: seq<ModelDescriptor>): (d: ClassDiagram)
    ensures |d.classes| <= |models|
    decreases |models|
  {
    if |models| == 0 then ClassDiagram([], [])
    else
      var rest := Parse(config, opts, models[1..]);
      var m := models[0];
      if Excluded(config, m) then rest
      else ClassDiagram([ParseModel(config, opts, m)] + rest.classes, ModelEdges(config, opts, m) + rest.relationships)
  }

  /** Parsing is compositional: the models are handled one at a time, in order. */
  lemma {:induction false} ParseAppend(config: Configuration.Config, opts: ParseOptions,
                                       a: seq<ModelDescriptor>, b: seq<ModelDescriptor>)
    ensures Parse(config, opts, a + b) == Parse(config, opts, a).Then(Parse(config, opts, b))
    decreases |a|
  {
    var db := Parse(config, opts, b);
    if |a| == 0 {
      assert a + b == b;
      AppendNil(db.classes);
      AppendNil(db.relationships);
    } else {
      var m := a[0];
      assert (a + b)[0] == m;
      assert (a + b)[1..] == a[1..] + b;
      ParseAppend(config, opts, a[1..], b);
      var dr := Parse(config, opts, a[1..]);
      if !Excluded(config, m) {
        var edges := ModelEdges(config, opts, m);
        AppendAssoc([ParseModel(config, opts, m)], dr.classes, db.classes);
        AppendAssoc(edges, dr.relationships, db.relationships);
      }
    }
  }

  /** An excluded model contributes no class and none of its edges, wherever it stands. */
  lemma ExcludedModelDropped(config: Configuration.Config, opts: ParseOptions,
                             a: seq<ModelDescriptor>, m: ModelDescriptor, b: seq<ModelDescriptor>)
    requires Excluded(config, m)
    ensures Parse(config, opts, a + [m] + b) == Parse(config, opts, a).Then(Parse(config, opts, b))
  {
    var da := Parse(config, opts, a);
    ParseAppend(config, opts, a + [m], b);
    ParseAppend(config, opts, a, [m]);
    assert Parse(config, opts, [m]) == ClassDiagram([], []) by {
      assert [m][1..] == [];
    }
    AppendNil(da.classes);
    AppendNil(da.relationships);
  }

  /** A kept model contributes its class in place, and its associations then its inheritance edge in place. */
  lemma ModelInPlace(config: Configuration.Config, opts: ParseOptions,
                     a: seq<ModelDescriptor>, m: ModelDescriptor, b: seq<ModelDescriptor>)
    requires !Excluded(config, m)
    ensures var d := Parse(config, opts, a + [m] + b);
      var da := Parse(config, opts, a);
      var db := Parse(config, opts, b);
      && d.classes == da.classes + [ParseModel(config, opts, m)] + db.classes
      && d.relationships == da.relationships + ExtractAssociations(opts, m.name, m.associations)
                            + (if config.includeInheritance then ExtractInheritance(m) else [])
                            + db.relationships
  {
    ParseAppend(config, opts, a + [m], b);
    ParseAppend(config, opts, a, [m]);
    assert [m][1..] == [];
    AppendNil([ParseModel(config, opts, m)]);
    AppendNil(ModelEdges(config, opts, m));
    assert Parse(config, opts, [m]).classes == [ParseModel(config, opts, m)] + [];
    assert Parse(config, opts, [m]).relationships == ModelEdges(config, opts, m) + [];
    AppendAssoc(Parse(config, opts, a).relationships, ExtractAssociations(opts, m.name, m.associations),
                if config.includeInheritance then ExtractInheritance(m) else []);
  }

  /** Every class comes from a model that is not excluded, and every such model yields its class. */
  lemma {:induction false} ParseClasses(config: Configuration.Config, opts: ParseOptions, models: seq<ModelDescriptor>)
    ensures var d := Parse(config, opts, models);
      && (forall c | c in d.classes :: c.name !in config.excludeModels && c.methods == [])
      && (forall c | c in d.classes :: exists m | m in models && !Excluded(config, m) :: ParseModel(config, opts, m) == c)
      && (forall m | m in models && !Excluded(config, m) :: ParseModel(config, opts, m) in d.classes)
    decreases |models|
  {
    if |models| > 0 {
      var m0 := models[0];
      var tail := models[1..];
      ParseClasses(config, opts, tail);
      var rest := Parse(config, opts, tail);
      var d := Parse(config, opts, models);
      assert forall m | m in models :: m == m0 || m in tail;
      assert forall m | m in tail :: m in models;
      if Excluded(config, m0) {
        assert d == rest;
      } else {
        assert d.classes == [ParseModel(config, opts, m0)] + rest.classes;
        assert m0 in models;
      }
    }
  }

  /**
   * An inheritance edge from `parent` to `child` is produced exactly when
   * inheritance is enabled and a kept model named `child` has the concrete
   * model `parent` as its superclass.
   */
  lemma {:induction false} ParseInheritanceEdges(config: Configuration.Config, opts: ParseOptions,
                                                 models: seq<ModelDescriptor>, parent: string, child: string)
    ensures Relationship(parent, child, Inheritance, None, None, None) in Parse(config, opts, models).relationships
      <==> config.includeInheritance
           && exists m | m in models :: !Excluded(config, m) && m.name == child && m.superclass == ParentModel(parent, false)
    decreases |models|
  {
    var edge := Relationship(parent, child, Inheritance, None, None, None);
    if |models| > 0 {
      var m := models[0];
      ParseInheritanceEdges(config, opts, models[1..], parent, child);
      assert forall x | x in models :: x == m || x in models[1..];
      assert forall x | x in models[1..] :: x in models;
      if !Excluded(config, m) {
        var assocs := ExtractAssociations(opts, m.name, m.associations);
        assert edge !in assocs;
        var inherit := if config.includeInheritance then ExtractInheritance(m) else [];
        assert edge in inherit <==> config.includeInheritance && m.name == child && m.superclass == ParentModel(parent, false);
      }
    }
  }

  /**
   * Excluding a model does not remove edges other models draw to it: with
   * `Post` excluded, `User has_many :posts` still yields `User --> Post`.
   */
  lemma ExcludedTargetKeepsIncomingEdges()
    ensures var config := Configuration.Set(Configuration.Default(), Configuration.SetExcludeModels(["Post"]));
      var posts := AssociationDescriptor(HasMany, "posts", Some("Post"), false);
      var user := ModelDescriptor("User", false, false, [], [posts], RootBase);
      var post := ModelDescriptor("Post", false, false, [], [], RootBase);
      var d := Parse(config, NoOptions(), [user, post]);
      && d.relationships == [Relationship("User", "Post", Association, Some("has_many posts"), Some("1"), Some("*"))]
      && forall c | c in d.classes :: c.name != "Post"
  {
    var config := Configuration.Set(Configuration.Default(), Configuration.SetExcludeModels(["Post"]));
    var posts := AssociationDescriptor(HasMany, "posts", Some("Post"), false);
    var user := ModelDescriptor("User", false, false, [], [posts], RootBase);
    var post := ModelDescriptor("Post", false, false, [], [], RootBase);
    assert config.excludeModels == ["Post"];
    assert Excluded(config, post);
    assert !Excluded(config, user);
    ExcludedModelDropped(config, NoOptions(), [user], post, []);
    assert [user] + [post] + [] == [user, post];
    assert [posts][1..] == [];
    assert [user][1..] == [];
    assert "has_many" + " " + "posts" == "has_many posts";
  }

  /** A `has_many` edge between plain class names renders as `User "1" --> "*" Post : has_many posts`. */
  lemma HasManyRenders(opts: ParseOptions, modelName: string, a: AssociationDescriptor)
    requires a.macro.HasMany? && a.className.Some?
    requires BaseRenderer.AllWordChars(modelName) && BaseRenderer.AllWordChars(a.className.value)
    ensures BuildAssociation(opts, modelName, a).Some?
    ensures ClassDiagramRenderer.RelationshipLine(BuildAssociation(opts, modelName, a).value)
      == "    " + modelName + " \"1\" --> \"*\" " + a.className.value + " : has_many " + a.name
  {
    var target := a.className.value;
    var caption := "has_many " + a.name;
    assert MacroName(a.macro) + " " + a.name == caption;
    var e := Relationship(modelName, target, Association, Some(caption), Some("1"), Some("*"));
    assert BuildAssociation(opts, modelName, a) == Some(e);
    ClassDiagramRenderer.AssociationShape(modelName, target, "1", "*", caption);
  }
}
