# Lagoon core in Dafny

Lagoon reads the metadata of a Rails application and draws it as
Mermaid diagrams. This project models its core:

- **Parsers** turn metadata into the intermediate model.
  - The schema parser turns tables and columns into ER entities with PK/FK markers. It adds one relationship per foreign-key column whose referenced table can be inferred.
  - The model parser turns ActiveRecord models into classes. Their columns become public attributes, their associations become labelled edges with cardinalities, and a concrete parent model becomes an inheritance edge.
  - The controller parser turns controllers into classes with visibility-tagged methods, plus an inheritance edge from a named parent.
- **Renderers** turn the intermediate model into `classDiagram` and `erDiagram` text.
  - The shared base gives the default direction `TB`, the backtick escaping of class names, and the case-insensitive first-match type table.
  - The class-diagram renderer has its own arrow table and optional cardinality/label segments.
  - The ER renderer has its upper-cased blocks, its constraint markers in the fixed order PK, FK, UK, its crow's-foot symbols, and its own type table.
- **Configuration** gives the defaults and the writers of the global configuration record.

The metadata the parsers would query through reflection is given as plain descriptor records (module `Descriptors`). Each record holds exactly the answers the parser reads:

- the table and column lists;
- whether a model's table exists;
- its associations with their macro, name and resolved class name, or none if resolving it raises `NameError`;
- its superclass;
- a controller's action, protected and private method names.

The diagrams produced are the datatypes of `DiagramModel`.

Modules follow the source layout:

| module | what it holds |
|---|---|
| `BaseRenderer` | the shared base |
| `ClassDiagramRenderer` | the class-diagram renderer |
| `ErDiagramRenderer` | the ER renderer |
| `SchemaParser` | the schema parser |
| `ModelParser` | the model parser |
| `ControllerParser` | the controller parser |
| `Configuration` | the configuration record |

General helpers:

| module | what it holds |
|---|---|
| `Wrappers` | `Option` |
| `Text` | ASCII case mapping, substring search, joining and splitting lines |
| `Seqs` | flattening |
| `Lookup` | first-match rule tables, the semantics of a Ruby `case … when /re/` whose patterns are plain words |

The renderers are related to their text output two ways:

- **Line by line.** `RenderLinesOf` shows that splitting the rendered text at its newlines gives back exactly the intended lines.
- **Locally.** Separate lemmas state what each optional segment of a line adds, and that it changes nothing else.

The parsers are stated compositionally:

- parsing `a + b` is parsing `a`, then `b`;
- an excluded or internal item contributes nothing wherever it stands;
- a kept item contributes its class or entity and its edges in place;
- membership lemmas state both directions of "this class or edge appears exactly when …".

Behaviour worth knowing, stated as lemmas:

- **Cardinality symbols are lost in the ER diagram.** The schema parser emits the cardinality tokens `||` and `}o`. The ER renderer does not know these tokens, so every schema relationship is drawn one-to-one (`SchemaParser.SchemaEdgesRenderOneToOne`).
- **The two type tables treat timestamps differently.** The class-diagram table has no `timestamp` pattern, so a timestamp column shows as `Time` (`BaseRenderer.TimestampIsTime`). The ER table maps it to `datetime`.
- **One branch of `extract_columns` is redundant.** `magic_field?` already returns false under `all_columns`, so the `all_columns` branch of `extract_columns` gives the same columns as the other branch (`ModelParser.NonMagicColumnsWithAllColumns`).
- **Excluding a model keeps edges that point to it.** Associations from other models into an excluded model are still drawn (`ModelParser.ExcludedTargetKeepsIncomingEdges`).

## Model

| member | source | states |
|---|---|---|
| BaseRenderer.NewRenderer | lib/lagoon/renderer/base_renderer.rb:8-10 | an omitted direction becomes `TB`; a given direction is kept as is |
| BaseRenderer.EscapeClassName | lib/lagoon/renderer/base_renderer.rb:18-25 | a name is left unchanged exactly when all its characters are letters, digits or `_`; otherwise it is wrapped in backticks |
| BaseRenderer.EscapeClassNameInjective | lib/lagoon/renderer/base_renderer.rb:18-25 | two different class names never escape to the same text |
| BaseRenderer.EscapeClassNameExamples | spec/lagoon/renderer/base_renderer_spec.rb:23-37 | `User::Profile` is quoted, `User_Profile` is not |
| Lookup.FirstMatchIsLeast | lib/lagoon/renderer/base_renderer.rb:29-41 | the clause a `case` selects is a matching clause with no matching clause before it, and no clause matches when none is selected |
| BaseRenderer.TypeToMermaidFirstMatch | lib/lagoon/renderer/base_renderer.rb:27-42 | the Mermaid type is the value of the first clause whose word occurs in the lower-cased type; a type matched by no clause is capitalised |
| BaseRenderer.MermaidResultMatchesItself | lib/lagoon/renderer/base_renderer.rb:30-39 | each canonical Mermaid name, lower-cased, is caught first by its own clause, so no earlier clause shadows it |
| BaseRenderer.TypeToMermaidOfPattern | lib/lagoon/renderer/base_renderer.rb:30-39 | the lower-cased form of each canonical name maps back to that name |
| BaseRenderer.TypeToMermaidIdempotent | lib/lagoon/renderer/base_renderer.rb:27-42 | normalising an already normalised type changes nothing |
| BaseRenderer.MermaidExamples | spec/lagoon/renderer/base_renderer_spec.rb:40-75 | the documented column types map to `Integer`, `String`, `Text`, `Boolean`, `DateTime`, `Date`, `Decimal`, `Float`, `JSON` |
| BaseRenderer.DatetimeBeforeDateAndTime | spec/lagoon/renderer/base_renderer_spec.rb:57-59 | `DATETIME` in any case is `DateTime`, not `Date` or `Time`, because its clause comes first |
| BaseRenderer.TimestampIsTime | lib/lagoon/renderer/base_renderer.rb:34-36 | with no `timestamp` pattern, a timestamp column is caught by the `time` clause |
| BaseRenderer.UnknownTypeIsCapitalized | spec/lagoon/renderer/base_renderer_spec.rb:77-79 | an unknown type `custom` is shown as `Custom` |
| ClassDiagramRenderer.Arrow | lib/lagoon/renderer/class_diagram_renderer.rb:66-79 | the whole arrow table, each entry both ways: inheritance draws the open-triangle arrow, composition `*--`, aggregation `o--`, association `-->`, dependency `..>`, and exactly the kinds outside the table draw the plain link `--` |
| ClassDiagramRenderer.ArrowInjective | lib/lagoon/renderer/class_diagram_renderer.rb:66-79 | two kinds draw the same arrow exactly when they are the same kind or both unknown |
| ClassDiagramRenderer.VisibilityDefaultsToPublic | lib/lagoon/renderer/class_diagram_renderer.rb:36-51 | an attribute or method without a visibility is drawn exactly like a public (`+`) one |
| ClassDiagramRenderer.ReturnTypeAppended | lib/lagoon/renderer/class_diagram_renderer.rb:45-51 | a return type adds ` <Type>` to the end of the method line and changes nothing else |
| ClassDiagramRenderer.ClassLines | lib/lagoon/renderer/class_diagram_renderer.rb:28-56 | a class block has one line per member plus three, one more for an abstract class; it opens with `class <escaped name> {` and ends with the closing brace and an empty line |
| ClassDiagramRenderer.ClassLinesMembers | lib/lagoon/renderer/class_diagram_renderer.rb:32-51 | after the opening line comes `<<abstract>>` for an abstract class, then every attribute line in order, then every method line in order |
| ClassDiagramRenderer.RenderClass | lib/lagoon/renderer/class_diagram_renderer.rb:53-55 | a rendered class block ends in a newline, which separates it from the next block |
| ClassDiagramRenderer.EmptyClassBlock | lib/lagoon/renderer/class_diagram_renderer.rb:28-56 | a concrete class with no members is its opening line, the closing brace and a blank line |
| ClassDiagramRenderer.RelationshipLine | lib/lagoon/renderer/class_diagram_renderer.rb:58-88 | a relationship line starts with the escaped source and ends with the escaped target and its label |
| ClassDiagramRenderer.BareRelationshipLine | lib/lagoon/renderer/class_diagram_renderer.rb:81-85 | with no cardinalities and no label, the line is the source, the kind's arrow and the target |
| ClassDiagramRenderer.SourceCardinalityInserted | lib/lagoon/renderer/class_diagram_renderer.rb:82 | a source cardinality inserts ` "<card>"` right after the source and leaves the rest of the line as it was |
| ClassDiagramRenderer.TargetCardinalityInserted | lib/lagoon/renderer/class_diagram_renderer.rb:84 | a target cardinality inserts `"<card>" ` right before the target and leaves the rest as it was |
| ClassDiagramRenderer.LabelAppended | lib/lagoon/renderer/class_diagram_renderer.rb:86 | a label appends ` : <label>` and leaves the rest as it was |
| ClassDiagramRenderer.RenderOpensWithHeader | lib/lagoon/renderer/class_diagram_renderer.rb:7-9 | every rendered class diagram opens with `classDiagram`, the direction line and a blank line |
| ClassDiagramRenderer.RenderIsJoinOfLines | lib/lagoon/renderer/class_diagram_renderer.rb:6-24 | the text is the newline-join of the header, the class blocks line by line, a blank line and the relationship lines |
| ClassDiagramRenderer.RenderLinesOf | lib/lagoon/renderer/class_diagram_renderer.rb:6-24 | when every name and label is a single line, splitting the text at newlines gives back exactly those lines, so the blocks and edges can be read back in input order |
| ClassDiagramRenderer.RelationshipsIgnoreClasses | lib/lagoon/renderer/class_diagram_renderer.rb:12-21 | the relationship lines depend only on the relationships: two diagrams with the same edges end in the same lines |
| ClassDiagramRenderer.EmptyDiagram | spec/lagoon/renderer/class_diagram_renderer_spec.rb:55-61 | an empty diagram renders as the header alone |
| ClassDiagramRenderer.MemberExamples | spec/lagoon/renderer/class_diagram_renderer_spec.rb:41-53 | the documented `+Integer id` and `+full_name()` member lines |
| ClassDiagramRenderer.InheritanceShape | spec/lagoon/renderer/class_diagram_renderer_spec.rb:41-53 | an inheritance edge between plain names reads parent, the open-triangle arrow, child |
| ClassDiagramRenderer.AssociationShape | spec/lagoon/renderer/class_diagram_renderer_spec.rb:63-83 | an association between plain names with cardinalities and a label reads `S "c1" --> "c2" T : label` |
| ClassDiagramRenderer.CompositionShape | spec/lagoon/renderer/class_diagram_renderer_spec.rb:85-105 | a composition edge between plain names reads whole, `*--`, part |
| ClassDiagramRenderer.AggregationShape | spec/lagoon/renderer/class_diagram_renderer_spec.rb:107-127 | an aggregation edge between plain names reads whole, `o--`, part |
| ClassDiagramRenderer.DependencyShape | lib/lagoon/renderer/class_diagram_renderer.rb:75-87 | a dependency edge between plain names reads source, `..>`, target |
| ErDiagramRenderer.CardinalitySymbol | lib/lagoon/renderer/er_diagram_renderer.rb:64-77 | the result is always one of the four crow's-foot symbols. Zero-or-one, one-or-more and zero-or-more are each produced exactly for their listed tokens. Everything else, including an absent cardinality, is exactly-one |
| ErDiagramRenderer.CardinalityExamples | spec/lagoon/renderer/er_diagram_renderer_spec.rb:97-117 | `1`, `0..1`, `1..*`, `*` map to exactly-one, zero-or-one, one-or-more and zero-or-more. An unknown token, a symbol and a missing value all fall back to exactly-one |
| ErDiagramRenderer.TypeToErTypeFirstMatch | lib/lagoon/renderer/er_diagram_renderer.rb:79-105 | the ER type is the value of the first clause one of whose words occurs in the lower-cased type; otherwise the type lower-cased |
| ErDiagramRenderer.TypeToErTypeIsLowerCase | lib/lagoon/renderer/er_diagram_renderer.rb:79-105 | every ER type is lower-case |
| ErDiagramRenderer.ErResultMatchesItself | lib/lagoon/renderer/er_diagram_renderer.rb:82-101 | every table value other than `int` is caught first by its own clause |
| ErDiagramRenderer.TypeToErTypeIdempotent | lib/lagoon/renderer/er_diagram_renderer.rb:79-105 | converting an ER type again changes nothing, `int` included |
| ErDiagramRenderer.TypeToErTypeOfResult | spec/lagoon/renderer/er_diagram_renderer_spec.rb:119-139 | `string`, `text`, `boolean`, `datetime`, `date`, `time`, `decimal`, `float`, `json` are their own ER types |
| ErDiagramRenderer.IntegerIsInt | spec/lagoon/renderer/er_diagram_renderer_spec.rb:119-139 | `integer` becomes `int` |
| ErDiagramRenderer.TimestampIsDatetime | lib/lagoon/renderer/er_diagram_renderer.rb:90-91 | a timestamp column is a `datetime` in the ER diagram |
| ErDiagramRenderer.Constraints | lib/lagoon/renderer/er_diagram_renderer.rb:34-37 | `PK`, `FK`, `UK` are each listed exactly when the attribute has that flag |
| ErDiagramRenderer.ConstraintsInFixedOrder | lib/lagoon/renderer/er_diagram_renderer.rb:34-37 | the markers appear in the order PK, FK, UK, each at most once, and nothing else appears |
| ErDiagramRenderer.ConstraintSuffixExamples | lib/lagoon/renderer/er_diagram_renderer.rb:39-40 | one flag gives a single ` PK`/` FK`/` UK` suffix, and no flag gives no trailing space |
| ErDiagramRenderer.AllConstraintsSuffix | lib/lagoon/renderer/er_diagram_renderer.rb:39-40 | all three flags give ` PK FK UK` |
| ErDiagramRenderer.PrimaryKeyIdExample | spec/lagoon/renderer/er_diagram_renderer_spec.rb:40-51 | the `id` primary key of integer type reads `int id PK` |
| ErDiagramRenderer.EntityLines | lib/lagoon/renderer/er_diagram_renderer.rb:27-47 | an entity block has one line per attribute plus three: it opens with the upper-cased name and `{` and ends with `}` and a blank line |
| ErDiagramRenderer.EntityLinesMembers | lib/lagoon/renderer/er_diagram_renderer.rb:31-42 | between the opening and closing lines come the attribute lines, one per attribute, in order |
| ErDiagramRenderer.LineType | lib/lagoon/renderer/er_diagram_renderer.rb:59 | the line is `--` exactly for an identifying relationship and `..` otherwise |
| ErDiagramRenderer.LineTypeShowsIdentifying | lib/lagoon/renderer/er_diagram_renderer.rb:59-61 | in the rendered line, the two characters after the source symbol are `--` exactly when the relationship is identifying |
| ErDiagramRenderer.MissingLabelIsEmpty | lib/lagoon/renderer/er_diagram_renderer.rb:49-62 | a missing label is drawn as an empty quoted label |
| ErDiagramRenderer.SchemaTokensRenderAsOneToOne | lib/lagoon/renderer/er_diagram_renderer.rb:64-77 | the symbols the schema parser passes as tokens are not in the table, so both ends are drawn as exactly-one |
| ErDiagramRenderer.RenderLinesWithRelationships | lib/lagoon/renderer/er_diagram_renderer.rb:9-15 | with relationships, `erDiagram` is followed by every relationship line in order and then exactly one blank line |
| ErDiagramRenderer.RenderLinesWithoutRelationships | lib/lagoon/renderer/er_diagram_renderer.rb:10-20 | without relationships, the entity blocks follow `erDiagram` directly |
| ErDiagramRenderer.RenderIsJoinOfLines | lib/lagoon/renderer/er_diagram_renderer.rb:6-23 | the text is the newline-join of the keyword, the relationship section and the entity blocks line by line |
| ErDiagramRenderer.RenderLinesOf | lib/lagoon/renderer/er_diagram_renderer.rb:6-23 | when every name and label is a single line, splitting the text at newlines gives back exactly those lines |
| ErDiagramRenderer.EmptyErDiagram | lib/lagoon/renderer/er_diagram_renderer.rb:6-23 | an empty ER diagram is the keyword `erDiagram` alone |
| Configuration.Default | lib/lagoon/configuration.rb:9-18 | a fresh configuration has output directory `doc/diagrams`, direction `TB`, attributes shown, methods hidden, inheritance included, no exclusions, and the class-diagram format |
| Configuration.Set | lib/lagoon/configuration.rb:5-7 | after a writer, its field reads back the value written, and every other field is unchanged |
| Configuration.SettersCommute | lib/lagoon/configuration.rb:5-7 | writers of different fields can be applied in either order |
| Configuration.LastWriteWins | lib/lagoon/configuration.rb:5-7 | writing the same field twice keeps only the second value |
| SchemaParser.ParseColumn | lib/lagoon/parser/schema_parser.rb:68-80 | a column is the primary key exactly when it is named `id` and a foreign key exactly when its name ends in `_id`. It is never unique, and its name and type are kept |
| SchemaParser.NoColumnIsBothKeys | lib/lagoon/parser/schema_parser.rb:68-80 | no column is marked both PK and FK |
| SchemaParser.ParseTable | lib/lagoon/parser/schema_parser.rb:61-66 | an entity has the table's name and one attribute per column, in column order: the parsed column, with the column's name and type |
| SchemaParser.FirstIdSuffix | lib/lagoon/parser/schema_parser.rb:107 | finds the leftmost place where `_id` ends the string or a line, or reports that there is none |
| SchemaParser.StripIdSuffixIsLeftmost | lib/lagoon/parser/schema_parser.rb:107 | `sub(/_id$/, "")` removes the leftmost `_id` that ends a line and leaves a name without one unchanged |
| SchemaParser.StripIdSuffixOfForeignKey | lib/lagoon/parser/schema_parser.rb:105-108 | for a one-line foreign-key name, exactly the final three characters are removed |
| SchemaParser.StripIdSuffixRestores | lib/lagoon/parser/schema_parser.rb:105-108 | appending `_id` to a one-line name and stripping it gives the name back |
| SchemaParser.StripIdSuffixFirstLineOnly | lib/lagoon/parser/schema_parser.rb:107 | in a two-line name only the first line's `_id` is removed |
| SchemaParser.InferTargetTableOfForeignKey | lib/lagoon/parser/schema_parser.rb:105-111 | the table `user_id` refers to is the plural of `user` |
| SchemaParser.ForeignKeyEdge | lib/lagoon/parser/schema_parser.rb:85-99 | a column yields an edge exactly when it is a foreign key whose target can be inferred, and the edge goes from the table to that target |
| SchemaParser.ExtractForeignKeys | lib/lagoon/parser/schema_parser.rb:82-103 | every edge leaves this table, is identifying, is labelled `has many` with the exactly-one and zero-or-many tokens, and there are at most as many edges as columns |
| SchemaParser.ExtractForeignKeysSound | lib/lagoon/parser/schema_parser.rb:82-103 | every edge's target was inferred from one of the table's foreign-key columns |
| SchemaParser.ExtractForeignKeysComplete | lib/lagoon/parser/schema_parser.rb:82-103 | when every target can be inferred, each foreign-key column yields exactly one edge, in column order, to its inferred table |
| SchemaParser.ExtractForeignKeysAppend | lib/lagoon/parser/schema_parser.rb:82-103 | the columns are handled one at a time, in order: the edges of a concatenation are the edges of its front, then of its back |
| SchemaParser.ForeignKeyInPlace | lib/lagoon/parser/schema_parser.rb:85-111 | each column's edge, if any, sits in its own position among the others; a foreign key whose target cannot be inferred (the rescued `pluralize` failure) drops only its own edge |
| SchemaParser.NoForeignKeyNoEdge | lib/lagoon/parser/schema_parser.rb:82-103 | a table without `_id` columns yields no edge |
| SchemaParser.ParseAppend | lib/lagoon/parser/schema_parser.rb:15-32 | parsing a list of tables is parsing its front and then its back: tables are handled one at a time, in order |
| SchemaParser.InternalTableDropped | lib/lagoon/parser/schema_parser.rb:36-55 | `schema_migrations` and `ar_internal_metadata` contribute nothing, wherever they stand |
| SchemaParser.TableInPlace | lib/lagoon/parser/schema_parser.rb:20-26 | any other table contributes its entity and its foreign-key edges in its own position |
| SchemaParser.ParseEntities | lib/lagoon/parser/schema_parser.rb:20-26 | the entities are exactly the parsed non-internal tables, in both directions |
| SchemaParser.ParseRelationships | lib/lagoon/parser/schema_parser.rb:20-26 | every relationship is a schema edge leaving a non-internal table |
| SchemaParser.SchemaEdgesRenderOneToOne | lib/lagoon/parser/schema_parser.rb:92-99 | rendered, every schema relationship is drawn exactly-one at both ends, with a solid line and label `has many` |
| SchemaParser.DanglingTargetExample | lib/lagoon/parser/schema_parser.rb:82-111 | a target is not checked against the tables: `comments.post_id` yields an edge to `posts` although no `posts` entity exists |
| ModelParser.NonMagicColumns | lib/lagoon/parser/model_parser.rb:64 | the kept columns are columns of the model, and none of them is a magic field |
| ModelParser.NonMagicColumnsComplete | lib/lagoon/parser/model_parser.rb:64 | every column that is not a magic field is kept |
| ModelParser.MagicColumnDropped | lib/lagoon/parser/model_parser.rb:76-81 | removing a magic column from anywhere in the list leaves the other columns in their order |
| ModelParser.NonMagicColumnsWithAllColumns | lib/lagoon/parser/model_parser.rb:61-65 | with `all_columns` the reject keeps every column, so both branches agree |
| ModelParser.ExtractColumns | lib/lagoon/parser/model_parser.rb:58-74 | a model without a table has no attributes, and every attribute is public |
| ModelParser.ExtractColumnsAll | lib/lagoon/parser/model_parser.rb:61-73 | with `all_columns` every column becomes an attribute with its name and type, in order |
| ModelParser.ExtractColumnsMembership | lib/lagoon/parser/model_parser.rb:58-81 | without `all_columns`, a column becomes an attribute exactly when it is not `id`, `created_at` or `updated_at` |
| ModelParser.ParseModel | lib/lagoon/parser/model_parser.rb:49-56 | a class keeps the model's name and abstractness and never has methods. It has attributes only when attributes are shown, and then they are the model's extracted columns |
| ModelParser.BuildAssociation | lib/lagoon/parser/model_parser.rb:100-144 | an edge is built exactly for a known macro whose class resolves, `belongs_to` only with `show_belongs_to`. It runs from the model to the class, is labelled with the macro and name, and has cardinalities `1/0..1`, `1/*` or `*/*` by macro |
| ModelParser.ExtractAssociations | lib/lagoon/parser/model_parser.rb:88-98 | every edge is an association leaving this model, and there are at most as many as associations |
| ModelParser.AssociationInPlace | lib/lagoon/parser/model_parser.rb:91-97 | each association contributes its built edge in place. A hidden `through` association, or one that builds nothing, contributes nothing |
| ModelParser.ExtractInheritance | lib/lagoon/parser/model_parser.rb:146-158 | an edge from the parent to the model exists exactly when the superclass is a concrete model other than the root |
| ModelParser.ParseAppend | lib/lagoon/parser/model_parser.rb:15-32 | models are handled one at a time, in order |
| ModelParser.ExcludedModelDropped | lib/lagoon/parser/model_parser.rb:44-47 | an excluded model contributes no class and none of its edges, wherever it stands |
| ModelParser.ModelInPlace | lib/lagoon/parser/model_parser.rb:20-26 | a kept model contributes its class, then its association edges, then its inheritance edge when enabled, in its own position |
| ModelParser.ParseClasses | lib/lagoon/parser/model_parser.rb:20-23 | every class comes from a model that is not excluded, and every such model yields its class |
| ModelParser.ParseInheritanceEdges | lib/lagoon/parser/model_parser.rb:25 | an inheritance edge parent→child appears exactly when inheritance is enabled and a kept model `child` has the concrete model `parent` as superclass |
| ModelParser.ExcludedTargetKeepsIncomingEdges | lib/lagoon/parser/model_parser.rb:20-26 | excluding `Post` does not remove the edge `User --> Post` that `User has_many :posts` draws |
| ModelParser.HasManyRenders | lib/lagoon/parser/model_parser.rb:122-130 | a `has_many` edge between plain names renders as `User "1" --> "*" Post : has_many posts` |
| ControllerParser.ExtractMethods | lib/lagoon/parser/controller_parser.rb:55-77 | the method count is the sum of the sizes of the groups that are not hidden |
| ControllerParser.ExtractMethodsInPlace | lib/lagoon/parser/controller_parser.rb:55-77 | each shown group lists its methods in the order reflection reports them, with its mark: action methods from position 0, protected ones after the shown action methods, private ones after both |
| ControllerParser.ExtractMethodsMembership | lib/lagoon/parser/controller_parser.rb:55-77 | a method is listed with `+`, `#` or `-` exactly when its group is not hidden and holds that name |
| ControllerParser.ExtractMethodsOrdered | lib/lagoon/parser/controller_parser.rb:55-77 | public methods come first, then protected, then private; the groups are never interleaved |
| ControllerParser.ParseController | lib/lagoon/parser/controller_parser.rb:46-53 | a controller class keeps its name, is never abstract, has no attributes, and lists its extracted methods |
| ControllerParser.ExtractInheritance | lib/lagoon/parser/controller_parser.rb:79-91 | an edge from the parent to the controller exists exactly when the superclass is a controller other than the root and has a name |
| ControllerParser.ParseAppend | lib/lagoon/parser/controller_parser.rb:13-29 | controllers are handled one at a time, in order |
| ControllerParser.ExcludedControllerDropped | lib/lagoon/parser/controller_parser.rb:41-44 | an excluded controller contributes no class and no edge, wherever it stands |
| ControllerParser.ControllerInPlace | lib/lagoon/parser/controller_parser.rb:18-23 | a kept controller contributes its class, and its inheritance edge when enabled, in its own position |
| ControllerParser.ParseClasses | lib/lagoon/parser/controller_parser.rb:18-21 | every class comes from a controller that is not excluded, is concrete and has no attributes, and every such controller yields its class |
| ControllerParser.ParseInheritanceEdges | lib/lagoon/parser/controller_parser.rb:22 | every edge is an unlabelled inheritance edge, and parent→child appears exactly when inheritance is enabled and a kept controller `child` has the named superclass `parent` |
| ControllerParser.ParseIgnoresShowMethods | lib/lagoon/parser/controller_parser.rb:46-53 | the `show_methods` setting has no effect on controller diagrams |

## Left out

- The command-line interface (`cli.rb`), the Rails railtie, the top-level `Lagoon.generate`/`configure` entry points and the diagram classes under `diagram/` are not modelled. They resolve the output path, choose a parser and renderer, and write files, which is I/O and orchestration around the core.
- The reflection inside the loading methods is not modelled: eager loading, `ActiveRecord::Base.descendants` and the database connection. What it yields is a parameter.
  - `SchemaParser.Parse` takes `connection.tables` with their columns. The internal-table filter of `load_schema` (`internal_table?`) is modelled inside `Parse` (`SchemaParser.InternalTableDropped`).
  - `ModelParser.Parse` and `ControllerParser.Parse` take the loaded models and controllers.
  - `load_models` drops abstract models before parsing. `ModelParser.ParseModel` therefore keeps the abstract flag of whatever descriptor it is given.
  - `load_schema` collects tables into a hash keyed by name, so two tables of the same name would collapse. The table list given to `SchemaParser.Parse` is taken as already free of duplicates.
- `pluralize` (ActiveSupport inflection) is not modelled. It is the parameter `string -> Option<string>`, and `None` stands for a raised error, after which the column is skipped. Irregular plurals are therefore not stated.
- Rescued exceptions are data, not control flow:
  - a `NameError` while resolving an association's class is a `None` class name;
  - an error while reading a superclass is an `Unreadable…` superclass.
  - Errors the source does not rescue, such as a `nil` name passed to `escape_class_name`, are not modelled.
- `BaseRenderer#render` raising `NotImplementedError` is not modelled: the two renderers are separate modules with their own `Render`.
- Case mapping (`downcase`, `upcase`, `capitalize`) is ASCII only. Ruby's regular expressions are modelled only as far as the source uses them: plain words found anywhere in the lower-cased type, and the one-shot `sub(/_id$/, "")`, where `$` also matches before a newline.
- Column types are strings: a Ruby symbol is its name, and a `nil` type is the empty string (`nil.to_s`).
- ErDiagramRenderer.Render takes no direction: the ER renderer never emits one, although it accepts one at construction.
- ModelParser.ExtractInheritance: a model superclass always has a name. An anonymous parent class would give a `nil` source in Ruby and is not modelled.
- Configuration.Set: the writers check nothing, as in the source. A direction other than `TB/BT/LR/RL` is accepted, and `diagram_format` takes any symbol (`OtherFormat`).
- Hash keys `type` and `label` of relationships are the fields `kind` and `labelText`. Every list is a sequence, so a `nil` or missing list is not modelled separately:
  - a class's `attributes`/`methods` and the ER diagram's `relationships` are guarded by `&.any?`, so `nil` renders like the empty sequence the model uses;
  - a `nil` class-diagram `relationships` list (`.each` at class_diagram_renderer.rb line 19), a `nil` `classes` or `entities` list, and a `nil` entity `attributes` list (`.each` at er_diagram_renderer.rb line 32) raise `NoMethodError` in the source; those failures are not modelled.
