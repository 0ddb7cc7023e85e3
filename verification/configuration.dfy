/**
 * The configuration record the parsers and diagrams read, with its
 * defaults, and its writers as one operation over a tagged setting.
 */
module Configuration {

  /** The `diagram_format` symbol: `:class_diagram`, `:er_diagram`, or any other symbol a caller assigns. */
  datatype DiagramFormat = ClassDiagramFormat | ErDiagramFormat | OtherFormat(symbol: string)

  datatype Config = Config(
    outputDir: string,
    diagramDirection: string,
    showAttributes: bool,
    showMethods: bool,
    includeInheritance: bool,
    excludeModels: seq<string>,
    excludeControllers: seq<string>,
    diagramFormat: DiagramFormat)

  /** `Configuration.new`. */
  function Default(): (c: Config)
    ensures c.outputDir == "doc/diagrams"
    ensures c.diagramDirection == "TB"
    ensures c.showAttributes && !c.showMethods && c.includeInheritance
    ensures c.excludeModels == [] && c.excludeControllers == []
    ensures c.diagramFormat == ClassDiagramFormat
  {
    Config("doc/diagrams", "TB", true, false, true, [], [], ClassDiagramFormat)
  }

  /** The names of the eight accessors. */
  datatype Field =
    | OutputDir | DiagramDirection | ShowAttributes | ShowMethods
    | IncludeInheritance | ExcludeModels | ExcludeControllers | Format

  /** A value read from, or written to, one field. */
  datatype Value = Text(s: string) | Flag(b: bool) | Names(names: seq<string>) | FormatValue(format: DiagramFormat)

  /** One writer call, `config.<field> = value`. */
  datatype Setting =
    | SetOutputDir(outputDir: string)
    | SetDiagramDirection(direction: string)
    | SetShowAttributes(showAttributes: bool)
    | SetShowMethods(showMethods: bool)
    | SetIncludeInheritance(includeInheritance: bool)
    | SetExcludeModels(models: seq<string>)
    | SetExcludeControllers(controllers: seq<string>)
    | SetDiagramFormat(format: DiagramFormat)

  /** The reader of a field. */
  function Get(c: Config, f: Field): Value {
    match f
    case OutputDir => Text(c.outputDir)
    case DiagramDirection => Text(c.diagramDirection)
    case ShowAttributes => Flag(c.showAttributes)
    case ShowMethods => Flag(c.showMethods)
    case IncludeInheritance => Flag(c.includeInheritance)
    case ExcludeModels => Names(c.excludeModels)
    case ExcludeControllers => Names(c.excludeControllers)
    case Format => FormatValue(c.diagramFormat)
  }

  /** The field a writer call assigns. */
  function FieldOf(s: Setting): Field {
    match s
    case SetOutputDir(_) => OutputDir
    case SetDiagramDirection(_) => DiagramDirection
    case SetShowAttributes(_) => ShowAttributes
    case SetShowMethods(_) => ShowMethods
    case SetIncludeInheritance(_) => IncludeInheritance
    case SetExcludeModels(_) => ExcludeModels
    case SetExcludeControllers(_) => ExcludeControllers
    case SetDiagramFormat(_) => Format
  }

  /** The value a writer call assigns. */
  function ValueOf(s: Setting): Value {
    match s
    case SetOutputDir(v) => Text(v)
    case SetDiagramDirection(v) => Text(v)
    case SetShowAttributes(v) => Flag(v)
    case SetShowMethods(v) => Flag(v)
    case SetIncludeInheritance(v) => Flag(v)
    case SetExcludeModels(v) => Names(v)
    case SetExcludeControllers(v) => Names(v)
    case SetDiagramFormat(v) => FormatValue(v)
  }

  /** A writer: reading the field back gives the value written, and every other field is unchanged. */
  function Set(c: Config, s: Setting): (r: Config)
    ensures Get(r, FieldOf(s)) == ValueOf(s)
    ensures forall f :: f != FieldOf(s) ==> Get(r, f) == Get(c, f)
  {
    Config(
      if s.SetOutputDir? then s.outputDir else c.outputDir,
      if s.SetDiagramDirection? then s.direction else c.diagramDirection,
      if s.SetShowAttributes? then s.showAttributes else c.showAttributes,
      if s.SetShowMethods? then s.showMethods else c.showMethods,
      if s.SetIncludeInheritance? then s.includeInheritance else c.includeInheritance,
      if s.SetExcludeModels? then s.models else c.excludeModels,
      if s.SetExcludeControllers? then s.controllers else c.excludeControllers,
      if s.SetDiagramFormat? then s.format else c.diagramFormat)
  }

  /** Two configurations that agree on every field are the same configuration. */
  lemma FieldsDetermineConfig(c: Config, d: Config)
    requires forall f :: Get(c, f) == Get(d, f)
    ensures c == d
  {
    assert Get(c, OutputDir) == Get(d, OutputDir);
    assert Get(c, DiagramDirection) == Get(d, DiagramDirection);
    assert Get(c, ShowAttributes) == Get(d, ShowAttributes);
    assert Get(c, ShowMethods) == Get(d, ShowMethods);
    assert Get(c, IncludeInheritance) == Get(d, IncludeInheritance);
    assert Get(c, ExcludeModels) == Get(d, ExcludeModels);
    assert Get(c, ExcludeControllers) == Get(d, ExcludeControllers);
    assert Get(c, Format) == Get(d, Format);
  }

  /** Writers of different fields do not interfere: their order does not matter. */
  lemma SettersCommute(c: Config, s: Setting, t: Setting)
    requires FieldOf(s) != FieldOf(t)
    ensures Set(Set(c, s), t) == Set(Set(c, t), s)
  {
    var a := Set(Set(c, s), t);
    var b := Set(Set(c, t), s);
    forall f
      ensures Get(a, f) == Get(b, f)
    {
    }
    FieldsDetermineConfig(a, b);
  }

  /** Writing the same field twice keeps only the second value. */
  lemma LastWriteWins(c: Config, s: Setting, t: Setting)
    requires FieldOf(s) == FieldOf(t)
    ensures Set(Set(c, s), t) == Set(c, t)
  {
    var a := Set(Set(c, s), t);
    var b := Set(c, t);
    forall f
      ensures Get(a, f) == Get(b, f)
    {
    }
    FieldsDetermineConfig(a, b);
  }
}
