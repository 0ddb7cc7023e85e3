/**
 * Plain records standing for what the parsers read through Rails
 * reflection: database tables and columns, model classes with their
 * associations, controller classes with their method lists, and the
 * options hash the parsers are built with.
 */
module Descriptors {
  import opened Wrappers

  /** A database column: its name and its type symbol, as text. */
  datatype ColumnDescriptor = ColumnDescriptor(name: string, typ: string)

  /** A table the connection lists, with its columns in database order. */
  datatype TableDescriptor = TableDescriptor(name: string, columns: seq<ColumnDescriptor>)

  /** The `macro` of an association reflection. */
  datatype AssocMacro = BelongsTo | HasOne | HasMany | HasAndBelongsToMany | OtherMacro(symbol: string)

  /**
   * An association reflection. `className` is `None` when resolving the
   * associated class raises `NameError`; `through` is the `:through` option.
   */
  datatype AssociationDescriptor = AssociationDescriptor(
    macro: AssocMacro,
    name: string,
    className: Option<string>,
    through: bool)

  /**
   * A model's superclass: the root `ActiveRecord::Base`, another model
   * class (possibly abstract), or one whose inspection raises.
   */
  datatype ModelSuperclass = RootBase | ParentModel(name: string, isAbstract: bool) | UnreadableModelSuperclass

  datatype ModelDescriptor = ModelDescriptor(
    name: string,
    isAbstract: bool,
    tableExists: bool,
    columns: seq<ColumnDescriptor>,
    associations: seq<AssociationDescriptor>,
    superclass: ModelSuperclass)

  /**
   * A controller's superclass: the root `ActionController::Base`, another
   * class whose `name` may be `nil` (an anonymous class), or one whose
   * inspection raises.
   */
  datatype ControllerSuperclass = RootController | ParentController(name: Option<string>) | UnreadableControllerSuperclass

  /** A controller class: its action methods and its own protected and private instance methods. */
  datatype ControllerDescriptor = ControllerDescriptor(
    name: string,
    actionMethods: seq<string>,
    protectedMethods: seq<string>,
    privateMethods: seq<string>,
    superclass: ControllerSuperclass)

  /** The options hash; an absent key reads as `false`. */
  datatype ParseOptions = ParseOptions(
    allColumns: bool,
    hideThrough: bool,
    showBelongsTo: bool,
    hidePublic: bool,
    hideProtected: bool,
    hidePrivate: bool)

  /** `{}`: every option absent. */
  function NoOptions(): ParseOptions {
    ParseOptions(false, false, false, false, false, false)
  }
}
