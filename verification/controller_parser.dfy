/**
 * The controller parser: one concrete, attribute-less class per
 * controller that is not excluded, listing its action, protected and
 * private methods with their visibility marks, and an edge from a named
 * parent controller.
 *
 * The controller list is a parameter (eager loading is not modelled);
 * an error while reading the superclass is rescued, and so appears here
 * as an unreadable superclass.
 */
module ControllerParser {
  import opened Wrappers
  import opened Seqs
  import opened DiagramModel
  import opened Descriptors
  import Configuration

  /** `excluded?`: the controller's name is listed in the configuration. */
  predicate Excluded(config: Configuration.Config, c: ControllerDescriptor) {
    c.name in config.excludeControllers
  }

  /** The names as methods with the given visibility mark and no return type. */
  function Tagged(names: seq<string>, visibility: string): (r: seq<Method>)
    ensures |r| == |names|
    ensures forall i :: 0 <= i < |names| ==> r[i] == Method(names[i], Some(visibility), None)
  {
    seq(|names|, i requires 0 <= i < |names| => Method(names[i], Some(visibility), None))
  }

  /** `extract_methods`: action methods, then protected, then private, each group unless hidden. */
  function ExtractMethods(opts: ParseOptions, c: ControllerDescriptor): (r: seq<Method>)
    ensures |r| == (if opts.hidePublic then 0 else |c.actionMethods|)
                 + (if opts.hideProtected then 0 else |c.protectedMethods|)
                 + (if opts.hidePrivate then 0 else |c.privateMethods|)
  {
    (if opts.hidePublic then [] else Tagged(c.actionMethods, "+"))
    + (if opts.hideProtected then [] else Tagged(c.protectedMethods, "#"))
    + (if opts.hidePrivate then [] else Tagged(c.privateMethods, "-"))
  }

  /** A method is listed with a mark exactly when its group is shown and holds it. */
  lemma ExtractMethodsMembership(opts: ParseOptions, c: ControllerDescriptor, name: string)
    ensures Method(name, Some("+"), None) in ExtractMethods(opts, c) <==> !opts.hidePublic && name in c.actionMethods
    ensures Method(name, Some("#"), None) in ExtractMethods(opts, c) <==> !opts.hideProtected && name in c.protectedMethods
    ensures Method(name, Some("-"), None) in ExtractMethods(opts, c) <==> !opts.hidePrivate && name in c.privateMethods
  {
    var pub := if opts.hidePublic then [] else Tagged(c.actionMethods, "+");
    var prot := if opts.hideProtected then [] else Tagged(c.protectedMethods, "#");
    var priv := if opts.hidePrivate then [] else Tagged(c.privateMethods, "-");
    TaggedMembership(c.actionMethods, "+", name);
    TaggedMembership(c.protectedMethods, "#", name);
    TaggedMembership(c.privateMethods, "-", name);
    assert ExtractMethods(opts, c) == pub + prot + priv;
  }

  lemma TaggedMembership(names: seq<string>, visibility: string, name: string)
    ensures Method(name, Some(visibility), None) in Tagged(names, visibility) <==> name in names
  {
    var r := Tagged(names, visibility);
    if name in names {
      var i :| 0 <= i < |names| && names[i] == name;
      assert r[i] == Method(name, Some(visibility), None);
    }
  }

  /** The number of listed action methods: all of them, or none when public methods are hidden. */
  function PublicCount(opts: ParseOptions, c: ControllerDescriptor): nat {
    if opts.hidePublic then 0 else |c.actionMethods|
  }

  /** The number of listed protected methods. */
  function ProtectedCount(opts: ParseOptions, c: ControllerDescriptor): nat {
    if opts.hideProtected then 0 else |c.protectedMethods|
  }

  /** Each shown group keeps the methods in the order reflection reports them, at its own offset. */
  lemma ExtractMethodsInPlace(opts: ParseOptions, c: ControllerDescriptor)
    ensures !opts.hidePublic ==> forall i :: 0 <= i < |c.actionMethods| ==>
      ExtractMethods(opts, c)[i] == Method(c.actionMethods[i], Some("+"), None)
    ensures !opts.hideProtected ==> forall i :: 0 <= i < |c.protectedMethods| ==>
      ExtractMethods(opts, c)[PublicCount(opts, c) + i] == Method(c.protectedMethods[i], Some("#"), None)
    ensures !opts.hidePrivate ==> forall i :: 0 <= i < |c.privateMethods| ==>
      ExtractMethods(opts, c)[PublicCount(opts, c) + ProtectedCount(opts, c) + i] == Method(c.privateMethods[i], Some("-"), None)
  {
    var pub := if opts.hidePublic then [] else Tagged(c.actionMethods, "+");
    var prot := if opts.hideProtected then [] else Tagged(c.protectedMethods, "#");
    var priv := if opts.hidePrivate then [] else Tagged(c.privateMethods, "-");
    var r := ExtractMethods(opts, c);
    assert r == pub + prot + priv;
    assert |pub| == PublicCount(opts, c) && |prot| == ProtectedCount(opts, c);
    if !opts.hidePublic {
      forall i | 0 <= i < |c.actionMethods|
        ensures r[i] == Method(c.actionMethods[i], Some("+"), None)
      {
        IndexOfThree(pub, prot, priv, i);
      }
    }
    if !opts.hideProtected {
      forall i | 0 <= i < |c.protectedMethods|
        ensures r[PublicCount(opts, c) + i] == Method(c.protectedMethods[i], Some("#"), None)
      {
        IndexOfThree(pub, prot, priv, |pub| + i);
      }
    }
    if !opts.hidePrivate {
      forall i | 0 <= i < |c.privateMethods|
        ensures r[PublicCount(opts, c) + ProtectedCount(opts, c) + i] == Method(c.privateMethods[i], Some("-"), None)
      {
        IndexOfThree(pub, prot, priv, |pub| + |prot| + i);
      }
    }
  }

  /** The position of a visibility mark in the listing: public, then protected, then private. */
  function Rank(m: Method): nat {
    if m.visibility == Some("+") then 0 else if m.visibility == Some("#") then 1 else 2
  }

  /** The groups are never interleaved: marks appear in the order `+`, `#`, `-`. */
  lemma ExtractMethodsOrdered(opts: ParseOptions, c: ControllerDescriptor)
    ensures var r := ExtractMethods(opts, c);
      forall i, j :: 0 <= i < j < |r| ==> Rank(r[i]) <= Rank(r[j])
  {
    var pub := if opts.hidePublic then [] else Tagged(c.actionMethods, "+");
    var prot := if opts.hideProtected then [] else Tagged(c.protectedMethods, "#");
    var priv := if opts.hidePrivate then [] else Tagged(c.privateMethods, "-");
    var r := ExtractMethods(opts, c);
    assert r == pub + prot + priv;
    forall i | 0 <= i < |r|
      ensures Rank(r[i]) == if i < |pub| then 0 else if i < |pub| + |prot| then 1 else 2
    {
      IndexOfThree(pub, prot, priv, i);
    }
  }

  /** `parse_controller`: never abstract, no attributes, methods listed whatever `show_methods` says. */
  function ParseController(opts: ParseOptions, c: ControllerDescriptor): (r: ClassEntity)
    ensures r.name == c.name && !r.isAbstract && r.attributes == []
    ensures r.methods == ExtractMethods(opts, c)
  {
    ClassEntity(c.name, false, [], ExtractMethods(opts, c))
  }

  /** `extract_inheritance`: an edge from the parent exactly when it is a controller with a name. */
  function ExtractInheritance(c: ControllerDescriptor): (r: seq<Relationship>)
    ensures r != [] <==> c.superclass.ParentController? && c.superclass.name.Some?
    ensures r != [] ==> r == [Relationship(c.superclass.name.value, c.name, Inheritance, None, None, None)]
  {
    match c.superclass
    case RootController => []
    case ParentController(parentName) =>
      if parentName.None? then [] else [Relationship(parentName.value, c.name, Inheritance, None, None, None)]
    case UnreadableControllerSuperclass => []
  }

  /** A kept controller's edges: its inheritance edge when enabled. */
  function ControllerEdges(config: Configuration.Config, c: ControllerDescriptor): seq<Relationship> {
    if config.includeInheritance then ExtractInheritance(c) else []
  }

  /** `parse` over the loaded controllers, in order. */
  function Parse(config: Configuration.Config, opts: ParseOptions, controllers: seq<ControllerDescriptor>)
    : (d: ClassDiagram)
    ensures |d.classes| <= |controllers|
    decreases |controllers|
  {
    if |controllers| == 0 then ClassDiagram([], [])
    else
      var rest := Parse(config, opts, controllers[1..]);
      var c := controllers[0];
      if Excluded(config, c) then rest
      else ClassDiagram([ParseController(opts, c)] + rest.classes, ControllerEdges(config, c) + rest.relationships)
  }

  /** Parsing is compositional: the controllers are handled one at a time, in order. */
  lemma {:induction false} ParseAppend(config: Configuration.Config, opts: ParseOptions,
                                       a: seq<ControllerDescriptor>, b: seq<ControllerDescriptor>)
    ensures Parse(config, opts, a + b) == Parse(config, opts, a).Then(Parse(config, opts, b))
    decreases |a|
  {
    var db := Parse(config, opts, b);
    if |a| == 0 {
      assert a + b == b;
      AppendNil(db.classes);
      AppendNil(db.relationships);
    } else {
      var c := a[0];
      assert (a + b)[0] == c;
      assert (a + b)[1..] == a[1..] + b;
      ParseAppend(config, opts, a[1..], b);
      var dr := Parse(config, opts, a[1..]);
      if !Excluded(config, c) {
        var edges := ControllerEdges(config, c);
        AppendAssoc([ParseController(opts, c)], dr.classes, db.classes);
        AppendAssoc(edges, dr.relationships, db.relationships);
      }
    }
  }

  /** An excluded controller contributes no class and no edge, wherever it stands. */
  lemma ExcludedControllerDropped(config: Configuration.Config, opts: ParseOptions,
                                  a: seq<ControllerDescriptor>, c: ControllerDescriptor, b: seq<ControllerDescriptor>)
    requires Excluded(config, c)
    ensures Parse(config, opts, a + [c] + b) == Parse(config, opts, a).Then(Parse(config, opts, b))
  {
    var da := Parse(config, opts, a);
    ParseAppend(config, opts, a + [c], b);
    ParseAppend(config, opts, a, [c]);
    assert Parse(config, opts, [c]) == ClassDiagram([], []) by {
      assert [c][1..] == [];
    }
    AppendNil(da.classes);
    AppendNil(da.relationships);
  }

  /** A kept controller contributes its class and then its inheritance edge, in place. */
  lemma ControllerInPlace(config: Configuration.Config, opts: ParseOptions,
                          a: seq<ControllerDescriptor>, c: ControllerDescriptor, b: seq<ControllerDescriptor>)
    requires !Excluded(config, c)
    ensures var d := Parse(config, opts, a + [c] + b);
      var da := Parse(config, opts, a);
      var db := Parse(config, opts, b);
      && d.classes == da.classes + [ParseController(opts, c)] + db.classes
      && d.relationships == da.relationships + (if config.includeInheritance then ExtractInheritance(c) else [])
                            + db.relationships
  {
    ParseAppend(config, opts, a + [c], b);
    ParseAppend(config, opts, a, [c]);
    assert [c][1..] == [];
    AppendNil([ParseController(opts, c)]);
    AppendNil(ControllerEdges(config, c));
    assert Parse(config, opts, [c]).classes == [ParseController(opts, c)] + [];
    assert Parse(config, opts, [c]).relationships == ControllerEdges(config, c) + [];
  }

  /** Each class is the class of some controller that is not excluded. */
  lemma {:induction false} ClassSources(config: Configuration.Config, opts: ParseOptions,
                                        controllers: seq<ControllerDescriptor>)
    ensures forall k | k in Parse(config, opts, controllers).classes ::
      exists c | c in controllers && !Excluded(config, c) :: ParseController(opts, c) == k
    decreases |controllers|
  {
    if |controllers| > 0 {
      var c0 := controllers[0];
      var tail := controllers[1..];
      ClassSources(config, opts, tail);
      assert forall c | c in tail :: c in controllers;
      if !Excluded(config, c0) {
        assert Parse(config, opts, controllers).classes == [ParseController(opts, c0)] + Parse(config, opts, tail).classes;
        assert c0 in controllers;
      }
    }
  }

  /** Every class comes from a controller that is not excluded, and every such controller yields its class. */
  lemma {:induction false} ParseClasses(config: Configuration.Config, opts: ParseOptions,
                                        controllers: seq<ControllerDescriptor>)
    ensures var d := Parse(config, opts, controllers);
      && (forall k | k in d.classes :: k.name !in config.excludeControllers && !k.isAbstract && k.attributes == [])
      && (forall c | c in controllers && !Excluded(config, c) :: ParseController(opts, c) in d.classes)
    ensures forall k | k in Parse(config, opts, controllers).classes ::
      exists c | c in controllers && !Excluded(config, c) :: ParseController(opts, c) == k
    decreases |controllers|
  {
    ClassSources(config, opts, controllers);
    if |controllers| > 0 {
      var c0 := controllers[0];
      var tail := controllers[1..];
      ParseClasses(config, opts, tail);
      var rest := Parse(config, opts, tail);
      var d := Parse(config, opts, controllers);
      assert forall c | c in controllers :: c == c0 || c in tail;
      assert forall c | c in tail :: c in controllers;
      if Excluded(config, c0) {
        assert d == rest;
      } else {
        assert d.classes == [ParseController(opts, c0)] + rest.classes;
        assert c0 in controllers;
      }
    }
  }

  /**
   * Every edge is an inheritance edge, and one from `parent` to `child`
   * is produced exactly when inheritance is enabled and a kept controller
   * named `child` has a superclass named `parent`.
   */
  lemma {:induction false} ParseInheritanceEdges(config: Configuration.Config, opts: ParseOptions,
                                                 controllers: seq<ControllerDescriptor>, parent: string, child: string)
    ensures forall e | e in Parse(config, opts, controllers).relationships ::
      e.kind == Inheritance && e.labelText.None?
    ensures Relationship(parent, child, Inheritance, None, None, None) in Parse(config, opts, controllers).relationships
      <==> config.includeInheritance
           && exists c | c in controllers ::
                !Excluded(config, c) && c.name == child && c.superclass == ParentController(Some(parent))
    decreases |controllers|
  {
    if |controllers| > 0 {
      var c := controllers[0];
      ParseInheritanceEdges(config, opts, controllers[1..], parent, child);
      assert forall x | x in controllers :: x == c || x in controllers[1..];
      assert forall x | x in controllers[1..] :: x in controllers;
    }
  }

  /** `show_methods` has no effect on controllers. */
  lemma {:induction false} ParseIgnoresShowMethods(config: Configuration.Config, opts: ParseOptions,
                                                   controllers: seq<ControllerDescriptor>, showMethods: bool)
    ensures Parse(config.(showMethods := showMethods), opts, controllers) == Parse(config, opts, controllers)
    decreases |controllers|
  {
    if |controllers| > 0 {
      ParseIgnoresShowMethods(config, opts, controllers[1..], showMethods);
    }
  }
}
