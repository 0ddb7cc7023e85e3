/**
 * What both renderers share: the diagram direction with its default, the
 * escaping of class names that Mermaid would not accept bare, and the
 * case-insensitive normalisation of a column type to a Mermaid type name.
 */
module BaseRenderer {
  import opened Wrappers
  import opened Text
  import opened Lookup

  const DefaultDirection: string := "TB"

  datatype Renderer = Renderer(direction: string)

  /** `BaseRenderer.new(direction: ...)`: `None` stands for the omitted keyword. */
  function NewRenderer(direction: Option<string>): (r: Renderer)
    ensures direction.None? ==> r.direction == "TB"
    ensures direction.Some? ==> r.direction == direction.value
  {
    Renderer(direction.GetOr(DefaultDirection))
  }

  predicate AllWordChars(name: string) {
    forall i :: 0 <= i < |name| ==> IsWordChar(name[i])
  }

  /** A name with any character outside `[a-zA-Z0-9_]` is wrapped in backticks. */
  function EscapeClassName(name: string): (r: string)
    ensures r == name <==> AllWordChars(name)
    ensures !AllWordChars(name) ==> r == "`" + name + "`"
  {
    if exists i | 0 <= i < |name| :: !IsWordChar(name[i]) then "`" + name + "`" else name
  }

  /** Distinct class names stay distinct after escaping. */
  lemma EscapeClassNameInjective(a: string, b: string)
    requires EscapeClassName(a) == EscapeClassName(b)
    ensures a == b
  {
    if AllWordChars(a) != AllWordChars(b) {
      BackquotedNotWord(if AllWordChars(a) then b else a);
      assert false;
    } else if !AllWordChars(a) {
      assert a == ("`" + a + "`")[1..|a| + 1];
      assert b == ("`" + b + "`")[1..|b| + 1];
    }
  }

  /** A namespaced name is quoted; names of word characters are left alone. */
  lemma EscapeClassNameExamples()
    ensures EscapeClassName("User::Profile") == "`" + "User::Profile" + "`"
    ensures EscapeClassName("User_Profile") == "User_Profile"
    ensures EscapeClassName("") == ""
  {
    assert !IsWordChar("User::Profile"[4]);
    assert AllWordChars("User_Profile");
  }

  lemma BackquotedNotWord(s: string)
    ensures !AllWordChars("`" + s + "`")
  {
    assert ("`" + s + "`")[0] == '`';
  }

  /** The `when` clauses of `type_to_mermaid`, in source order. */
  const MermaidTypes: seq<Rule> := [
    Rule(["integer"], "Integer"),
    Rule(["string"], "String"),
    Rule(["text"], "Text"),
    Rule(["boolean"], "Boolean"),
    Rule(["datetime"], "DateTime"),
    Rule(["date"], "Date"),
    Rule(["time"], "Time"),
    Rule(["decimal"], "Decimal"),
    Rule(["float"], "Float"),
    Rule(["json"], "JSON")
  ]

  /**
   * The Mermaid name of a column type: the value of the first clause one of
   * whose patterns occurs in the type, ignoring case; otherwise the type
   * capitalised.
   */
  function TypeToMermaid(t: string): string {
    match FirstMatch(MermaidTypes, Lower(t))
    case Some(i) => MermaidTypes[i].result
    case None => Capitalize(t)
  }

  /**
   * First match wins: the clause chosen is one that matches the lower-cased
   * type while no earlier clause does, and a type no clause matches is
   * capitalised.
   */
  lemma TypeToMermaidFirstMatch(t: string, i: nat)
    requires i < |MermaidTypes|
    ensures Matches(MermaidTypes[i], Lower(t)) && (forall j :: 0 <= j < i ==> !Matches(MermaidTypes[j], Lower(t)))
      ==> TypeToMermaid(t) == MermaidTypes[i].result
    ensures (forall j :: 0 <= j < |MermaidTypes| ==> !Matches(MermaidTypes[j], Lower(t)))
      ==> TypeToMermaid(t) == Capitalize(t)
  {
    FirstMatchIsLeast(MermaidTypes, Lower(t), i);
    FirstMatchFromCorrect(MermaidTypes, Lower(t), 0);
  }

  // One lemma per clause of `MermaidTypes`: its pattern is matched first by
  // that clause, and its value lower-cases back to the pattern.

  lemma MermaidClause0()
    ensures IsFirstMatch(MermaidTypes, "integer", 0)
    ensures Lower("Integer") == "integer"
  {
    var R := MermaidTypes;
    var s := "integer";
    HitRule(R[0], s);
  }

  lemma MermaidClause1()
    ensures IsFirstMatch(MermaidTypes, "string", 1)
    ensures Lower("String") == "string"
  {
    var R := MermaidTypes;
    var s := "string";
    forall j | 0 <= j < 1 ensures !Matches(R[j], s) {
      MissRule(R[j], s, 'e');
    }
    HitRule(R[1], s);
  }

  lemma MermaidClause2()
    ensures IsFirstMatch(MermaidTypes, "text", 2)
    ensures Lower("Text") == "text"
  {
    var R := MermaidTypes;
    var s := "text";
    forall j | 0 <= j < 2 ensures !Matches(R[j], s) {
      if j == 0 { MissRule(R[j], s, 'i'); }
      else { MissRule(R[j], s, 's'); }
    }
    HitRule(R[2], s);
  }

  lemma MermaidClause3()
    ensures IsFirstMatch(MermaidTypes, "boolean", 3)
    ensures Lower("Boolean") == "boolean"
  {
    var R := MermaidTypes;
    var s := "boolean";
    forall j | 0 <= j < 3 ensures !Matches(R[j], s) {
      if j == 0 { MissRule(R[j], s, 'i'); }
      else if j == 1 { MissRule(R[j], s, 's'); }
      else { MissRule(R[j], s, 't'); }
    }
    HitRule(R[3], s);
  }

  lemma MermaidClause4()
    ensures IsFirstMatch(MermaidTypes, "datetime", 4)
    ensures Lower("DateTime") == "datetime"
  {
    var R := MermaidTypes;
    var s := "datetime";
    forall j | 0 <= j < 4 ensures !Matches(R[j], s) {
      if j == 0 { MissRule(R[j], s, 'n'); }
      else if j == 1 { MissRule(R[j], s, 's'); }
      else if j == 2 { MissRule(R[j], s, 'x'); }
      else { MissRule(R[j], s, 'b'); }
    }
    HitRule(R[4], s);
  }

  lemma MermaidClause5()
    ensures IsFirstMatch(MermaidTypes, "date", 5)
    ensures Lower("Date") == "date"
  {
    var R := MermaidTypes;
    var s := "date";
    forall j | 0 <= j < 5 ensures !Matches(R[j], s) {
      if j == 0 { MissRule(R[j], s, 'i'); }
      else if j == 1 { MissRule(R[j], s, 's'); }
      else if j == 2 { MissRule(R[j], s, 'x'); }
      else if j == 3 { MissRule(R[j], s, 'b'); }
      else { MissRule(R[j], s, 'i'); }
    }
    HitRule(R[5], s);
  }

  lemma MermaidClause6()
    ensures IsFirstMatch(MermaidTypes, "time", 6)
    ensures Lower("Time") == "time"
  {
    var R := MermaidTypes;
    var s := "time";
    forall j | 0 <= j < 6 ensures !Matches(R[j], s) {
      if j == 0 { MissRule(R[j], s, 'n'); }
      else if j == 1 { MissRule(R[j], s, 's'); }
      else if j == 2 { MissRule(R[j], s, 'x'); }
      else if j == 3 { MissRule(R[j], s, 'b'); }
      else if j == 4 { MissRule(R[j], s, 'd'); }
      else { MissRule(R[j], s, 'd'); }
    }
    HitRule(R[6], s);
  }

  lemma MermaidClause7()
    ensures IsFirstMatch(MermaidTypes, "decimal", 7)
    ensures Lower("Decimal") == "decimal"
  {
    var R := MermaidTypes;
    var s := "decimal";
    forall j | 0 <= j < 7 ensures !Matches(R[j], s) {
      if j == 0 { MissRule(R[j], s, 'n'); }
      else if j == 1 { MissRule(R[j], s, 's'); }
      else if j == 2 { MissRule(R[j], s, 't'); }
      else if j == 3 { MissRule(R[j], s, 'b'); }
      else if j == 4 { MissRule(R[j], s, 't'); }
      else if j == 5 { MissRule(R[j], s, 't'); }
      else { MissRule(R[j], s, 't'); }
    }
    HitRule(R[7], s);
  }

  lemma MermaidClause8()
    ensures IsFirstMatch(MermaidTypes, "float", 8)
    ensures Lower("Float") == "float"
  {
    var R := MermaidTypes;
    var s := "float";
    forall j | 0 <= j < 8 ensures !Matches(R[j], s) {
      if j == 0 { MissRule(R[j], s, 'i'); }
      else if j == 1 { MissRule(R[j], s, 's'); }
      else if j == 2 { MissRule(R[j], s, 'e'); }
      else if j == 3 { MissRule(R[j], s, 'b'); }
      else if j == 4 { MissRule(R[j], s, 'd'); }
      else if j == 5 { MissRule(R[j], s, 'd'); }
      else if j == 6 { MissRule(R[j], s, 'i'); }
      else { MissRule(R[j], s, 'd'); }
    }
    HitRule(R[8], s);
  }

  lemma MermaidClause9()
    ensures IsFirstMatch(MermaidTypes, "json", 9)
    ensures Lower("JSON") == "json"
  {
    var R := MermaidTypes;
    var s := "json";
    forall j | 0 <= j < 9 ensures !Matches(R[j], s) {
      if j == 0 { MissRule(R[j], s, 'i'); }
      else if j == 1 { MissRule(R[j], s, 't'); }
      else if j == 2 { MissRule(R[j], s, 't'); }
      else if j == 3 { MissRule(R[j], s, 'b'); }
      else if j == 4 { MissRule(R[j], s, 'd'); }
      else if j == 5 { MissRule(R[j], s, 'd'); }
      else if j == 6 { MissRule(R[j], s, 't'); }
      else if j == 7 { MissRule(R[j], s, 'd'); }
      else { MissRule(R[j], s, 'f'); }
    }
    HitRule(R[9], s);
  }

  /** A canonical Mermaid name is matched first by its own clause. */
  lemma MermaidResultMatchesItself(i: nat)
    requires i < |MermaidTypes|
    ensures IsFirstMatch(MermaidTypes, Lower(MermaidTypes[i].result), i)
  {
    if i < 5 {
      MermaidLowResultMatchesItself(i);
    } else {
      MermaidHighResultMatchesItself(i);
    }
  }

  lemma MermaidLowResultMatchesItself(i: nat)
    requires i < 5
    ensures IsFirstMatch(MermaidTypes, Lower(MermaidTypes[i].result), i)
  {
    if i == 0 { MermaidClause0(); }
    else if i == 1 { MermaidClause1(); }
    else if i == 2 { MermaidClause2(); }
    else if i == 3 { MermaidClause3(); }
    else { MermaidClause4(); }
  }

  lemma MermaidHighResultMatchesItself(i: nat)
    requires 5 <= i < |MermaidTypes|
    ensures IsFirstMatch(MermaidTypes, Lower(MermaidTypes[i].result), i)
  {
    if i == 5 { MermaidClause5(); }
    else if i == 6 { MermaidClause6(); }
    else if i == 7 { MermaidClause7(); }
    else if i == 8 { MermaidClause8(); }
    else { MermaidClause9(); }
  }

  /** Normalising an already normalised type changes nothing. */
  lemma TypeToMermaidIdempotent(t: string)
    ensures TypeToMermaid(TypeToMermaid(t)) == TypeToMermaid(t)
  {
    match FirstMatch(MermaidTypes, Lower(t))
    case Some(i) =>
      MermaidResultMatchesItself(i);
      FirstMatchIsLeast(MermaidTypes, Lower(MermaidTypes[i].result), i);
    case None =>
      LowerOfCapitalize(t);
      CapitalizeIdempotent(t);
  }

  /** A canonical name, lower-cased, maps back to itself. */
  lemma TypeToMermaidOfPattern(i: nat)
    requires i < |MermaidTypes|
    ensures TypeToMermaid(Lower(MermaidTypes[i].result)) == MermaidTypes[i].result
  {
    var res := MermaidTypes[i].result;
    MermaidResultMatchesItself(i);
    LowerIdempotent(res);
    FirstMatchIsLeast(MermaidTypes, Lower(res), i);
  }

  /** The column types of the renderer's examples and their Mermaid names. */
  lemma MermaidExamples()
    ensures TypeToMermaid("integer") == "Integer" && TypeToMermaid("string") == "String"
    ensures TypeToMermaid("text") == "Text" && TypeToMermaid("boolean") == "Boolean"
    ensures TypeToMermaid("datetime") == "DateTime" && TypeToMermaid("date") == "Date"
    ensures TypeToMermaid("decimal") == "Decimal" && TypeToMermaid("float") == "Float"
    ensures TypeToMermaid("json") == "JSON"
  {
    MermaidClause0(); TypeToMermaidOfPattern(0);
    MermaidClause1(); TypeToMermaidOfPattern(1);
    MermaidClause2(); TypeToMermaidOfPattern(2);
    MermaidClause3(); TypeToMermaidOfPattern(3);
    MermaidClause4(); TypeToMermaidOfPattern(4);
    MermaidClause5(); TypeToMermaidOfPattern(5);
    MermaidClause7(); TypeToMermaidOfPattern(7);
    MermaidClause8(); TypeToMermaidOfPattern(8);
    MermaidClause9(); TypeToMermaidOfPattern(9);
  }

  /** `datetime` is caught by its own clause before `date` and `time` can be, in any case. */
  lemma DatetimeBeforeDateAndTime()
    ensures TypeToMermaid("DATETIME") == "DateTime"
  {
    MermaidClause4();
    assert Lower("DATETIME") == "datetime";
    FirstMatchIsLeast(MermaidTypes, "datetime", 4);
  }

  lemma TimestampFirstMatch()
    ensures FirstMatch(MermaidTypes, "timestamp") == Some(6)
  {
    var R := MermaidTypes;
    var s := "timestamp";
    forall j | 0 <= j < 6 ensures !Matches(R[j], s) {
      if j == 0 { MissRule(R[j], s, 'n'); }
      else if j == 1 { MissRule(R[j], s, 'r'); }
      else if j == 2 { MissRule(R[j], s, 'x'); }
      else if j == 3 { MissRule(R[j], s, 'b'); }
      else if j == 4 { MissRule(R[j], s, 'd'); }
      else { MissRule(R[j], s, 'd'); }
    }
    assert OccursAt(s, "time", 0);
    assert Contains(s, "time");
    FirstMatchIsLeast(R, s, 6);
  }

  /** With no `timestamp` clause, a timestamp column is shown as `Time`. */
  lemma TimestampIsTime()
    ensures TypeToMermaid("timestamp") == "Time"
  {
    TimestampFirstMatch();
    assert Lower("timestamp") == "timestamp";
  }

  lemma CustomMatchesNothing()
    ensures FirstMatch(MermaidTypes, "custom") == None
  {
    var R := MermaidTypes;
    var s := "custom";
    forall j | 0 <= j < 10 ensures !Matches(R[j], s) {
      if j == 0 { MissRule(R[j], s, 'i'); }
      else if j == 1 { MissRule(R[j], s, 'r'); }
      else if j == 2 { MissRule(R[j], s, 'e'); }
      else if j == 3 { MissRule(R[j], s, 'b'); }
      else if j == 4 { MissRule(R[j], s, 'd'); }
      else if j == 5 { MissRule(R[j], s, 'd'); }
      else if j == 6 { MissRule(R[j], s, 'i'); }
      else if j == 7 { MissRule(R[j], s, 'd'); }
      else if j == 8 { MissRule(R[j], s, 'f'); }
      else { MissRule(R[j], s, 'j'); }
    }
    FirstMatchFromCorrect(R, s, 0);
  }

  /** A type no clause recognises is capitalised. */
  lemma UnknownTypeIsCapitalized()
    ensures TypeToMermaid("custom") == "Custom"
  {
    CustomMatchesNothing();
    assert Lower("custom") == "custom";
    assert Capitalize("custom") == "Custom";
  }

  lemma EscapeClassNameNoNewline(name: string)
    requires NoNewline(name)
    ensures NoNewline(EscapeClassName(name))
  {
  }

  lemma TypeToMermaidNoNewline(t: string)
    requires NoNewline(t)
    ensures NoNewline(TypeToMermaid(t))
  {
    match FirstMatch(MermaidTypes, Lower(t))
    case Some(i) =>
    case None =>
      NoNewlineCapitalize(t);
  }
}
