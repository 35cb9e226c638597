/**
 * How each enum's conversion block is named: the Go symbol it attaches to
 * (EnumName) and the value-name prefix it strips (Prefix).
 */
module Naming {
  import opened Wrappers
  import opened GoStrings
  import opened Descriptors

  /**
   * The two case conversions of the strcase library, kept uninterpreted:
   * the model holds for whatever total functions they are.
   */
  datatype Casing = Casing(toCamel: string -> string, toScreamingSnake: string -> string)

  /** The two values substituted into the conversion-block template. */
  datatype BlockParams = BlockParams(enumName: string, prefix: string)

  /** The flattened name of a message: its enclosing names and its own name, joined by '_'. */
  function FlattenName(m: MessageDecl): string
  {
    if |m.outers| > 0 then Join(m.outers, "_") + "_" + m.name else m.name
  }

  /** The flattened name is every name on the path to the message, outermost first, joined by '_'. */
  lemma FlattenNameIsJoin(m: MessageDecl)
    ensures FlattenName(m) == Join(m.outers + [m.name], "_")
  {
    JoinSnoc(m.outers, m.name, "_");
  }

  /** Block parameters of an enum declared at file level. */
  function FileEnumParams(e: EnumDecl, c: Casing): BlockParams
  {
    BlockParams(c.toCamel(e.name), c.toScreamingSnake(e.name))
  }

  /**
   * Block parameters of an enum declared in message m: the symbol is the
   * whole enclosing path joined by '_', while the prefix comes from the bare
   * enum name exactly as for a file-level enum.
   */
  function NestedEnumParams(m: MessageDecl, e: EnumDecl, c: Casing): BlockParams
  {
    BlockParams(FlattenName(m) + "_" + c.toCamel(e.name), c.toScreamingSnake(e.name))
  }

  /**
   * Two different messages can flatten to the same name, so their nested
   * enums of one name get the same EnumName; nothing guards against it.
   */
  lemma FlattenedNamesCanCollide(c: Casing)
    ensures var m1 := MessageDecl("B_C", ["A"], None, []);
            var m2 := MessageDecl("C", ["A_B"], None, []);
            m1 != m2 && NestedEnumParams(m1, EnumDecl("E"), c) == NestedEnumParams(m2, EnumDecl("E"), c)
  {
    var m1 := MessageDecl("B_C", ["A"], None, []);
    var m2 := MessageDecl("C", ["A_B"], None, []);
    assert FlattenName(m1) == "A" + "_" + "B_C";
    assert FlattenName(m2) == "A_B" + "_" + "C";
    assert "A" + "_" + "B_C" == "A_B" + "_" + "C";
  }
}
