/**
 * The text of a generated file: the header template filled with the file's
 * name and Go package, then one conversion block per planned enum.
 */
module Rendering {
  import opened Wrappers
  import opened GoStrings
  import opened Descriptors
  import opened Naming
  import opened Planning

  /** A parsed template: literal text, or a {{.Key}} action printing one field of the data. */
  datatype Piece = Text(text: string) | Field(key: string)

  /** The header template. */
  const HeaderTemplate: seq<Piece> := [
    Text("// Code generated by protoc-gen-xorm. DO NOT EDIT.\n// source: "), Field("GetName"),
    Text("\npackage "), Field("GoPkg.Name"),
    Text("\n\nimport (\n\t\"strings\"\n\t\"database/sql/driver\"\n)\n\nvar _ = strings.Trim\nvar _ = driver.Bool\n")
  ]

  /** The conversion-block template: the FromDB, ToDB and Value methods of one enum type. */
  const MessageTemplate: seq<Piece> := [
    Text("\n// FromDB implements xorm.Conversion.FromDB\nfunc (x *"), Field("EnumName"),
    Text(") FromDB(bytes []byte) error {\n\tvalues := "), Field("EnumName"),
    Text("_value\n\tkey := string(bytes)\n\n\tvalue := int32(0)\n\tif v, ok := values[key]; ok {\n\t\tvalue = v\n\t} else if v, ok := values[\""),
    Field("Prefix"),
    Text("\"+\"_\"+key]; ok {\n\t\tvalue = v\n\t}\n\n\t*x = "), Field("EnumName"),
    Text("(value)\n\treturn nil\n}\n\n// ToDB implements xorm.Conversion.ToDB\nfunc (x *"), Field("EnumName"),
    Text(") ToDB() ([]byte, error) {\n\tname := "), Field("EnumName"),
    Text("_name[int32(*x)]\n\treturn []byte(strings.TrimPrefix(name, \""), Field("Prefix"),
    Text("\"+\"_\")), nil\n}\n\n// Value when parser where args\nfunc (x "), Field("EnumName"),
    Text(") Value() (driver.Value, error) {\n\treturn "), Field("EnumName"),
    Text("_name[int32(x)], nil\n}\n")
  ]

  /**
   * Executing a template: the pieces in order, each field printed from the
   * data; a key missing from the data prints as text/template does for a
   * missing map key.
   */
  function Execute(t: seq<Piece>, data: map<string, string>): string
  {
    if t == [] then ""
    else
      var out := match t[0]
        case Text(s) => s
        case Field(k) => if k in data then data[k] else "<no value>";
      out + Execute(t[1..], data)
  }

  /** A template that starts with non-empty text produces output starting with that text's first character. */
  lemma ExecuteStartsWithText(t: seq<Piece>, data: map<string, string>)
    requires t != [] && t[0].Text? && t[0].text != []
    ensures Execute(t, data) != [] && Execute(t, data)[0] == t[0].text[0]
  {
  }

  /** The header of a file: its name and its Go package name filled in. */
  function Header(file: SchemaFile): string
  {
    Execute(HeaderTemplate, map["GetName" := file.name, "GoPkg.Name" := file.goPkgName])
  }

  /** Executing a block template for one enum: its EnumName and Prefix filled in. */
  function Block(t: seq<Piece>, p: BlockParams): string
  {
    Execute(t, map["EnumName" := p.enumName, "Prefix" := p.prefix])
  }

  /** A template whose output is never empty: it starts with non-empty text. */
  predicate StartsWithText(t: seq<Piece>)
  {
    t != [] && t[0].Text? && t[0].text != []
  }

  /** The blocks of a plan, one after the other. */
  function Blocks(t: seq<Piece>, plan: seq<BlockParams>): string
  {
    if plan == [] then "" else Block(t, plan[0]) + Blocks(t, plan[1..])
  }

  /** The generated content of a file: the header, then the blocks of its plan. */
  function Render(file: SchemaFile, c: Casing): string
  {
    Header(file) + Blocks(MessageTemplate, Plan(file, c))
  }

  /** The text of two plans in a row is the text of the first followed by that of the second. */
  lemma {:induction false} BlocksAppend(t: seq<Piece>, a: seq<BlockParams>, b: seq<BlockParams>)
    ensures Blocks(t, a + b) == Blocks(t, a) + Blocks(t, b)
  {
    if a == [] {
      assert a + b == b;
    } else {
      assert (a + b)[1..] == a[1..] + b;
      BlocksAppend(t, a[1..], b);
    }
  }

  /** Text appended in two steps is the text appended at once. */
  lemma AppendAssociative(a: string, b: string, d: string)
    ensures (a + b) + d == a + (b + d)
  {
  }

  /** Naming and rendering one more visited enum appends its block. */
  lemma RenderedVisitsSnoc(t: seq<Piece>, refs: seq<EnumRef>, r: EnumRef, c: Casing)
    ensures Blocks(t, PlanOf(refs + [r], c)) == Blocks(t, PlanOf(refs, c)) + Block(t, Params(r, c))
  {
    PlanOfAppend(refs, [r], c);
    BlocksAppend(t, PlanOf(refs, c), PlanOf([r], c));
    assert PlanOf([r], c) == [Params(r, c)];
    assert Blocks(t, [Params(r, c)]) == Block(t, Params(r, c)) + Blocks(t, []);
  }

  /** With a template that starts with text, a plan renders to no text exactly when it has no block. */
  lemma BlocksEmptyIff(t: seq<Piece>, plan: seq<BlockParams>)
    requires StartsWithText(t)
    ensures Blocks(t, plan) == "" <==> plan == []
  {
    if plan != [] {
      ExecuteStartsWithText(t, map["EnumName" := plan[0].enumName, "Prefix" := plan[0].prefix]);
    }
  }

  /** The content always starts with the header. */
  lemma RenderStartsWithHeader(file: SchemaFile, c: Casing)
    ensures Header(file) <= Render(file, c)
  {
  }

  /** The content is the header, then the blocks of the file-level enums, then those of the message-nested enums. */
  lemma RenderLayout(file: SchemaFile, c: Casing)
    ensures Render(file, c) == Header(file) + Blocks(MessageTemplate, PlanOf(FileVisits(file.enums), c))
                                            + Blocks(MessageTemplate, PlanOf(MessagesVisits(file.messages), c))
  {
    var t := MessageTemplate;
    PlanOfAppend(FileVisits(file.enums), MessagesVisits(file.messages), c);
    BlocksAppend(t, PlanOf(FileVisits(file.enums), c), PlanOf(MessagesVisits(file.messages), c));
  }

  /**
   * A file renders to exactly its header when, and only when, it has no
   * file-level enum and no enum inside a message that is not a map entry.
   */
  lemma RenderIsHeaderIff(file: SchemaFile, c: Casing)
    ensures Render(file, c) == Header(file) <==>
      file.enums == [] && forall m :: m in file.messages ==> IsMapEntry(m) || m.enums == []
  {
    assert StartsWithText(MessageTemplate);
    BlocksEmptyIff(MessageTemplate, Plan(file, c));
    PlanEmptyIff(file, c);
    assert Render(file, c) == Header(file) <==> Blocks(MessageTemplate, Plan(file, c)) == "";
  }

  /**
   * An end-to-end example: a file of package p with a file-level
   * enum Color, and a message Outer holding an enum Size.
   */
  lemma ExampleFilePlan(c: Casing)
    requires c.toCamel("Color") == "Color" && c.toScreamingSnake("Color") == "COLOR"
    requires c.toCamel("Size") == "Size" && c.toScreamingSnake("Size") == "SIZE"
    ensures var file := SchemaFile("example.proto", "p", [EnumDecl("Color")],
                                   [MessageDecl("Outer", [], None, [EnumDecl("Size")])]);
            Plan(file, c) == [BlockParams("Color", "COLOR"), BlockParams("Outer_Size", "SIZE")]
  {
    var outer := MessageDecl("Outer", [], None, [EnumDecl("Size")]);
    var file := SchemaFile("example.proto", "p", [EnumDecl("Color")], [outer]);
    var color, size := BlockParams("Color", "COLOR"), BlockParams("Outer_Size", "SIZE");
    assert MessagesVisits([outer]) == MessageVisits(outer) + MessagesVisits([]);
    assert Visits(file) == [FileEnum(EnumDecl("Color")), MessageEnum(outer, EnumDecl("Size"))];
    assert FlattenName(outer) == "Outer";
    assert "Outer" + "_" + "Size" == "Outer_Size";
    PlanOfAppend([FileEnum(EnumDecl("Color"))], [MessageEnum(outer, EnumDecl("Size"))], c);
  }

  /** The loop over the file-level enums: one block each, named by the camel-cased enum name. */
  method WriteFileEnumBlocks(w0: string, t: seq<Piece>, enums: seq<EnumDecl>, c: Casing) returns (w: string)
    ensures w == w0 + Blocks(t, PlanOf(FileVisits(enums), c))
  {
    w := w0;
    assert enums[..0] == [];
    for i := 0 to |enums|
      invariant w == w0 + Blocks(t, PlanOf(FileVisits(enums[..i]), c))
    {
      var e := enums[i];
      FileVisitsStep(enums, i);
      RenderedVisitsSnoc(t, FileVisits(enums[..i]), FileEnum(e), c);
      w := w + Block(t, BlockParams(c.toCamel(e.name), c.toScreamingSnake(e.name)));
    }
    assert enums[..|enums|] == enums;
  }

  /** The loop over the enums of one message: one block each, under the message's flattened name. */
  method WriteMessageEnumBlocks(w0: string, t: seq<Piece>, msg: MessageDecl, name: string, c: Casing) returns (w: string)
    requires name == FlattenName(msg)
    ensures w == w0 + Blocks(t, PlanOf(EnumVisits(msg, msg.enums), c))
  {
    w := w0;
    assert msg.enums[..0] == [];
    for j := 0 to |msg.enums|
      invariant w == w0 + Blocks(t, PlanOf(EnumVisits(msg, msg.enums[..j]), c))
    {
      var e := msg.enums[j];
      EnumVisitsStep(msg, j);
      RenderedVisitsSnoc(t, EnumVisits(msg, msg.enums[..j]), MessageEnum(msg, e), c);
      w := w + Block(t, BlockParams(name + "_" + c.toCamel(e.name), c.toScreamingSnake(e.name)));
    }
    assert msg.enums[..|msg.enums|] == msg.enums;
  }

  /**
   * The per-file rendering loop: write the header into the buffer, then one
   * block per file-level enum, then, skipping map-entry messages, one block
   * per enum of each message under its flattened name.
   */
  method RenderFile(file: SchemaFile, c: Casing) returns (content: string)
    ensures content == Render(file, c)
  {
    var t := MessageTemplate;
    var w := Header(file);
    w := WriteFileEnumBlocks(w, t, file.enums, c);
    ghost var fileText := w;

    assert file.messages[..0] == [];
    for i := 0 to |file.messages|
      invariant w == fileText + Blocks(t, PlanOf(MessagesVisits(file.messages[..i]), c))
    {
      var msg := file.messages[i];
      ghost var done := PlanOf(MessagesVisits(file.messages[..i]), c);
      ghost var added := PlanOf(MessageVisits(msg), c);
      MessagesVisitsStep(file.messages, i);
      PlanOfAppend(MessagesVisits(file.messages[..i]), MessageVisits(msg), c);
      BlocksAppend(t, done, added);
      if msg.options.Some? && msg.options.value.mapEntry {
        assert added == [];
        assert Blocks(t, done) + Blocks(t, added) == Blocks(t, done);
        continue;
      }

      var name := msg.name;
      if |msg.outers| > 0 {
        name := Join(msg.outers, "_") + "_" + name;
      }
      assert added == PlanOf(EnumVisits(msg, msg.enums), c);
      w := WriteMessageEnumBlocks(w, t, msg, name, c);
      AppendAssociative(fileText, Blocks(t, done), Blocks(t, added));
    }
    assert file.messages[..|file.messages|] == file.messages;
    RenderLayout(file, c);
    content := w;
  }
}
