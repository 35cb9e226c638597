/**
 * The read-only descriptor tree the generator walks, as the descriptor
 * registry hands it over: one schema file, its file-level enums and the flat
 * list of all its messages, nested ones included, each carrying the names of
 * the messages enclosing it.
 */
module Descriptors {
  import opened Wrappers

  /** An enum declaration; only its declared (unqualified) name matters here. */
  datatype EnumDecl = EnumDecl(name: string)

  /** The message options the generator reads; an unset map_entry reads as false. */
  datatype MessageOptions = MessageOptions(mapEntry: bool)

  /**
   * A message: its own name, the names of its enclosing messages (outermost
   * first), its options if present, and the enums declared directly in it.
   */
  datatype MessageDecl = MessageDecl(
    name: string,
    outers: seq<string>,
    options: Option<MessageOptions>,
    enums: seq<EnumDecl>)

  /**
   * A schema file: its name, the Go package name resolved for it, its
   * file-level enums and all its messages, in declaration order.
   */
  datatype SchemaFile = SchemaFile(
    name: string,
    goPkgName: string,
    enums: seq<EnumDecl>,
    messages: seq<MessageDecl>)

  /** Options present and flagged map_entry: a synthetic map-entry message. */
  predicate IsMapEntry(m: MessageDecl)
  {
    m.options.Some? && m.options.value.mapEntry
  }
}
