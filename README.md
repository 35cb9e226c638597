# protoc-gen-xorm, modelled in Dafny

protoc-gen-xorm is a protoc plugin. For every schema file it is asked to
generate, it writes a Go file `<base>.pb.xorm.go`. That file holds a fixed
header and, for every enum the schema declares, a block of three methods
(`FromDB`, `ToDB`, `Value`) that let the xorm ORM store the enum as its
value name rather than as a number.

This project models the per-file generation step of `main.go` and the
run-time behaviour of the methods it emits:

- `wrappers.dfy`: `Option` and `Result`.
- `go_strings.dfy`: the Go library functions the generator calls.
  These are `strings.Join`, `strings.TrimPrefix`, `strings.TrimSuffix`
  and `filepath.Ext`, with its backward scan over the final path element.
- `descriptors.dfy`: the input tree. A schema file has a name, a Go
  package name, its file-level enums and its flat list of messages. Each
  message carries its enclosing message names (`outers`), optional
  options with the map-entry flag, and its own enums.
- `naming.dfy`: name flattening and the `(EnumName, Prefix)` pair of
  each enum. `strcase.ToCamel` and `strcase.ToScreamingSnake` are kept
  uninterpreted: they are two arbitrary total functions held in a
  `Casing` value.
- `planning.dfy`: the tree walk as a sequence of visited enums.
  - `Visits` lists the file-level enums first.
  - Then it lists the enums of each message that is not a map entry.
  - `Plan` names every visit.
- `rendering.dfy`: the two templates, parsed into text and field pieces,
  and their execution over a string map.
  - `Render` is the specification of a file's content.
  - `RenderFile` is the imperative loop that appends to the buffer. It is
    proved equal to `Render`.
- `generator.dfy`: the output file name, the lookup loop over the files
  to generate, the generation loop, and the whole run.
- `conversion.dfy`: the emitted `FromDB`, `ToDB` and `Value`.
  - They are functions over the `E_value` and `E_name` tables and the
    prefix.
  - A small class models the receiver that `FromDB` stores into.
  - There are round-trip lemmas and a counterexample for the ambiguous
    case.

## Model

| member | source | states |
|---|---|---|
| GoStrings.TrimPrefix | main.go:63 | strings.TrimPrefix: the prefix followed by the result gives back s when s starts with the prefix; otherwise s is returned unchanged |
| GoStrings.TrimSuffix | main.go:142 | strings.TrimSuffix: the result followed by the suffix gives back s when s ends with it; otherwise s is returned unchanged |
| GoStrings.Join | main.go:127 | definition of strings.Join: the empty string for no element, the element itself for one, otherwise the elements with the separator between neighbours; see JoinSnoc and Naming.FlattenNameIsJoin |
| GoStrings.JoinSnoc | main.go:127 | strings.Join of one more element appends the separator and that element; joining one element gives the element itself |
| GoStrings.ElementStart | main.go:141 | the start of the final path element: just past a '/', with no '/' from there to the end |
| GoStrings.DotScan | main.go:141 | the backward scan of filepath.Ext: it finds the last '.' of the final element, or reports that the element has none |
| GoStrings.Ext | main.go:141 | filepath.Ext: a suffix of the path; empty exactly when the final element has no '.'; otherwise it starts with '.' and contains no further '.' or '/' |
| GoStrings.DotScanFindsLastDot | main.go:141 | a '.' followed only by characters other than '.' and '/' is the one the scan reports |
| Naming.FlattenName | main.go:125-128 | definition: the message name, preceded by its enclosing names joined by '_' and one more '_' when it has any; see FlattenNameIsJoin and FlattenedNamesCanCollide |
| Naming.FileEnumParams | main.go:111-114 | definition: a file-level enum gets EnumName = ToCamel(name) and Prefix = ToScreamingSnake(name); see Planning.PlanFileBlock |
| Naming.NestedEnumParams | main.go:130-133 | definition: an enum of a message gets EnumName = flattened message name + "_" + ToCamel(name) and Prefix = ToScreamingSnake of the bare enum name; see Planning.PlanNestedBlock and FlattenedNamesCanCollide |
| Naming.FlattenNameIsJoin | main.go:125-128 | the flattened message name is all enclosing names and then the message's own name, joined by '_' (just the name when there are no enclosing names) |
| Naming.FlattenedNamesCanCollide | main.go:125-128 | two different messages (B_C inside A, and C inside A_B) flatten to the same name, so their nested enums of one name get the same EnumName |
| Planning.MessageVisits | main.go:120-123 | a map-entry message contributes no visit; any other message contributes one visit per enum |
| Planning.MessagesVisits | main.go:120-137 | the walk over the messages visits NestedCount enums: the enum counts of the messages that are not map entries |
| Planning.WithoutMapEntries | main.go:120-123 | the map-entry filter keeps exactly the messages that are not map entries |
| Planning.WithoutMapEntriesSingle | main.go:120-123 | a single message survives the map-entry filter exactly when it is not a map entry |
| Planning.WithoutMapEntriesAppend | main.go:120-123 | filtering a concatenation filters each part and keeps the parts in order; with WithoutMapEntriesSingle this makes the filter the one that keeps the messages that are not map entries in their original order |
| Planning.Visits | main.go:111-137 | definition of the tree walk: the file-level enums in order, then the enums of each message that is not a map entry, message by message; see MessagesVisitsAt, MessagesVisitsOrigin and MessagesVisitsSkipMapEntries |
| Planning.Plan | main.go:111-137 | definition: the (EnumName, Prefix) pair of every visited enum, in walk order; see PlanLength, PlanFileBlock, PlanNestedBlock, PlanBlockOrigin, NestedBlocksInOrder and PlanEmptyIff |
| Planning.PlanOf | main.go:111-137 | one (EnumName, Prefix) pair per visited enum |
| Planning.MessagesVisitsAt | main.go:120-137 | enum j of a message i that is not a map entry is visited at position NestedCount(messages before i) + j |
| Planning.MessagesVisitsOrigin | main.go:120-137 | every nested visit is some enum j of some message i that is not a map entry, at exactly that position |
| Planning.MessagesVisitsSkipMapEntries | main.go:120-123 | removing the map-entry messages does not change the walk, so nothing inside a map entry is visited |
| Planning.MessagesVisitsEmptyIff | main.go:120-137 | the nested walk is empty exactly when every message is a map entry or declares no enum |
| Planning.PlanOfAppend | main.go:111-137 | naming two runs of visits in a row gives their pairs in a row |
| Planning.PlanLength | main.go:111-137 | the block count is the number of file-level enums plus the enum counts of the messages that are not map entries |
| Planning.PlanFileBlock | main.go:111-114 | file-level enum k gets pair k: EnumName = ToCamel(name) and Prefix = ToScreamingSnake(name) |
| Planning.PlanNestedBlock | main.go:130-133 | enum j of a message i that is not a map entry gets the pair at its nested position, after all file-level pairs: EnumName = flattened name + "_" + ToCamel(name), and Prefix = ToScreamingSnake of the bare enum name |
| Planning.PlanBlockOrigin | main.go:111-137 | every pair of the plan comes from a file-level enum at the same index, or from an enum of a message that is not a map entry, at that enum's nested position |
| Planning.NestedBlocksInOrder | main.go:120-137 | nested pairs follow message order, then enum order within a message |
| Planning.PlanIgnoresMapEntries | main.go:120-123 | a file's plan is unchanged when its map-entry messages are removed |
| Planning.PlanEmptyIff | main.go:111-137 | the plan is empty exactly when there is no file-level enum and no enum in a message that is not a map entry |
| Rendering.HeaderTemplate | main.go:30-41 | definition: the header template, its literal text with the GetName and GoPkg.Name fields; see RenderStartsWithHeader |
| Rendering.Header | main.go:105-109 | definition: the header template executed with the file's name and Go package name; see RenderStartsWithHeader and RenderIsHeaderIff |
| Rendering.MessageTemplate | main.go:43-70 | definition: the conversion-block template, its literal text with the EnumName and Prefix fields; see BlocksEmptyIff, and Conversion.FromDB, Conversion.ToDB and Conversion.Value for what the emitted methods do |
| Rendering.Block | main.go:112-114 | definition: the block template executed with one pair's EnumName and Prefix (also used at main.go:131-133); see BlocksAppend and BlocksEmptyIff |
| Rendering.Render | main.go:105-138 | definition of a file's content: the header followed by the block of every planned pair in plan order; see RenderFile, RenderLayout, RenderStartsWithHeader and RenderIsHeaderIff |
| Rendering.ExecuteStartsWithText | main.go:43-44 | executing a template that opens with text yields output that opens with that text |
| Rendering.BlocksAppend | main.go:111-137 | the blocks of two plans in a row are the text of the first plan followed by that of the second |
| Rendering.BlocksEmptyIff | main.go:43-70 | with a template that opens with text, the blocks are empty exactly when the plan is |
| Rendering.RenderStartsWithHeader | main.go:105-109 | the content always begins with the header |
| Rendering.RenderLayout | main.go:105-138 | the content is the header, then the blocks of the file-level enums, then the blocks of the message-nested enums |
| Rendering.RenderIsHeaderIff | main.go:105-138 | a file renders to exactly its header when, and only when, it has no file-level enum and no enum in a message that is not a map entry |
| Rendering.ExampleFilePlan | main.go:111-137 | package p, file enum Color and message Outer with enum Size give the pairs (Color, COLOR), then (Outer_Size, SIZE) |
| Rendering.WriteFileEnumBlocks | main.go:111-118 | the file-level enum loop appends exactly the blocks of the file-level enums, in order |
| Rendering.WriteMessageEnumBlocks | main.go:130-137 | the loop over one message's enums appends exactly that message's blocks under its flattened name |
| Rendering.RenderFile | main.go:104-138 | the buffer ends up holding exactly Render(file): the header, then every planned block in order |
| Generator.OutputName | main.go:140-143 | the output name ends in ".pb.xorm.go", and the part before it followed by filepath.Ext of the input is the input name |
| Generator.OutputNameWithoutExtension | main.go:140-143 | a name whose final element has no '.' just gets ".pb.xorm.go" appended |
| Generator.OutputNameReplacesExtension | main.go:140-143 | base + ".ext", with an extension free of '.' and '/', becomes base + ".pb.xorm.go" |
| Generator.OutputNameOfProtoFile | main.go:140-143 | "foo/bar.proto" becomes "foo/bar.pb.xorm.go" |
| Generator.OutputNameWithSeveralDots | main.go:140-143 | only the last extension is removed: "x.tar.proto" becomes "x.tar.pb.xorm.go" |
| Generator.OutputNameWithDottedDirectory | main.go:140-143 | a '.' in a directory name is not an extension: "a.b/c" becomes "a.b/c.pb.xorm.go" |
| Generator.LookupTargets | main.go:93-100 | it succeeds exactly when every name is in the registry, giving the files in request order; otherwise it fails with the first missing name |
| Generator.Output | main.go:140-147 | definition: the response file for one schema file, its rendered content under its output name; see GenerateFile, OutputsAt and Run |
| Generator.MapFiles | main.go:104-148 | one response file per input file |
| Generator.MapFilesAt | main.go:104-148 | response file i is built from input file i |
| Generator.OutputsAt | main.go:104-148 | response file i is target i's content under target i's output name |
| Generator.OutputsSnoc | main.go:144-147 | generating one more target appends exactly its response file |
| Generator.GenerateFile | main.go:105-147 | one loop iteration yields Render(file) under OutputName(file.name) |
| Generator.Generate | main.go:102-148 | the generation loop yields Outputs(targets): one response file per target, in target order |
| Generator.Run | main.go:93-148 | the run succeeds exactly when every requested name is known; then file i is target i's output and, with a registry keyed by file name, is named after requested name i; on failure it names a missing requested file |
| Conversion.NameOf | main.go:62 | an E_name lookup: the table entry, or Go's zero string for a number with no entry |
| Conversion.FromDB | main.go:45-58 | a stored key that names a value wins; otherwise Prefix + "_" + key is tried; otherwise the result is 0 |
| Conversion.ToDB | main.go:60-64 | the value's name with exactly one leading Prefix + "_" removed when present, and unchanged otherwise |
| Conversion.Value | main.go:66-69 | the value's full name, or "" for a number with no name |
| Conversion.ValueRoundTrip | main.go:45-69 | with consistent tables, FromDB reads back what Value returns as the original number |
| Conversion.ToDBRoundTrip | main.go:45-64 | with consistent tables and no name that is also the stripped form of another, FromDB reads back what ToDB stores as the original number |
| Conversion.ToDBRoundTripNeedsUnambiguous | main.go:45-64 | without that condition the round trip fails: with values COLOR_RED = 0 and RED = 1, ToDB(0) is "RED", and FromDB reads it back as 1 |
| Conversion.ToDBStripsOnce | main.go:60-64 | only one copy of the prefix is stripped: COLOR_COLOR_RED is stored as COLOR_RED |
| Conversion.EnumVar.DecodeFromDB | main.go:45-58 | FromDB stores the decoded number into the receiver |
| Conversion.EnumVar.EncodeToDB | main.go:60-64 | ToDB returns the stripped name of the receiver's value and leaves the receiver unchanged |

## Left out

- Reading and parsing the request from standard input is not modelled, nor is `flag.Parse` or the `import_prefix` flag. Marshalling and writing the response (`emitFiles`, `emitResp`, `emitError`) are left out too. These are I/O and protocol plumbing; the model starts from the loaded registry and ends with the list of response files.
- The registry's `Load` is not modelled. It comes from a foreign library that builds the message list, so the flat message list and each message's `outers` are taken as given. `GoPkg.Name` resolution is also foreign; the Go package name is a field of the input.
- Generator.LookupTargets: a failed `LookupFile` ends the process through `glog.Fatal`; it is modelled as a `Failure` carrying the missing name, and no response is produced.
- Naming.Casing: the internals of `strcase.ToCamel` and `strcase.ToScreamingSnake` are not modelled. They are kept as arbitrary functions, so no property of them (idempotence, for example) is claimed.
- Rendering.Execute: the `text/template` engine is modelled only as far as these two templates use it, as literal text and single-field substitution. Template errors (`glog.Fatal`) cannot occur with the fixed templates and field sets, so rendering is total.
- `bytes.Buffer` is modelled as a string the loops extend; Go's `[]byte` and `string` are both modelled as `string`.
- The `print` debug helper writes only to standard error and is not modelled.
- GoStrings.Ext: only '/' is treated as a path separator, as on Unix; Windows volume names and '\\' separators are not modelled.
- Conversion.EnumVar: the `error` results of `FromDB` and `ToDB` are always nil, so they are omitted. `Value` is a function over the tables because its receiver is a value, not a pointer.
- Generated protobuf code (the `E_value`/`E_name` tables) is not part of this model; the tables are parameters. Conversion.Consistent says that they agree with each other.
