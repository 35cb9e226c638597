/**
 * The generator's main flow once the request has been parsed: look up every
 * file to generate in the registry, then produce one output file per target,
 * named after the target with its extension replaced.
 */
module Generator {
  import opened Wrappers
  import opened GoStrings
  import opened Descriptors
  import opened Naming
  import opened Rendering

  /** The suffix that replaces a target's extension. */
  const GeneratedSuffix: string := ".pb.xorm.go"

  /** One file of the generator's response. */
  datatype OutFile = OutFile(name: string, content: string)

  /** The response file for one schema file: its rendered content under its output name. */
  function Output(file: SchemaFile, c: Casing): OutFile
  {
    OutFile(OutputName(file.name), Render(file, c))
  }

  /**
   * The output name of a file: the input name without the extension
   * filepath.Ext finds, followed by ".pb.xorm.go".
   */
  function OutputName(name: string): (r: string)
    ensures HasSuffix(r, GeneratedSuffix)
    ensures r[..|r| - |GeneratedSuffix|] + Ext(name) == name
  {
    var ext := Ext(name);
    var base := TrimSuffix(name, ext);
    base + GeneratedSuffix
  }

  /** A name whose final element has no '.' just gets the suffix appended. */
  lemma OutputNameWithoutExtension(name: string)
    requires NoExtension(name)
    ensures OutputName(name) == name + GeneratedSuffix
  {
    assert Ext(name) == "";
    assert name[|name| - 0..] == "";
    assert TrimSuffix(name, "") == name;
  }

  /** The extension of base + ext, where ext is '.' and a stem free of '.' and '/', is replaced by the suffix. */
  lemma OutputNameReplacesExtension(base: string, ext: string)
    requires |ext| > 0 && ext[0] == '.'
    requires forall k :: 0 < k < |ext| ==> ext[k] != '.' && ext[k] != PathSeparator
    ensures OutputName(base + ext) == base + GeneratedSuffix
  {
    var path := base + ext;
    DotScanFindsLastDot(path, |base|, |path|);
    assert path[|base|..] == ext;
    assert Ext(path) == ext;
    assert path[..|path| - |ext|] == base;
  }

  /** The documented example: "foo/bar.proto" becomes "foo/bar.pb.xorm.go". */
  lemma OutputNameOfProtoFile()
    ensures OutputName("foo/bar.proto") == "foo/bar.pb.xorm.go"
  {
    assert "foo/bar" + ".proto" == "foo/bar.proto";
    OutputNameReplacesExtension("foo/bar", ".proto");
    assert "foo/bar" + GeneratedSuffix == "foo/bar.pb.xorm.go";
  }

  /** Only the last extension goes: "x.tar.proto" becomes "x.tar.pb.xorm.go". */
  lemma OutputNameWithSeveralDots()
    ensures OutputName("x.tar.proto") == "x.tar.pb.xorm.go"
  {
    assert "x.tar" + ".proto" == "x.tar.proto";
    OutputNameReplacesExtension("x.tar", ".proto");
    assert "x.tar" + GeneratedSuffix == "x.tar.pb.xorm.go";
  }

  /** A dot in a directory name is not an extension: "a.b/c" becomes "a.b/c.pb.xorm.go". */
  lemma OutputNameWithDottedDirectory()
    ensures OutputName("a.b/c") == "a.b/c.pb.xorm.go"
  {
    var name := "a.b/c";
    assert name[3] == PathSeparator && name[4] == 'c';
    assert ElementStart(name, 5) == ElementStart(name, 4) == 4;
    OutputNameWithoutExtension(name);
    assert name + GeneratedSuffix == "a.b/c.pb.xorm.go";
  }

  /** Every name in the registry maps to the file of that name. */
  predicate KeyedByName(registry: map<string, SchemaFile>)
  {
    forall n :: n in registry ==> registry[n].name == n
  }

  /**
   * The lookup loop over the files to generate: each name is looked up in the
   * registry, in order; the first name the registry does not hold ends the
   * run with that name.
   */
  method LookupTargets(registry: map<string, SchemaFile>, fileToGenerate: seq<string>)
    returns (r: Result<seq<SchemaFile>>)
    ensures r.Success? <==> forall i :: 0 <= i < |fileToGenerate| ==> fileToGenerate[i] in registry
    ensures r.Success? ==> |r.value| == |fileToGenerate|
    ensures r.Success? ==> forall i :: 0 <= i < |fileToGenerate| ==> r.value[i] == registry[fileToGenerate[i]]
    ensures r.Failure? ==> exists i :: 0 <= i < |fileToGenerate| && fileToGenerate[i] == r.error
                                       && fileToGenerate[i] !in registry
                                       && forall k :: 0 <= k < i ==> fileToGenerate[k] in registry
  {
    var targets: seq<SchemaFile> := [];
    for i := 0 to |fileToGenerate|
      invariant |targets| == i
      invariant forall k :: 0 <= k < i ==> fileToGenerate[k] in registry && targets[k] == registry[fileToGenerate[k]]
    {
      var target := fileToGenerate[i];
      if target !in registry {
        return Failure(target);
      }
      targets := targets + [registry[target]];
    }
    return Success(targets);
  }

  /** The response files for targets, one per target, in target order. */
  function Outputs(targets: seq<SchemaFile>, c: Casing): (r: seq<OutFile>)
    ensures |r| == |targets|
  {
    MapFiles(file => Output(file, c), targets)
  }

  /** f applied to every file of files, in order. */
  function MapFiles(f: SchemaFile -> OutFile, files: seq<SchemaFile>): (r: seq<OutFile>)
    ensures |r| == |files|
  {
    if files == [] then [] else MapFiles(f, files[..|files| - 1]) + [f(files[|files| - 1])]
  }

  /** Element i of MapFiles(f, files) is f applied to file i. */
  lemma {:induction false} MapFilesAt(f: SchemaFile -> OutFile, files: seq<SchemaFile>, i: nat)
    requires i < |files|
    ensures MapFiles(f, files)[i] == f(files[i])
    decreases |files|
  {
    var n := |files| - 1;
    if i < n {
      MapFilesAt(f, files[..n], i);
      assert files[..n][i] == files[i];
    }
  }

  /** Response file i is the output of target i. */
  lemma OutputsAt(targets: seq<SchemaFile>, c: Casing, i: nat)
    requires i < |targets|
    ensures Outputs(targets, c)[i] == Output(targets[i], c)
  {
    MapFilesAt(file => Output(file, c), targets, i);
  }

  /** Generating one more target appends its output. */
  lemma OutputsSnoc(targets: seq<SchemaFile>, i: nat, c: Casing)
    requires i < |targets|
    ensures Outputs(targets[..i + 1], c) == Outputs(targets[..i], c) + [Output(targets[i], c)]
  {
    assert targets[..i + 1][..i] == targets[..i];
  }

  /** The generation loop: one output file per target, in target order. */
  method Generate(targets: seq<SchemaFile>, c: Casing) returns (files: seq<OutFile>)
    ensures files == Outputs(targets, c)
  {
    files := [];
    for i := 0 to |targets|
      invariant files == Outputs(targets[..i], c)
    {
      var out := GenerateFile(targets[i], c);
      OutputsSnoc(targets, i, c);
      files := files + [out];
    }
    assert targets[..|targets|] == targets;
  }

  /** The loop body for one target: its rendered content under its output name. */
  method GenerateFile(file: SchemaFile, c: Casing) returns (out: OutFile)
    ensures out == Output(file, c)
  {
    var content := RenderFile(file, c);
    var name := file.name;
    var ext := Ext(name);
    var base := TrimSuffix(name, ext);
    var output := base + GeneratedSuffix;
    out := OutFile(output, content);
  }

  /**
   * The whole run after the registry is loaded: the lookup, then generation.
   * With a registry keyed by file name, output i is named after the i-th
   * file to generate.
   */
  method Run(registry: map<string, SchemaFile>, fileToGenerate: seq<string>, c: Casing)
    returns (r: Result<seq<OutFile>>)
    ensures r.Success? <==> forall i :: 0 <= i < |fileToGenerate| ==> fileToGenerate[i] in registry
    ensures r.Success? ==> |r.value| == |fileToGenerate|
    ensures r.Success? ==> forall i :: 0 <= i < |fileToGenerate| ==>
              r.value[i] == Output(registry[fileToGenerate[i]], c)
    ensures r.Success? && KeyedByName(registry) ==> forall i :: 0 <= i < |fileToGenerate| ==>
              r.value[i].name == OutputName(fileToGenerate[i])
    ensures r.Failure? ==> r.error in fileToGenerate && r.error !in registry
  {
    var targets := LookupTargets(registry, fileToGenerate);
    if targets.Failure? {
      return Failure(targets.error);
    }
    var files := Generate(targets.value, c);
    forall i | 0 <= i < |fileToGenerate|
      ensures files[i] == Output(registry[fileToGenerate[i]], c)
    {
      OutputsAt(targets.value, c, i);
    }
    return Success(files);
  }
}
