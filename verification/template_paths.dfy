/** `getFilePaths` of master/template/Template.kt and master/data/Template.kt:
    the template's own directory, then one sub-directory per extra directory
    of a dynamic template. The two copies differ only in their base. */
module TemplatePaths {
  import opened Wrappers
  import opened Model

  /** master/template/Template.kt uses a base relative to the working directory. */
  const RelativeBase := "./templates"
  /** master/data/Template.kt uses an absolute base. */
  const AbsoluteBase := "/templates"

  /** `dirs.map { "$main/$it" }`. */
  function UnderMain(main: string, dirs: seq<string>): (paths: seq<string>)
    ensures |paths| == |dirs|
    ensures forall i :: 0 <= i < |dirs| ==> paths[i] == main + "/" + dirs[i]
  {
    if dirs == [] then [] else [main + "/" + dirs[0]] + UnderMain(main, dirs[1..])
  }

  /** The directories copied into a new server of the template. */
  function FilePaths(base: string, name: string, dynamic: Option<DynamicTemplate>): (paths: seq<string>)
    ensures |paths| > 0 && paths[0] == base + "/" + name
    ensures dynamic.None? ==> paths == [base + "/" + name]
    ensures dynamic.Some? ==> |paths| == 1 + |dynamic.value.extraDirectories|
    ensures dynamic.Some? ==> forall i :: 0 <= i < |dynamic.value.extraDirectories| ==>
      paths[i + 1] == paths[0] + "/" + dynamic.value.extraDirectories[i]
  {
    var main := base + "/" + name;
    [main] + match dynamic
      case None => []
      case Some(d) => UnderMain(main, d.extraDirectories)
  }

  function MasterFilePaths(t: MasterTemplate): seq<string> {
    FilePaths(RelativeBase, t.name, t.dynamic)
  }

  function DataFilePaths(t: DataTemplate): seq<string> {
    FilePaths(AbsoluteBase, t.name, t.dynamic)
  }

  /** master/template/Template.kt: "./templates/{name}" first; a static
      template has no other path, a dynamic one one per extra directory. */
  lemma MasterFilePathsShape(t: MasterTemplate)
    ensures MasterFilePaths(t)[0] == "./templates/" + t.name
    ensures t.dynamic.None? ==> |MasterFilePaths(t)| == 1
    ensures t.dynamic.Some? ==> |MasterFilePaths(t)| == 1 + |t.dynamic.value.extraDirectories|
    ensures t.dynamic.Some? ==> forall i :: 0 <= i < |t.dynamic.value.extraDirectories| ==>
      MasterFilePaths(t)[i + 1] == "./templates/" + t.name + "/" + t.dynamic.value.extraDirectories[i]
  {
    assert RelativeBase + "/" + t.name == "./templates/" + t.name;
  }

  /** master/data/Template.kt: the same shape under "/templates". */
  lemma DataFilePathsShape(t: DataTemplate)
    ensures DataFilePaths(t)[0] == "/templates/" + t.name
    ensures t.dynamic.None? ==> |DataFilePaths(t)| == 1
    ensures t.dynamic.Some? ==> |DataFilePaths(t)| == 1 + |t.dynamic.value.extraDirectories|
    ensures t.dynamic.Some? ==> forall i :: 0 <= i < |t.dynamic.value.extraDirectories| ==>
      DataFilePaths(t)[i + 1] == "/templates/" + t.name + "/" + t.dynamic.value.extraDirectories[i]
  {
    assert AbsoluteBase + "/" + t.name == "/templates/" + t.name;
  }

  /** Every path lies inside the template's main directory. */
  lemma PathsUnderMain(base: string, name: string, dynamic: Option<DynamicTemplate>, i: nat)
    requires i < |FilePaths(base, name, dynamic)|
    ensures FilePaths(base, name, dynamic)[i][..|base + "/" + name|] == base + "/" + name
  {
    var main := base + "/" + name;
    if i > 0 {
      var d := dynamic.value.extraDirectories[i - 1];
      assert FilePaths(base, name, dynamic)[i] == main + "/" + d;
      assert (main + "/" + d)[..|main|] == main;
    }
  }

  /** A dynamic block built without extra directories adds no path. */
  lemma DefaultDynamicHasOnePath(base: string, name: string, minServers: int, maxServers: int)
    ensures FilePaths(base, name, Some(NewDynamicTemplate(minServers, maxServers))) == [base + "/" + name]
  {
  }
}
