/** master/data/TemplateManager.kt: the template registry of the older master.
    Loading does not validate anything: a repeated name is overwritten by its
    last occurrence, and a missing file yields one default lobby, which is not
    written back. */
module LegacyTemplateManager {
  import opened Wrappers
  import opened AssocList
  import opened Model
  import TemplateManager

  type DataTemplates = seq<Entry<string, DataTemplate>>

  datatype DataTemplateLoad = DataTemplateLoad(templates: DataTemplates, createdDirectories: seq<string>)

  /** `addTemplate`: registers under the template's name, replacing any earlier one. */
  function AddTemplate(templates: DataTemplates, t: DataTemplate): (r: DataTemplates)
    ensures GetTemplate(r, t.name) == Some(t)
    ensures forall name :: name != t.name ==> GetTemplate(r, name) == GetTemplate(templates, name)
  {
    Put(templates, t.name, t)
  }

  function GetTemplate(templates: DataTemplates, name: string): Option<DataTemplate> {
    Get(templates, name)
  }

  /** `removeTemplate`. */
  function RemoveTemplate(templates: DataTemplates, name: string): (r: DataTemplates)
    ensures GetTemplate(r, name) == None
    ensures forall other :: other != name ==> GetTemplate(r, other) == GetTemplate(templates, other)
  {
    Remove(templates, name)
  }

  function ListTemplates(templates: DataTemplates): seq<DataTemplate> {
    Values(templates)
  }

  /** Lines 35-44: a static lobby named "default" on the Paper image. */
  const DefaultTemplate := DataTemplate("default", "itzg/minecraft-server", map["TYPE" := "PAPER"], true, [], None)

  function DataTemplateName(x: DataTemplate): string {
    x.name
  }

  function ByName(ts: seq<DataTemplate>): seq<Entry<string, DataTemplate>> {
    KeyedBy(ts, DataTemplateName)
  }

  /** The template the last occurrence of `name` in the file carries. */
  function LastNamed(ts: seq<DataTemplate>, name: string): (r: Option<DataTemplate>)
    ensures r.Some? ==> r.value in ts && r.value.name == name
    ensures r.None? <==> forall i :: 0 <= i < |ts| ==> ts[i].name != name
    decreases |ts|
  {
    if ts == [] then None
    else
      var last := ts[|ts| - 1];
      if last.name == name then Some(last)
      else
        var r := LastNamed(ts[..|ts| - 1], name);
        assert forall i :: 0 <= i < |ts| - 1 ==> ts[..|ts| - 1][i] == ts[i];
        r
  }

  /** `loadTemplatesFromFile`: `file` is the decoded templates.json, or `None`
      when it is missing; `existing` is the set of directories present. */
  function LoadTemplates(templates: DataTemplates, file: Option<seq<DataTemplate>>, existing: set<string>): (r: DataTemplateLoad)
    ensures file.None? ==> GetTemplate(r.templates, "default") == Some(DefaultTemplate)
    ensures forall d :: d in r.createdDirectories <==>
      d !in existing && exists name :: HasKey(r.templates, name) && d == TemplateManager.TemplateDirectory(name)
  {
    var loaded := file.GetOr([DefaultTemplate]);
    var registered := PutAll(templates, ByName(loaded));
    if file.None? then
      assert ByName(loaded) == [Entry("default", DefaultTemplate)];
      assert registered == PutAll(Put(templates, "default", DefaultTemplate), []);
      Directories(registered, existing)
    else Directories(registered, existing)
  }

  function Directories(registered: DataTemplates, existing: set<string>): (r: DataTemplateLoad)
    ensures r.templates == registered
    ensures forall d :: d in r.createdDirectories <==>
      d !in existing && exists name :: HasKey(registered, name) && d == TemplateManager.TemplateDirectory(name)
  {
    var dirs := TemplateManager.MissingDirectories(Keys(registered), existing);
    assert forall d :: d in dirs <==> d !in existing && exists name :: HasKey(registered, name) && d == TemplateManager.TemplateDirectory(name) by {
      forall d
        ensures d in dirs <==> d !in existing && exists name :: HasKey(registered, name) && d == TemplateManager.TemplateDirectory(name)
      {
        if d in dirs {
          var i :| 0 <= i < |Keys(registered)| && d == TemplateManager.TemplateDirectory(Keys(registered)[i]);
          assert HasKey(registered, Keys(registered)[i]);
        }
        if d !in existing && exists name :: HasKey(registered, name) && d == TemplateManager.TemplateDirectory(name) {
          var name :| HasKey(registered, name) && d == TemplateManager.TemplateDirectory(name);
          var i :| 0 <= i < |registered| && registered[i].key == name;
          assert Keys(registered)[i] == name;
        }
      }
    }
    DataTemplateLoad(registered, dirs)
  }

  /** Loading a file never fails: each name ends up with its last occurrence in
      the file, and names the file does not mention keep their old template. */
  lemma {:induction false} LoadLastWins(templates: DataTemplates, loaded: seq<DataTemplate>, existing: set<string>, name: string)
    ensures GetTemplate(LoadTemplates(templates, Some(loaded), existing).templates, name)
         == if LastNamed(loaded, name).Some? then LastNamed(loaded, name) else GetTemplate(templates, name)
  {
    GetPutAll(templates, ByName(loaded), name);
    LastOfByName(loaded, name);
  }

  lemma {:induction false} LastOfByName(ts: seq<DataTemplate>, name: string)
    ensures GetLast(ByName(ts), name) == LastNamed(ts, name)
    decreases |ts|
  {
    if ts != [] {
      var init := ts[..|ts| - 1];
      var last := ts[|ts| - 1];
      assert ByName(ts) == ByName(init) + [Entry(last.name, last)];
      GetLastAppend(ByName(init), Entry(last.name, last), name);
      LastOfByName(init, name);
    }
  }

  /** Appending an entry: it wins for its own key and hides nothing else. */
  lemma {:induction false} GetLastAppend<V>(es: seq<Entry<string, V>>, e: Entry<string, V>, k: string)
    ensures GetLast(es + [e], k) == if e.key == k then Some(e.value) else GetLast(es, k)
    decreases |es|
  {
    if es == [] {
      assert (es + [e])[1..] == [];
    } else {
      assert (es + [e])[1..] == es[1..] + [e];
      GetLastAppend(es[1..], e, k);
    }
  }

  /** Unlike the newer registry, two templates with one name are accepted:
      the later one replaces the earlier. */
  lemma DuplicateNamesOverwrite(a: DataTemplate, b: DataTemplate, existing: set<string>)
    requires a.name == b.name
    ensures GetTemplate(LoadTemplates([], Some([a, b]), existing).templates, a.name) == Some(b)
  {
    LoadLastWins([], [a, b], existing, a.name);
  }

  /** `listTemplates` returns each registered template. */
  lemma ListTemplatesComplete(templates: DataTemplates, name: string)
    requires GetTemplate(templates, name).Some?
    ensures GetTemplate(templates, name).value in ListTemplates(templates)
  {
    ValuesAreStored(templates, name);
  }
}
