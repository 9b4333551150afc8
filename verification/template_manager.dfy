/** master/template/TemplateManager.kt: the template registry of the newer
    master. Loading from templates.json validates the file in three steps, and
    every failure ends the process; without a file two defaults are
    registered and written. Afterwards a directory is made per template. */
module TemplateManager {
  import opened Wrappers
  import opened AssocList
  import opened Model
  import ImageManager

  /** The registry: template name to template, in insertion order. */
  type Templates = seq<Entry<string, Template>>

  datatype TemplateLoadError =
    | ProxyLobby
    | DuplicateTemplateNames
    | UnknownImage(template: string, image: string)

  /** The outcome of a load: the registry, the list written to templates.json
      when it was missing, and the template directories created. */
  datatype TemplateLoad = TemplateLoad(templates: Templates, written: Option<seq<Template>>, createdDirectories: seq<string>)

  function GetTemplate(templates: Templates, name: string): Option<Template> {
    Get(templates, name)
  }

  function ListTemplates(templates: Templates): seq<Template> {
    Values(templates)
  }

  predicate IsProxyLobby(t: Template) {
    t.serverType == Proxy && t.lobby
  }

  predicate UniqueNames(ts: seq<Template>) {
    forall i, j :: 0 <= i < j < |ts| ==> ts[i].name != ts[j].name
  }

  predicate ImageKnown(images: ImageManager.Images, t: Template) {
    ImageManager.GetImage(images, t.image).Some?
  }

  function TemplateName(x: Template): string {
    x.name
  }

  function ByName(ts: seq<Template>): seq<Entry<string, Template>> {
    KeyedBy(ts, TemplateName)
  }

  /** The position of the first template whose image is unknown, or the
      length when every image is known. */
  function FirstUnknown(images: ImageManager.Images, ts: seq<Template>): (k: nat)
    ensures k <= |ts|
    ensures forall j :: 0 <= j < k ==> ImageKnown(images, ts[j])
    ensures k < |ts| ==> !ImageKnown(images, ts[k])
    decreases |ts|
  {
    if ts == [] || !ImageKnown(images, ts[0]) then 0
    else
      var k := FirstUnknown(images, ts[1..]);
      assert forall j :: 1 <= j < |ts| ==> ts[j] == ts[1..][j - 1];
      1 + k
  }

  /** The forEach of lines 49-61: each template is checked against the image
      registry and then added; the first template whose image is unknown ends
      the process. The image a template names is its `image` field. */
  function AddChecked(templates: Templates, images: ImageManager.Images, ts: seq<Template>): (r: Result<Templates, TemplateLoadError>)
    ensures r.Failure? <==> FirstUnknown(images, ts) < |ts|
    ensures r.Failure? ==> r.error == UnknownImage(ts[FirstUnknown(images, ts)].name, ts[FirstUnknown(images, ts)].image)
    ensures r.Success? ==> r.value == PutAll(templates, ByName(ts))
    decreases |ts|
  {
    if ts == [] then Success(templates)
    else if !ImageKnown(images, ts[0]) then Failure(UnknownImage(ts[0].name, ts[0].image))
    else
      var r := AddChecked(Put(templates, ts[0].name, ts[0]), images, ts[1..]);
      assert FirstUnknown(images, ts) == 1 + FirstUnknown(images, ts[1..]);
      if r.Failure? then
        assert ts[FirstUnknown(images, ts)] == ts[1..][FirstUnknown(images, ts[1..])];
        r
      else
        assert ByName(ts)[1..] == ByName(ts[1..]);
        r
  }

  /** Some image is unknown exactly when the scan stops before the end. */
  lemma FirstUnknownExists(images: ImageManager.Images, ts: seq<Template>)
    ensures FirstUnknown(images, ts) < |ts| <==> exists i :: 0 <= i < |ts| && !ImageKnown(images, ts[i])
  {
  }

  /** The validation of lines 39-58, in its order: a proxy marked as lobby
      first, then a repeated name, then an unknown image. */
  function LoadFromFile(templates: Templates, images: ImageManager.Images, loaded: seq<Template>): (r: Result<Templates, TemplateLoadError>)
    ensures r.Failure? <==>
      (exists i :: 0 <= i < |loaded| && IsProxyLobby(loaded[i]))
      || !UniqueNames(loaded)
      || (exists i :: 0 <= i < |loaded| && !ImageKnown(images, loaded[i]))
    ensures (exists i :: 0 <= i < |loaded| && IsProxyLobby(loaded[i])) ==> r == Failure(ProxyLobby)
    ensures (forall i :: 0 <= i < |loaded| ==> !IsProxyLobby(loaded[i])) && !UniqueNames(loaded) ==>
      r == Failure(DuplicateTemplateNames)
    ensures r.Failure? && r.error.UnknownImage? ==> exists i :: (0 <= i < |loaded| && r.error.template == loaded[i].name
      && r.error.image == loaded[i].image && !ImageKnown(images, loaded[i]))
    ensures (forall i :: 0 <= i < |loaded| ==> !IsProxyLobby(loaded[i])) && UniqueNames(loaded) && r.Failure? ==>
      r.error == UnknownImage(loaded[FirstUnknown(images, loaded)].name, loaded[FirstUnknown(images, loaded)].image)
    ensures r.Success? ==> r.value == PutAll(templates, ByName(loaded))
  {
    FirstUnknownExists(images, loaded);
    if exists i :: 0 <= i < |loaded| && IsProxyLobby(loaded[i]) then Failure(ProxyLobby)
    else if !UniqueNames(loaded) then Failure(DuplicateTemplateNames)
    else AddChecked(templates, images, loaded)
  }

  /** Lines 63-93: a static proxy on the velocity image and a lobby with
      exactly one dynamic server on the paper image. */
  const DefaultProxy := Template("proxy", "velocity", map["TYPE" := "VELOCITY"], false, Proxy, [], 0, None, None)
  const DefaultLobby := Template("lobby", "paper", map["TYPE" := "PAPER"], true, ProxiedServer, [], 0,
    Some(NewDynamicTemplate(1, 1)), None)
  const DefaultTemplates := [DefaultProxy, DefaultLobby]

  /** The directory made for a template (relative to the working directory). */
  function TemplateDirectory(name: string): string {
    "templates/" + name
  }

  /** Lines 100-106: the directories of the registered names that do not
      exist yet, in registry order. */
  function MissingDirectories(names: seq<string>, existing: set<string>): (dirs: seq<string>)
    ensures forall d :: d in dirs <==> d !in existing && exists i :: 0 <= i < |names| && d == TemplateDirectory(names[i])
  {
    if names == [] then []
    else
      var rest := MissingDirectories(names[1..], existing);
      assert forall i :: 1 <= i < |names| ==> names[i] == names[1..][i - 1];
      if TemplateDirectory(names[0]) in existing then rest else [TemplateDirectory(names[0])] + rest
  }

  /** The default templates carry distinct names. */
  lemma DefaultsUnique()
    ensures UniqueNames(DefaultTemplates)
  {
    assert "proxy"[0] != "lobby"[0];
  }

  /** The directories missing for a registry are those of its names that do
      not exist yet. */
  lemma MissingDirectoriesOfKeys(registered: Templates, existing: set<string>)
    ensures forall d :: d in MissingDirectories(Keys(registered), existing) <==>
      d !in existing && exists name :: HasKey(registered, name) && d == TemplateDirectory(name)
  {
    var dirs := MissingDirectories(Keys(registered), existing);
    forall d
      ensures d in dirs <==> d !in existing && exists name :: HasKey(registered, name) && d == TemplateDirectory(name)
    {
      if d in dirs {
        var i :| 0 <= i < |Keys(registered)| && d == TemplateDirectory(Keys(registered)[i]);
        assert HasKey(registered, Keys(registered)[i]);
      }
      if d !in existing && exists name :: HasKey(registered, name) && d == TemplateDirectory(name) {
        var name :| HasKey(registered, name) && d == TemplateDirectory(name);
        var i :| 0 <= i < |registered| && registered[i].key == name;
        assert Keys(registered)[i] == name;
      }
    }
  }

  /** `loadTemplatesFromFile`. `file` is the decoded templates.json, or
      `None` when it is missing; `existing` is the set of directories present. */
  function LoadTemplates(templates: Templates, images: ImageManager.Images, file: Option<seq<Template>>, existing: set<string>): (r: Result<TemplateLoad, TemplateLoadError>)
    ensures file.None? ==> r.Success? && r.value.written == Some(DefaultTemplates)
    ensures file.Some? ==> r.Failure? == LoadFromFile(templates, images, file.value).Failure?
    ensures r.Success? ==> forall i :: 0 <= i < |file.GetOr(DefaultTemplates)| ==>
      GetTemplate(r.value.templates, file.GetOr(DefaultTemplates)[i].name) == Some(file.GetOr(DefaultTemplates)[i])
    ensures r.Success? ==> forall name :: (forall i :: 0 <= i < |file.GetOr(DefaultTemplates)| ==> file.GetOr(DefaultTemplates)[i].name != name) ==>
      GetTemplate(r.value.templates, name) == GetTemplate(templates, name)
    ensures r.Success? ==> forall d :: d in r.value.createdDirectories <==>
      d !in existing && exists name :: HasKey(r.value.templates, name) && d == TemplateDirectory(name)
  {
    var loaded := file.GetOr(DefaultTemplates);
    var registered :-
      if file.Some? then LoadFromFile(templates, images, loaded)
      else Success(PutAll(templates, ByName(loaded)));
    DefaultsUnique();
    assert registered == PutAll(templates, ByName(loaded));
    RegistryAfterLoad(templates, loaded);
    var dirs := MissingDirectories(Keys(registered), existing);
    MissingDirectoriesOfKeys(registered, existing);
    Success(TemplateLoad(registered, if file.Some? then None else Some(loaded), dirs))
  }

  /** Putting templates with distinct names registers each under its name and
      leaves every other name as it was. */
  lemma RegistryAfterLoad(templates: Templates, loaded: seq<Template>)
    requires UniqueNames(loaded)
    ensures forall i :: 0 <= i < |loaded| ==> GetTemplate(PutAll(templates, ByName(loaded)), loaded[i].name) == Some(loaded[i])
    ensures forall name :: (forall i :: 0 <= i < |loaded| ==> loaded[i].name != name) ==>
      GetTemplate(PutAll(templates, ByName(loaded)), name) == GetTemplate(templates, name)
  {
    var es := ByName(loaded);
    assert UniqueKeys(es);
    forall i | 0 <= i < |loaded|
      ensures GetTemplate(PutAll(templates, es), loaded[i].name) == Some(loaded[i])
    {
      GetPutAll(templates, es, loaded[i].name);
      GetLastUnique(es, loaded[i].name);
      GetUniqueAt(es, i);
    }
    forall name | forall i :: 0 <= i < |loaded| ==> loaded[i].name != name
      ensures GetTemplate(PutAll(templates, es), name) == GetTemplate(templates, name)
    {
      GetPutAll(templates, es, name);
      GetLastUnique(es, name);
    }
  }

  /** A successful load registers exactly the loaded list, or the defaults. */
  lemma LoadedRegistry(templates: Templates, images: ImageManager.Images, file: Option<seq<Template>>, existing: set<string>)
    requires LoadTemplates(templates, images, file, existing).Success?
    ensures LoadTemplates(templates, images, file, existing).value.templates == PutAll(templates, ByName(file.GetOr(DefaultTemplates)))
  {
  }

  /** The default templates pass every check against images that know
      velocity and paper. */
  lemma DefaultsChecked(images: ImageManager.Images)
    requires ImageManager.GetImage(images, "velocity").Some? && ImageManager.GetImage(images, "paper").Some?
    ensures LoadFromFile([], images, DefaultTemplates) == Success(PutAll([], ByName(DefaultTemplates)))
  {
    assert ImageKnown(images, DefaultProxy) && ImageKnown(images, DefaultLobby);
    assert FirstUnknown(images, DefaultTemplates) == 2 by {
      assert DefaultTemplates[1..] == [DefaultLobby];
      assert [DefaultLobby][1..] == [];
    }
    assert !IsProxyLobby(DefaultTemplates[0]) && !IsProxyLobby(DefaultTemplates[1]);
    assert "proxy"[0] != "lobby"[0];
  }

  /** The defaults written on first start pass every check against the
      default images, so the next start loads the same registry. */
  lemma DefaultsReload(existing: set<string>)
    ensures ImageManager.LoadImages([], None).Success?
    ensures LoadTemplates([], ImageManager.LoadImages([], None).value.images, None, existing).Success?
    ensures LoadTemplates([], ImageManager.LoadImages([], None).value.images, Some(DefaultTemplates), existing).Success?
    ensures LoadTemplates([], ImageManager.LoadImages([], None).value.images, Some(DefaultTemplates), existing).value.templates
         == LoadTemplates([], ImageManager.LoadImages([], None).value.images, None, existing).value.templates
  {
    ImageManager.DefaultImages();
    var images := ImageManager.LoadImages([], None).value.images;
    DefaultsChecked(images);
    LoadedRegistry([], images, None, existing);
    LoadedRegistry([], images, Some(DefaultTemplates), existing);
  }

  /** A proxy template marked as lobby is refused whatever else the file holds. */
  lemma ProxyLobbyRejected(templates: Templates, images: ImageManager.Images, loaded: seq<Template>, existing: set<string>, i: nat)
    requires i < |loaded| && IsProxyLobby(loaded[i])
    ensures LoadTemplates(templates, images, Some(loaded), existing) == Failure(ProxyLobby)
  {
  }

  /** `listTemplates` returns each registered template. */
  lemma ListTemplatesComplete(templates: Templates, name: string)
    requires GetTemplate(templates, name).Some?
    ensures GetTemplate(templates, name).value in ListTemplates(templates)
  {
    ValuesAreStored(templates, name);
  }
}
