/** master/template/image/ImageManager.kt: the image registry, loaded once
    from images.json or, when the file is absent, filled with two defaults
    that are also written to the file. */
module ImageManager {
  import opened Wrappers
  import opened AssocList

  /** master/template/image/Image.kt; the readiness pattern is kept as text. */
  datatype Image = Image(
    name: string,
    image: string,
    defaultInternalPort: int,
    defaultVersion: string,
    startedMessageRegex: string,
    environment: map<string, string>)

  const DefaultStartedMessageRegex := "^Done \\(\\d+\\.\\d+s\\)! For help, type \"help\"$"

  /** An image built with the defaults of every optional field. */
  function NewImage(name: string, image: string, environment: map<string, string>, startedMessageRegex: string): Image {
    Image(name, image, 25565, "latest", startedMessageRegex, environment)
  }

  /** The registry: image name to image, in insertion order. */
  type Images = seq<Entry<string, Image>>

  datatype ImageLoad = ImageLoad(images: Images, written: Option<seq<Image>>)

  datatype ImageLoadError = DuplicateImageNames

  function GetImage(images: Images, name: string): Option<Image> {
    Get(images, name)
  }

  function ListImages(images: Images): seq<Image> {
    Values(images)
  }

  /** `images.forEach { addImage(it) }`, keyed by name. */
  function ImageName(x: Image): string {
    x.name
  }

  function ByName(images: seq<Image>): seq<Entry<string, Image>> {
    KeyedBy(images, ImageName)
  }

  predicate UniqueNames(images: seq<Image>) {
    forall i, j :: 0 <= i < j < |images| ==> images[i].name != images[j].name
  }

  const Velocity := NewImage("velocity", "itzg/mc-proxy", map["TYPE" := "VELOCITY"], "Done \\(.*\\)!")
  const Paper := NewImage("paper", "itzg/minecraft-server", map["TYPE" := "PAPER"], "Done \\(.*\\)! For help, type \"help\"$")

  /** `loadImagesFromFile`. `file` is the decoded content of images.json, or
      `None` when the file does not exist. A duplicate name ends the process. */
  function LoadImages(images: Images, file: Option<seq<Image>>): (r: Result<ImageLoad, ImageLoadError>)
    ensures file.Some? ==> (r.Failure? <==> !UniqueNames(file.value))
    ensures file.None? ==> r.Success? && r.value.written == Some([Velocity, Paper])
    ensures r.Success? ==> forall i :: 0 <= i < |file.GetOr([Velocity, Paper])| ==>
      GetImage(r.value.images, file.GetOr([Velocity, Paper])[i].name) == Some(file.GetOr([Velocity, Paper])[i])
  {
    var loaded := file.GetOr([Velocity, Paper]);
    if file.Some? && !UniqueNames(loaded) then Failure(DuplicateImageNames)
    else
      var result := PutAll(images, ByName(loaded));
      assert forall i :: 0 <= i < |loaded| ==> GetImage(result, loaded[i].name) == Some(loaded[i]) by {
        forall i | 0 <= i < |loaded|
          ensures GetImage(result, loaded[i].name) == Some(loaded[i])
        {
          RegisteredByName(images, loaded, i);
        }
      }
      Success(ImageLoad(result, if file.Some? then None else Some(loaded)))
  }

  /** Putting images with distinct names registers each under its name. */
  lemma RegisteredByName(images: Images, loaded: seq<Image>, i: nat)
    requires UniqueNames(loaded)
    requires i < |loaded|
    ensures GetImage(PutAll(images, ByName(loaded)), loaded[i].name) == Some(loaded[i])
  {
    var es := ByName(loaded);
    assert UniqueKeys(es);
    GetPutAll(images, es, loaded[i].name);
    GetLastUnique(es, loaded[i].name);
    GetUniqueAt(es, i);
  }

  /** The registry the defaults build from an empty one. */
  lemma DefaultRegistry()
    ensures PutAll([], ByName([Velocity, Paper])) == [Entry("velocity", Velocity), Entry("paper", Paper)]
  {
    var es := ByName([Velocity, Paper]);
    assert es == [Entry("velocity", Velocity), Entry("paper", Paper)];
    var one := Put([], "velocity", Velocity);
    assert one == [Entry("velocity", Velocity)];
    assert "velocity"[0] != "paper"[0];
    assert one[1..] == [] && one[0].key != "paper";
    var two := Put(one, "paper", Paper);
    assert two == [one[0]] + Put([], "paper", Paper);
    assert two == [Entry("velocity", Velocity), Entry("paper", Paper)];
    assert es[1..] == [Entry("paper", Paper)] && es[1..][1..] == [];
    assert PutAll([], es) == PutAll(one, es[1..]) == PutAll(two, []) == two;
  }

  /** With no file, exactly the two default images exist when loading starts
      from an empty registry. */
  lemma DefaultImages()
    ensures LoadImages([], None).Success?
    ensures ListImages(LoadImages([], None).value.images) == [Velocity, Paper]
    ensures GetImage(LoadImages([], None).value.images, "velocity").Some?
    ensures GetImage(LoadImages([], None).value.images, "velocity").value.image == "itzg/mc-proxy"
    ensures GetImage(LoadImages([], None).value.images, "paper").Some?
    ensures GetImage(LoadImages([], None).value.images, "paper").value.image == "itzg/minecraft-server"
  {
    DefaultRegistry();
    var two := [Entry("velocity", Velocity), Entry("paper", Paper)];
    assert LoadImages([], None).value.images == two;
    assert two[1..] == [Entry("paper", Paper)] && two[1..][1..] == [];
    assert Values(two) == [Velocity, Paper];
    assert "velocity"[0] != "paper"[0];
    assert GetImage(two, "velocity") == Some(Velocity);
    assert GetImage(two, "paper") == Some(Paper);
  }

  /** `listImages` returns each registered image. */
  lemma ListImagesComplete(images: Images, name: string)
    requires GetImage(images, name).Some?
    ensures GetImage(images, name).value in ListImages(images)
  {
    ValuesAreStored(images, name);
  }
}
