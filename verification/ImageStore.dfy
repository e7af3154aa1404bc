/** Images on disk: one metadata file for each name and tag, and a directory for each layer. */
module ImageStore {
  import opened CText
  import opened FileSystem
  import opened Ids
  import ImageMetadata

  const METADATA_PATH := "/tmp/docker-metadata"
  const METADATA: Path := ["tmp", "docker-metadata"]
  const LAYERS_PATH := "/tmp/docker-layers"
  const LAYERS: Path := ["tmp", "docker-layers"]
  const IMAGES_PATH := "/tmp/docker-images"

  // ----- names -----

  function TagOrLatest(tag: string): string {
    if tag != "" then tag else "latest"
  }

  /** `get_image_full_name`. */
  function FullName(name: string, tag: string): string {
    name + ":" + TagOrLatest(tag)
  }

  lemma LastColon(n1: string, t1: string, n2: string, t2: string)
    requires ':' !in t1 && ':' !in t2 && n1 + ":" + t1 == n2 + ":" + t2
    ensures n1 == n2 && t1 == t2
  {
    var s := n1 + ":" + t1;
    assert s[|n1|] == ':' && s[|n2|] == ':';
    assert forall i :: |n1| < i < |s| ==> s[i] == t1[i - |n1| - 1];
    assert forall i :: |n2| < i < |s| ==> s[i] == t2[i - |n2| - 1];
    assert |n1| == |n2|;
    assert n1 == s[..|n1|] == n2 && t1 == s[|n1| + 1..] == t2;
  }

  /** With colon-free tags a full name determines the name and the tag, empty meaning `latest`. */
  lemma FullNameInjective(n1: string, t1: string, n2: string, t2: string)
    requires ':' !in t1 && ':' !in t2
    ensures FullName(n1, t1) == FullName(n2, t2) <==> n1 == n2 && TagOrLatest(t1) == TagOrLatest(t2)
  {
    if FullName(n1, t1) == FullName(n2, t2) {
      LastColon(n1, TagOrLatest(t1), n2, TagOrLatest(t2));
    }
  }

  /** `"%s/%s.json"` of the metadata directory. */
  function MetadataFile(full: string): string {
    METADATA_PATH + "/" + (full + ".json")
  }

  /** The path of that file, for a full name without slashes. */
  function Key(full: string): Path {
    METADATA + [full + ".json"]
  }

  predicate GoodName(name: string, tag: string) {
    |name| <= 255 && |tag| <= 63 && '/' !in name && '/' !in tag && ':' !in tag
  }

  lemma KeyInjective(a: string, b: string)
    requires Key(a) == Key(b)
    ensures a == b
  {
    assert Key(a)[2] == a + ".json" && Key(b)[2] == b + ".json";
    assert a == (a + ".json")[..|a|] && b == (b + ".json")[..|b|];
  }

  lemma NamesUnderTmp(path: string, dir: string, file: string)
    requires path == "/tmp/" + dir && Component(dir) && Component(file)
    ensures Names(path + "/" + file) == ["tmp", dir, file]
  {
    NamesOfThree("tmp", dir, file);
    Rebracket(path, dir, file);
  }

  lemma MetadataNames(file: string)
    requires Component(file)
    ensures Names(METADATA_PATH + "/" + file) == METADATA + [file]
  {
    assert METADATA_PATH == "/tmp/" + "docker-metadata";
    NamesUnderTmp(METADATA_PATH, "docker-metadata", file);
  }

  lemma LayerNames(file: string)
    requires Component(file)
    ensures Names(LAYERS_PATH + "/" + file) == LAYERS + [file]
  {
    assert LAYERS_PATH == "/tmp/" + "docker-layers";
    NamesUnderTmp(LAYERS_PATH, "docker-layers", file);
  }

  lemma Rebracket(path: string, dir: string, file: string)
    requires path == "/tmp/" + dir
    ensures path + "/" + file == "/" + ("tmp" + "/" + (dir + "/" + file))
  {
    var inner := dir + "/" + file;
    assert path + "/" + file == "/tmp/" + inner;
    assert "/" + ("tmp" + "/" + inner) == "/" + ("tmp" + "/") + inner;
  }

  predicate Component(s: string) {
    s != "" && '/' !in s
  }

  lemma NamesOfThree(a: string, b: string, c: string)
    requires Component(a) && Component(b) && Component(c)
    ensures Names("/" + (a + "/" + (b + "/" + c))) == [a, b, c]
  {
    NamesOfTwo(b, c);
    NamesCons(a, b + "/" + c);
    LeadingSlash(a + "/" + (b + "/" + c));
  }

  lemma NamesOfTwo(b: string, c: string)
    requires Component(b) && Component(c)
    ensures Names(b + "/" + c) == [b, c]
  {
    NamesCons(b, c);
    assert Names(c) == [c];
  }

  lemma LeadingSlash(rest: string)
    ensures Names("/" + rest) == Names(rest)
  {
    NamesCons("", rest);
    assert "" + "/" + rest == "/" + rest && [] + Names(rest) == Names(rest);
  }

  predicate TmpDirs(t: Tree) {
    DirAt(t, ["tmp"]) && DirAt(t, METADATA)
  }

  lemma KeyLocated(t: Tree, full: string)
    requires '/' !in full
    ensures Locate(t, MetadataFile(full)) == if TmpDirs(t) then Some(Key(full)) else None
  {
    var file := full + ".json";
    MetadataNames(file);
    assert (METADATA + [file])[..2] == METADATA;
    WalkTmp(t, "docker-metadata");
  }

  lemma WalkTmp(t: Tree, dir: string)
    requires dir != "." && dir != ".."
    ensures Walk(t, [], ["tmp", dir]) == if DirAt(t, ["tmp"]) then Some(["tmp", dir]) else None
  {
    assert ["tmp", dir][1..] == [dir] && [dir][1..] == [] && [] + ["tmp"] == ["tmp"];
    assert ["tmp"] + [dir] == ["tmp", dir];
    assert Walk(t, ["tmp", dir], []) == Some(["tmp", dir]);
    assert Walk(t, ["tmp"], [dir]) == if DirAt(t, ["tmp"]) then Some(["tmp", dir]) else None;
  }

  /** `access(path, F_OK)`. */
  predicate Accessible(t: Tree, path: string) {
    match Locate(t, path)
    case None => false
    case Some(p) => p in t
  }

  /** `image_exists`. */
  predicate ImageExists(t: Tree, name: string, tag: string) {
    Accessible(t, MetadataFile(FullName(name, tag)))
  }

  lemma FullNameSlashFree(name: string, tag: string)
    requires GoodName(name, tag)
    ensures '/' !in FullName(name, tag)
  {}

  lemma ImageExistsMeaning(t: Tree, name: string, tag: string)
    requires GoodName(name, tag)
    ensures ImageExists(t, name, tag) <==> TmpDirs(t) && Key(FullName(name, tag)) in t
  {
    FullNameSlashFree(name, tag);
    KeyLocated(t, FullName(name, tag));
  }

  // ----- create -----

  /** The clock readings of one `create_image`, in the order they are taken. */
  datatype Clock = Clock(image: Time, created: Time, layer: Time, directory: Time)

  /**
   What the outside decides: whether each call is refused for a reason the tree
   does not show, what `cp` leaves below the layer directory, the text of the
   layer's own metadata, and the size `du` reports.
   */
  datatype Io = Io(
    mkdirOk: bool, copied: Tree, cpOk: bool, layerOk: bool, layerText: string, size: Int32, writeOk: bool)

  function LayerId(now: nat): string {
    "layer_" + TimeHex(now)
  }

  function LayerDir(now: nat): Path {
    LAYERS + [LayerId(now)]
  }

  predicate Below(dir: Path, p: Path) {
    |dir| < |p| && p[..|dir|] == dir
  }

  function OnlyBelow(dir: Path, t: Tree): Tree {
    map p | p in t && Below(dir, p) :: t[p]
  }

  /** `create_layer`. */
  function CreateLayer(t: Tree, now: nat, io: Io): (Tree, bool) {
    var dir := LayerDir(now);
    if !io.mkdirOk || !DirAt(t, LAYERS) then (t, false)
    else
      var t1 := if dir in t then t else t[dir := Dir];
      var t2 := t1 + OnlyBelow(dir, io.copied);
      if !io.cpOk then (t2, false)
      else
        match WriteFile(t2, dir + [LayerId(now) + ".json"], io.layerText)
        case None => (t2, false)
        case Some(t3) => if io.layerOk then (t3, true) else (t2, false)
  }

  function NewImage(name: string, tag: Option<string>, clock: Clock, size: Int32): ImageMetadata.ImageInfo {
    ImageMetadata.ImageInfo(
      "sha256:" + TimeHex(clock.image), Cut(name, 255), Cut(match tag case None => "latest" case Some(s) => s, 63),
      "", Dec(clock.created), Dec(size), "amd64", "linux", "docker-clone", "", "", "", "", "", "",
      [LayerId(clock.layer)])
  }

  /** `write_image_metadata` into the store. */
  function WriteMetadata(t: Tree, c: ImageMetadata.ImageInfo, ok: bool): (Tree, bool) {
    match Locate(t, MetadataFile(FullName(c.name, c.tag)))
    case None => (t, false)
    case Some(p) =>
      match WriteFile(t, p, ImageMetadata.WriteText(c))
      case None => (t, false)
      case Some(u) => if ok then (u, true) else (t, false)
  }

  /** `create_image`. */
  function CreateImage(t: Tree, name: string, tag: Option<string>, clock: Clock, io: Io): (Tree, bool) {
    var (u, ok) := CreateLayer(t, clock.directory, io);
    if !ok then (u, false) else WriteMetadata(u, NewImage(name, tag, clock, io.size), io.writeOk)
  }

  lemma BelowLayerDir(now: nat, p: Path)
    ensures Below(LayerDir(now), p) ==> Below(LAYERS, p)
  {
    assert LayerDir(now)[..2] == LAYERS;
    assert |p| > 3 ==> p[..3][..2] == p[..2];
  }

  /** A layer changes nothing outside the layer store, and needs it to exist. */
  lemma CreateLayerFrame(t: Tree, now: nat, io: Io, p: Path)
    requires !Below(LAYERS, p)
    ensures var u := CreateLayer(t, now, io).0; (p in u <==> p in t) && (p in t ==> u[p] == t[p])
    ensures CreateLayer(t, now, io).1 ==> DirAt(t, LAYERS)
  {
    var dir := LayerDir(now);
    assert dir[..2] == LAYERS && |dir| == 3;
    BelowLayerDir(now, p);
    assert dir + [LayerId(now) + ".json"] != p by {
      assert (dir + [LayerId(now) + ".json"])[..2] == LAYERS;
    }
  }

  lemma MetadataNotBelowLayers(p: Path)
    requires Below(METADATA, p) || p == METADATA || p == ["tmp"]
    ensures !Below(LAYERS, p)
  {
    assert METADATA[1] != LAYERS[1];
    if Below(METADATA, p) {
      assert p[..2][1] == METADATA[1];
    }
  }

  function Norm(tag: Option<string>): string {
    match tag case None => "latest" case Some(s) => TagOrLatest(s)
  }

  /** What create does to the metadata directory: on success the image's own file, otherwise nothing. */
  lemma CreateImageMetadata(t: Tree, name: string, tag: Option<string>, clock: Clock, io: Io, p: Path)
    requires GoodName(name, Norm(tag)) && (Below(METADATA, p) || p == METADATA || p == ["tmp"])
    ensures var (u, ok) := CreateImage(t, name, tag, clock, io);
            var key := Key(FullName(name, Norm(tag)));
            if ok && p == key then
              u.Keys >= {p} && u[p] == File(ImageMetadata.WriteText(NewImage(name, tag, clock, io.size))) && TmpDirs(t)
            else (p in u <==> p in t) && (p in t ==> u[p] == t[p])
    ensures CreateImage(t, name, tag, clock, io).1 ==> DirAt(t, LAYERS) && TmpDirs(t)
  {
    var (u, ok) := CreateLayer(t, clock.directory, io);
    var c := NewImage(name, tag, clock, io.size);
    MetadataNotBelowLayers(p);
    CreateLayerFrame(t, clock.directory, io, p);
    LayerKeepsTmp(t, clock.directory, io);
    NormOfCut(name, tag);
    FullNameSlashFree(name, Norm(tag));
    WriteMetadataAt(u, c, FullName(name, Norm(tag)), io.writeOk, p);
  }

  lemma LayerKeepsTmp(t: Tree, now: nat, io: Io)
    ensures TmpDirs(CreateLayer(t, now, io).0) <==> TmpDirs(t)
  {
    MetadataNotBelowLayers(METADATA);
    CreateLayerFrame(t, now, io, METADATA);
    MetadataNotBelowLayers(["tmp"]);
    CreateLayerFrame(t, now, io, ["tmp"]);
  }

  /** Writing a record changes its own file and needs the directories. */
  lemma WriteMetadataAt(t: Tree, c: ImageMetadata.ImageInfo, full: string, ok: bool, p: Path)
    requires FullName(c.name, c.tag) == full && '/' !in full
    ensures var (u, done) := WriteMetadata(t, c, ok);
            && (done ==> TmpDirs(t))
            && if done && p == Key(full) then p in u && u[p] == File(ImageMetadata.WriteText(c))
               else (p in u <==> p in t) && (p in t ==> u[p] == t[p])
  {
    KeyLocated(t, full);
  }

  lemma NormOfCut(name: string, tag: Option<string>)
    requires GoodName(name, Norm(tag))
    ensures var c := NewImage(name, tag, Clock(0, 0, 0, 0), 0);
            FullName(c.name, c.tag) == FullName(name, Norm(tag))
  {}

  /** A successful create makes the image exist, with its record as the file's text. */
  lemma CreateMakesImage(t: Tree, name: string, tag: Option<string>, clock: Clock, io: Io)
    requires GoodName(name, Norm(tag)) && CreateImage(t, name, tag, clock, io).1
    ensures var u := CreateImage(t, name, tag, clock, io).0;
            && ImageExists(u, name, Norm(tag))
            && FileAt(u, Key(FullName(name, Norm(tag))))
               == Some(ImageMetadata.WriteText(NewImage(name, tag, clock, io.size)))
  {
    var u := CreateImage(t, name, tag, clock, io).0;
    var key := Key(FullName(name, Norm(tag)));
    assert Below(METADATA, key) && |METADATA| == 2 && |["tmp"]| == 1;
    CreateImageMetadata(t, name, tag, clock, io, key);
    CreateImageMetadata(t, name, tag, clock, io, METADATA);
    CreateImageMetadata(t, name, tag, clock, io, ["tmp"]);
    ImageExistsMeaning(u, name, Norm(tag));
  }

  /** Create leaves every other name and tag as it was, whether it succeeds or not. */
  lemma CreateKeepsOthers(t: Tree, name: string, tag: Option<string>, clock: Clock, io: Io, n: string, g: string)
    requires GoodName(name, Norm(tag)) && GoodName(n, g)
    requires n != name || TagOrLatest(g) != TagOrLatest(Norm(tag))
    ensures var u := CreateImage(t, name, tag, clock, io).0;
            && (ImageExists(u, n, g) <==> ImageExists(t, n, g))
            && FileAt(u, Key(FullName(n, g))) == FileAt(t, Key(FullName(n, g)))
  {
    var u := CreateImage(t, name, tag, clock, io).0;
    var key, own := Key(FullName(n, g)), Key(FullName(name, Norm(tag)));
    FullNameInjective(n, g, name, Norm(tag));
    if key == own {
      KeyInjective(FullName(n, g), FullName(name, Norm(tag)));
    }
    assert Below(METADATA, key) && |METADATA| == 2 && |["tmp"]| == 1 && |own| == 3;
    CreateImageMetadata(t, name, tag, clock, io, key);
    CreateImageMetadata(t, name, tag, clock, io, METADATA);
    CreateImageMetadata(t, name, tag, clock, io, ["tmp"]);
    ImageExistsMeaning(u, n, g);
    ImageExistsMeaning(t, n, g);
  }

  function LayerFile(now: nat): Path {
    LayerDir(now) + [LayerId(now) + ".json"]
  }

  lemma LayerSucceedsExactly(t: Tree, now: nat, io: Io)
    requires io.mkdirOk && io.cpOk && io.layerOk
    ensures var filled := t + OnlyBelow(LayerDir(now), io.copied);
            CreateLayer(t, now, io).1 <==>
              && DirAt(t, LAYERS) && FileAt(t, LayerDir(now)).None?
              && (LayerFile(now) in filled ==> filled[LayerFile(now)].File?)
  {
    var dir, file := LayerDir(now), LayerFile(now);
    assert |dir| == 3 && |file| == 4 && file[..3] == dir && dir != [];
    assert !Below(dir, dir);
  }

  lemma WriteSucceedsExactly(t: Tree, c: ImageMetadata.ImageInfo, full: string)
    requires full == FullName(c.name, c.tag) && '/' !in full
    ensures WriteMetadata(t, c, true).1 <==> TmpDirs(t) && (Key(full) in t ==> t[Key(full)].File?)
  {
    KeyLocated(t, full);
    assert Key(full)[..2] == METADATA && |Key(full)| == 3;
  }

  /** When nothing outside the tree refuses, a create succeeds exactly if these places are as it needs them. */
  lemma CreateSucceedsExactly(t: Tree, name: string, tag: Option<string>, clock: Clock, io: Io)
    requires GoodName(name, Norm(tag)) && io.mkdirOk && io.cpOk && io.layerOk && io.writeOk
    ensures var filled := t + OnlyBelow(LayerDir(clock.directory), io.copied);
            var key, file := Key(FullName(name, Norm(tag))), LayerFile(clock.directory);
            CreateImage(t, name, tag, clock, io).1 <==>
              && DirAt(t, LAYERS) && FileAt(t, LayerDir(clock.directory)).None?
              && (file in filled ==> filled[file].File?)
              && TmpDirs(t) && (key in t ==> t[key].File?)
  {
    var key := Key(FullName(name, Norm(tag)));
    var u := CreateLayer(t, clock.directory, io).0;
    LayerSucceedsExactly(t, clock.directory, io);
    assert |METADATA| == 2 && |["tmp"]| == 1 && key[..2] == METADATA;
    forall p | p == key || p == METADATA || p == ["tmp"]
      ensures (p in u <==> p in t) && (p in t ==> u[p] == t[p])
    {
      MetadataNotBelowLayers(p);
      CreateLayerFrame(t, clock.directory, io, p);
    }
    FullNameSlashFree(name, Norm(tag));
    NormOfCut(name, tag);
    WriteSucceedsExactly(u, NewImage(name, tag, clock, io.size), FullName(name, Norm(tag)));
  }

  lemma LayerContents(t: Tree, now: nat, io: Io, p: Path)
    requires CreateLayer(t, now, io).1
    ensures var u := CreateLayer(t, now, io).0;
            && DirAt(u, LayerDir(now)) && FileAt(u, LayerFile(now)) == Some(io.layerText)
            && (p in io.copied && Below(LayerDir(now), p) && p != LayerFile(now) ==> p in u && u[p] == io.copied[p])
  {
    assert |LayerDir(now)| == 3 && |LayerFile(now)| == 4;
  }

  lemma LayerIsNoKey(now: nat, full: string, p: Path)
    requires p == LayerDir(now) || Below(LayerDir(now), p)
    ensures p != Key(full)
  {
    assert p[..3] == LayerDir(now);
    assert p[1] == p[..3][1] == LAYERS[1];
    assert LAYERS[1] != METADATA[1];
  }

  /** Writing the image's record leaves the layer. */
  lemma LayerKept(t: Tree, name: string, tag: Option<string>, clock: Clock, io: Io, q: Path)
    requires GoodName(name, Norm(tag)) && CreateImage(t, name, tag, clock, io).1
    requires q == LayerDir(clock.directory) || Below(LayerDir(clock.directory), q)
    ensures SameAt(CreateLayer(t, clock.directory, io).0, CreateImage(t, name, tag, clock, io).0, q)
  {
    var full := FullName(name, Norm(tag));
    NormOfCut(name, tag);
    FullNameSlashFree(name, Norm(tag));
    LayerIsNoKey(clock.directory, full, q);
    WriteMetadataAt(CreateLayer(t, clock.directory, io).0, NewImage(name, tag, clock, io.size), full, io.writeOk, q);
  }

  lemma LayerPaths(now: nat)
    ensures var id := "layer_" + TimeHex(now);
            && LayerDir(now) == ["tmp", "docker-layers", id]
            && LayerFile(now) == ["tmp", "docker-layers", id, id + ".json"]
    ensures Below(LayerDir(now), LayerFile(now))
  {
    assert |LayerFile(now)| == 4 && LayerFile(now)[..3] == LayerDir(now);
  }

  /** A successful create leaves its layer: the directory, what was copied into it, and its metadata. */
  lemma CreateLeavesLayer(t: Tree, name: string, tag: Option<string>, clock: Clock, io: Io, p: Path)
    requires GoodName(name, Norm(tag)) && CreateImage(t, name, tag, clock, io).1
    ensures var u, id := CreateImage(t, name, tag, clock, io).0, "layer_" + TimeHex(clock.directory);
            var dir, file := ["tmp", "docker-layers", id], ["tmp", "docker-layers", id, id + ".json"];
            && DirAt(u, dir) && FileAt(u, file) == Some(io.layerText)
            && (p in io.copied && Below(dir, p) && p != file ==> p in u && u[p] == io.copied[p])
  {
    LayerPaths(clock.directory);
    LayerContents(t, clock.directory, io, p);
    LayerKept(t, name, tag, clock, io, LayerDir(clock.directory));
    LayerKept(t, name, tag, clock, io, LayerFile(clock.directory));
    if Below(LayerDir(clock.directory), p) {
      LayerKept(t, name, tag, clock, io, p);
    }
  }

  /** A create that fails once its layer directory is made leaves that directory. */
  lemma FailedCreateLeavesLayer(t: Tree, name: string, tag: Option<string>, clock: Clock, io: Io)
    requires GoodName(name, Norm(tag)) && !CreateImage(t, name, tag, clock, io).1
    requires io.mkdirOk && DirAt(t, LAYERS) && FileAt(t, LayerDir(clock.directory)).None?
    ensures DirAt(CreateImage(t, name, tag, clock, io).0, ["tmp", "docker-layers", "layer_" + TimeHex(clock.directory)])
    ensures CreateLayer(t, clock.directory, io).1 ==>
              CreateImage(t, name, tag, clock, io).0 == CreateLayer(t, clock.directory, io).0
  {
    var dir := LayerDir(clock.directory);
    LayerPaths(clock.directory);
    assert |dir| == 3 && !Below(dir, dir);
  }

  // ----- remove -----

  /** `rm -rf`: everything at and below the path goes. */
  function Pruned(t: Tree, dir: Path): Tree {
    map p | p in t && p != dir && !Below(dir, p) :: t[p]
  }

  function RemoveLayers(t: Tree, id: string, ok: bool): (Tree, bool) {
    match Locate(t, LAYERS_PATH + "/" + id)
    case None => (t, ok)
    case Some(p) => if ok then (Pruned(t, p), true) else (t, false)
  }

  /** `remove_image`, by full name. */
  function RemoveImage(t: Tree, id: string, unlinkOk: bool, rmOk: bool): (Tree, bool) {
    match Locate(t, MetadataFile(id))
    case None => (t, false)
    case Some(p) =>
      if !unlinkOk || FileAt(t, p).None? then (t, false)
      else RemoveLayers(t - {p}, id, rmOk)
  }

  lemma RemoveLayersFrame(t: Tree, id: string, ok: bool, p: Path)
    requires Component(id) && !Below(LAYERS, p)
    ensures var u := RemoveLayers(t, id, ok).0; (p in u <==> p in t) && (p in t ==> u[p] == t[p])
  {
    LayerNames(id);
    var dir := LAYERS + [id];
    assert dir[..2] == LAYERS && |dir| == 3;
    assert |p| > 3 ==> p[..3][..2] == p[..2];
    assert Names(LAYERS_PATH + "/" + id)[2] == id;
    LocateUnder(t, "docker-layers", LAYERS_PATH + "/" + id, id);
  }

  lemma LocateUnder(t: Tree, dir: string, path: string, file: string)
    requires dir != "." && dir != ".." && Names(path) == ["tmp", dir, file]
    ensures Locate(t, path) == if DirAt(t, ["tmp"]) && DirAt(t, ["tmp", dir]) then Some(["tmp", dir, file]) else None
  {
    assert ["tmp", dir, file][..2] == ["tmp", dir] && ["tmp", dir] + [file] == ["tmp", dir, file];
    WalkTmp(t, dir);
  }

  /** Removing an existing image by its full name makes it not exist and leaves every other one. */
  lemma RemoveForgetsImage(t: Tree, name: string, tag: string, unlinkOk: bool, rmOk: bool)
    requires GoodName(name, tag)
    ensures var (u, ok) := RemoveImage(t, FullName(name, tag), unlinkOk, rmOk);
            && (ok ==> ImageExists(t, name, tag) && !ImageExists(u, name, tag))
            && (unlinkOk && rmOk ==> (ok <==> TmpDirs(t) && FileAt(t, Key(FullName(name, tag))).Some?))
  {
    var full := FullName(name, tag);
    var key := Key(full);
    FullNameSlashFree(name, tag);
    KeyLocated(t, full);
    ImageExistsMeaning(t, name, tag);
    var (u, ok) := RemoveImage(t, full, unlinkOk, rmOk);
    ImageExistsMeaning(u, name, tag);
    MetadataNotBelowLayers(key);
    RemoveLayersFrame(t - {key}, full, rmOk, key);
  }

  lemma RemoveKeepsOthers(t: Tree, name: string, tag: string, unlinkOk: bool, rmOk: bool, n: string, g: string)
    requires GoodName(name, tag) && GoodName(n, g) && (n != name || TagOrLatest(g) != TagOrLatest(tag))
    ensures var u := RemoveImage(t, FullName(name, tag), unlinkOk, rmOk).0;
            && (ImageExists(u, n, g) <==> ImageExists(t, n, g))
            && FileAt(u, Key(FullName(n, g))) == FileAt(t, Key(FullName(n, g)))
  {
    var full, other := FullName(name, tag), FullName(n, g);
    FullNameInjective(n, g, name, tag);
    if Key(full) == Key(other) {
      KeyInjective(full, other);
    }
    FullNameSlashFree(name, tag);
    KeyLocated(t, full);
    var u := RemoveImage(t, full, unlinkOk, rmOk).0;
    ImageExistsMeaning(t, n, g);
    ImageExistsMeaning(u, n, g);
    assert |Key(full)| == 3 && |METADATA| == 2 && |["tmp"]| == 1;
    forall p | p == Key(other) || p == METADATA || p == ["tmp"]
      ensures (p in u <==> p in t) && (p in t ==> u[p] == t[p])
    {
      MetadataNotBelowLayers(p);
      RemoveLayersFrame(t - {Key(full)}, full, rmOk, p);
    }
  }

  /** Whether the layers of an image are removed with it: `rm` is given a path under the full name. */
  predicate RemovesLayers(t: Tree, rmOk: bool) {
    rmOk && DirAt(t, ["tmp"]) && DirAt(t, LAYERS)
  }

  /** Exactly what a remove takes: the metadata file and what is below the image's name among the layers. */
  lemma RemoveImageExactly(t: Tree, name: string, tag: string, unlinkOk: bool, rmOk: bool, p: Path)
    requires GoodName(name, tag)
    ensures var full := FullName(name, tag);
            var (u, ok) := RemoveImage(t, full, unlinkOk, rmOk);
            var key, layers := ["tmp", "docker-metadata", full + ".json"], ["tmp", "docker-layers", full];
            var found := TmpDirs(t) && FileAt(t, key).Some? && unlinkOk;
            && ok == (found && rmOk)
            && (if found && (p == key || (RemovesLayers(t, rmOk) && (p == layers || Below(layers, p)))) then p !in u
                else (p in u <==> p in t) && (p in t ==> u[p] == t[p]))
  {
    var full := FullName(name, tag);
    FullNameSlashFree(name, tag);
    KeyLocated(t, full);
    LayerNames(full);
    var v := t - {Key(full)};
    assert Key(full) == ["tmp", "docker-metadata", full + ".json"];
    assert LAYERS + [full] == ["tmp", "docker-layers", full];
    LocateUnder(v, "docker-layers", LAYERS_PATH + "/" + full, full);
    assert DirAt(v, ["tmp"]) == DirAt(t, ["tmp"]) && DirAt(v, LAYERS) == DirAt(t, LAYERS);
  }

  /** The layers that create made stay: their names are generated, and remove looks for the image's name among them. */
  lemma RemoveLeavesLayers(t: Tree, name: string, tag: string, unlinkOk: bool, rmOk: bool, now: nat, p: Path)
    requires GoodName(name, tag) && (p == LayerDir(now) || Below(LayerDir(now), p))
    ensures var u := RemoveImage(t, FullName(name, tag), unlinkOk, rmOk).0;
            (p in u <==> p in t) && (p in t ==> u[p] == t[p])
  {
    var full, layers := FullName(name, tag), ["tmp", "docker-layers", FullName(name, tag)];
    RemoveImageExactly(t, name, tag, unlinkOk, rmOk, p);
    assert full[|name|] == ':' && ':' in full && ':' !in LayerId(now);
    assert |p| >= 3 && p[..3] == LayerDir(now) && p[2] == p[..3][2] == LayerId(now);
    assert p[1] == p[..3][1] == "docker-layers";
    assert p == layers || Below(layers, p) ==> p[..3] == layers;
    assert layers[2] == full;
    assert METADATA[1] != LAYERS[1];
  }

  // ----- a fresh installation -----

  const DIRS: seq<string> := [IMAGES_PATH, LAYERS_PATH, METADATA_PATH]

  /**
   `create_directory_structure`, whose index moves twice in every turn. The first
   directory stays when the second cannot be made, because the count of what to
   clean up stays zero.
   */
  method CreateDirectoryStructure(t: Tree) returns (u: Tree, ok: bool)
    ensures OnlyNewDirectories(t, u)
    ensures LAYERS !in t ==> LAYERS !in u
    ensures match Mkdir(t, "/tmp/docker-images")
            case None => u == t && !ok
            case Some(v) =>
              match Mkdir(v, "/tmp/docker-metadata")
              case None => u == v && !ok
              case Some(w) => u == w && ok
  {
    u := t;
    var i := 0;
    while i < 3
      invariant i == 0 || i == 2 || i == 4
      invariant OnlyNewDirectories(t, u) && (LAYERS !in t ==> LAYERS !in u)
      invariant i == 0 ==> u == t
      invariant i >= 2 ==> Mkdir(t, IMAGES_PATH).Some?
      invariant i == 2 ==> Mkdir(t, IMAGES_PATH) == Some(u)
      invariant i == 4 ==> Mkdir(Mkdir(t, IMAGES_PATH).value, METADATA_PATH) == Some(u)
    {
      var path := DIRS[i];
      var made := Mkdir(u, path);
      if made.None? {
        return u, false;
      }
      MkdirAddsOneDirectory(u, path);
      TopDirectoryIsNotLayers(u, path);
      u := made.value;
      i := i + 1;
      i := i + 1;
    }
    return u, true;
  }

  lemma TmpChild(t: Tree, path: string, dir: string)
    requires path == "/tmp/" + dir && Component(dir)
    ensures Names(path) == ["tmp", dir]
  {
    NamesOfTwo("tmp", dir);
    LeadingSlash("tmp" + "/" + dir);
    assert "/" + ("tmp" + "/" + dir) == path;
  }

  lemma MkdirElsewhere(t: Tree, path: string, dir: string)
    requires path == "/tmp/" + dir && Component(dir) && dir != LAYERS[1] && Mkdir(t, path).Some?
    ensures LAYERS !in t ==> LAYERS !in Mkdir(t, path).value
  {
    TmpChild(t, path, dir);
    var names := Names(path);
    assert names[|names| - 1] == dir;
  }

  lemma TopDirectoryName(path: string) returns (dir: string)
    requires path == IMAGES_PATH || path == METADATA_PATH
    ensures path == "/tmp/" + dir && Component(dir) && dir != LAYERS[1]
  {
    dir := if path == IMAGES_PATH then "docker-images" else "docker-metadata";
    assert dir[7] != 'l' && LAYERS[1][7] == 'l';
  }

  lemma TopDirectoryIsNotLayers(t: Tree, path: string)
    requires (path == IMAGES_PATH || path == METADATA_PATH) && Mkdir(t, path).Some?
    ensures LAYERS !in t ==> LAYERS !in Mkdir(t, path).value
  {
    var dir := TopDirectoryName(path);
    MkdirElsewhere(t, path, dir);
  }

  /** The layer store is never made, and without it no image can be created. */
  lemma NoLayerStoreNoImage(t: Tree, name: string, tag: Option<string>, clock: Clock, io: Io)
    requires LAYERS !in t
    ensures CreateImage(t, name, tag, clock, io) == (t, false)
  {}

  lemma MkdirUnderTmp(t: Tree, path: string, dir: string)
    requires DirAt(t, ["tmp"]) && path == "/tmp/" + dir && Component(dir) && dir != "." && dir != ".."
    ensures Mkdir(t, path) == Some(if ["tmp", dir] in t then t else t[["tmp", dir] := Dir])
  {
    TmpChild(t, path, dir);
    assert ["tmp", dir][..1] == ["tmp"] && ["tmp"][1..] == [] && [] + ["tmp"] == ["tmp"];
    assert Walk(t, ["tmp"], []) == Some(["tmp"]) && Walk(t, [], ["tmp"]) == Some(["tmp"]);
    assert ["tmp"] + [dir] == ["tmp", dir];
  }

  lemma BothUnderTmp(t: Tree, path: string, dir: string, path2: string, dir2: string)
    requires DirAt(t, ["tmp"]) && path == "/tmp/" + dir && path2 == "/tmp/" + dir2
    requires Component(dir) && |dir| > 2 && Component(dir2) && |dir2| > 2
    ensures var v := Mkdir(t, path);
            && v.Some? && ["tmp", dir] in v.value
            && var w := Mkdir(v.value, path2); w.Some? && ["tmp", dir] in w.value && ["tmp", dir2] in w.value
  {
    MkdirUnderTmp(t, path, dir);
    MkdirUnderTmp(Mkdir(t, path).value, path2, dir2);
  }

  /** On a machine with `/tmp` both directories can be made. */
  lemma FreshInstallation(t: Tree)
    requires DirAt(t, ["tmp"])
    ensures var v := Mkdir(t, "/tmp/docker-images");
            && v.Some?
            && var w := Mkdir(v.value, "/tmp/docker-metadata");
               w.Some? && ["tmp", "docker-images"] in w.value && ["tmp", "docker-metadata"] in w.value
  {
    assert "/tmp/docker-images" == "/tmp/" + "docker-images";
    assert "/tmp/docker-metadata" == "/tmp/" + "docker-metadata";
    BothUnderTmp(t, "/tmp/docker-images", "docker-images", "/tmp/docker-metadata", "docker-metadata");
  }
}
