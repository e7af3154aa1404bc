/** The metadata file of an image, line by line, and what a create writes into it. */
module ImageFile {
  import opened CText
  import opened CreatedRecord
  import opened FileSystem
  import opened Ids
  import opened ImageMetadata
  import opened KeyedLines
  import opened ImageStore

  /** The lines of `write_image_metadata` before the layers. */
  function HeadLine(c: ImageInfo, i: nat): string
    requires i < 19
  {
    match i
    case 0 => "{"
    case 1 => TextLine("id", c.id)
    case 2 => TextLine("name", c.name)
    case 3 => TextLine("tag", c.tag)
    case 4 => TextLine("parent", c.parentId)
    case 5 => TextLine("created", c.created)
    case 6 => TextLine("size", c.size)
    case 7 => TextLine("architecture", c.architecture)
    case 8 => TextLine("os", c.os)
    case 9 => TextLine("author", c.author)
    case 10 => TextLine("comment", c.comment)
    case 11 => "  \"config\": {"
    case 12 => "    \"Cmd\": [\"" + c.command + "\"],"
    case 13 => "    \"WorkingDir\": \"" + c.workingDir + "\","
    case 14 => "    \"Env\": [\"" + c.envVars + "\"],"
    case 15 => "    \"ExposedPorts\": {\"" + c.exposedPorts + "\": {}},"
    case 16 => "    \"Volumes\": {\"" + c.volumes + "\": {}}"
    case 17 => "  },"
    case _ => "  \"layers\": ["
  }

  /** All lines: one for each layer, with a comma behind all but the last. */
  function LineAt(c: ImageInfo, i: nat): string
    requires i < 21 + |c.layers|
  {
    if i < 19 then HeadLine(c, i)
    else if i < 19 + |c.layers| then "    \"" + c.layers[i - 19] + (if i - 19 < |c.layers| - 1 then "\"," else "\"")
    else if i == 19 + |c.layers| then "  ]"
    else "}"
  }

  function FileLines(c: ImageInfo): (ls: seq<string>)
    ensures |ls| == 21 + |c.layers| && forall i :: 0 <= i < |ls| ==> ls[i] == LineAt(c, i)
  {
    seq(21 + |c.layers|, i requires 0 <= i < 21 + |c.layers| => LineAt(c, i))
  }

  lemma FieldIs(f: Field, key: string, text: string, line: string)
    requires f == Field(key, Text(text), ",") && line == TextLine(key, text)
    ensures Print(f) == line
  {
    PrintedText(key, text);
  }

  lemma FirstFields(c: ImageInfo, i: nat, line: string)
    requires i < 5 && line == HeadLine(c, i + 1)
    ensures Print(Fields(c)[i]) == line
  {
    match i
    case 0 => FieldIs(Fields(c)[0], "id", c.id, line);
    case 1 => FieldIs(Fields(c)[1], "name", c.name, line);
    case 2 => FieldIs(Fields(c)[2], "tag", c.tag, line);
    case 3 => FieldIs(Fields(c)[3], "parent", c.parentId, line);
    case _ => FieldIs(Fields(c)[4], "created", c.created, line);
  }

  lemma OtherFields(c: ImageInfo, i: nat, line: string)
    requires 5 <= i < 10 && line == HeadLine(c, i + 1)
    ensures Print(Fields(c)[i]) == line
  {
    match i
    case 5 => FieldIs(Fields(c)[5], "size", c.size, line);
    case 6 => FieldIs(Fields(c)[6], "architecture", c.architecture, line);
    case 7 => FieldIs(Fields(c)[7], "os", c.os, line);
    case 8 => FieldIs(Fields(c)[8], "author", c.author, line);
    case _ => FieldIs(Fields(c)[9], "comment", c.comment, line);
  }

  /** A nested line with a value in it. */
  lemma Around(word: string, open: string, v: string, close: string, head: string, end: string)
    requires "    " + (Quoted(word) + (open + "\"")) == head && "\"" + close == end
    ensures ShowNested(Keyed("    ", word, open + Quoted(v) + close)) == head + v + end
  {
    var quote := "\"";
    Regroup(quote, v, quote);
    Regroup(open, quote, v + quote);
    Regroup(open + quote, v, quote);
    Regroup(open + quote + v, quote, close);
    Regroup(Quoted(word), open + quote, v + end);
    Regroup(open + quote, v, end);
    Regroup("    ", Quoted(word) + (open + quote), v + end);
    Regroup(head, v, end);
  }

  lemma CmdLine(c: ImageInfo)
    ensures ShowNested(Config(c)[1]) == HeadLine(c, 12)
  {
    Around("Cmd", ": [", c.command, "],", "    \"Cmd\": [\"", "\"],");
  }

  lemma WorkingDirHead()
    ensures "    " + (Quoted("WorkingDir") + (": " + "\"")) == "    \"WorkingDir\": \""
    ensures "\"" + "," == "\","
  {}

  lemma WorkingDirLine(c: ImageInfo)
    ensures ShowNested(Config(c)[2]) == HeadLine(c, 13)
  {
    WorkingDirHead();
    Around("WorkingDir", ": ", c.workingDir, ",", "    \"WorkingDir\": \"", "\",");
  }

  lemma EnvLine(c: ImageInfo)
    ensures ShowNested(Config(c)[3]) == HeadLine(c, 14)
  {
    Around("Env", ": [", c.envVars, "],", "    \"Env\": [\"", "\"],");
  }

  lemma PortsHead()
    ensures "    " + (Quoted("ExposedPorts") + (": {" + "\"")) == "    \"ExposedPorts\": {\""
    ensures "\"" + ": {}}," == "\": {}},"
  {}

  lemma PortsLine(c: ImageInfo)
    ensures ShowNested(Config(c)[4]) == HeadLine(c, 15)
  {
    PortsHead();
    Around("ExposedPorts", ": {", c.exposedPorts, ": {}},", "    \"ExposedPorts\": {\"", "\": {}},");
  }

  lemma VolumesLine(c: ImageInfo)
    ensures ShowNested(Config(c)[5]) == HeadLine(c, 16)
  {
    Around("Volumes", ": {", c.volumes, ": {}}", "    \"Volumes\": {\"", "\": {}}");
  }

  lemma PlainConfigLine(c: ImageInfo, i: nat)
    requires i == 0 || i == 6 || i == 7
    ensures ShowNested(Config(c)[i]) == HeadLine(c, i + 11)
  {}

  lemma ConfigLine(c: ImageInfo, i: nat)
    requires i < 8
    ensures ShowNested(Config(c)[i]) == HeadLine(c, i + 11)
  {
    match i
    case 1 => CmdLine(c);
    case 2 => WorkingDirLine(c);
    case 3 => EnvLine(c);
    case 4 => PortsLine(c);
    case 5 => VolumesLine(c);
    case _ => PlainConfigLine(c, i);
  }

  lemma LayerLine(c: ImageInfo, i: nat)
    requires i < |c.layers|
    ensures ShowNested(Layer(c.layers, i)) == LineAt(c, i + 19)
  {
    var id, end := c.layers[i], if i < |c.layers| - 1 then "," else "";
    Regroup("\"", id, "\"");
    assert "    " + ("\"" + id + "\"" + end) == "    \"" + id + ("\"" + end);
  }

  lemma BehindLine(c: ImageInfo, i: nat)
    requires 11 <= i < 21 + |c.layers|
    ensures |Behind(c)| == 10 + |c.layers| && ShowNested(Behind(c)[i - 11]) == LineAt(c, i)
  {
    if i < 19 {
      assert Behind(c)[i - 11] == Config(c)[i - 11];
      ConfigLine(c, i - 11);
    } else if i < 19 + |c.layers| {
      assert Behind(c)[i - 11] == Layer(c.layers, i - 19);
      LayerLine(c, i - 19);
    } else {
      assert Behind(c)[i - 11] == CLOSING[i - 19 - |c.layers|];
    }
  }

  lemma FrontLine(c: ImageInfo, i: nat)
    requires i < 11
    ensures |Fields(c)| == 10 && (if i == 0 then "{" else Print(Fields(c)[i - 1])) == LineAt(c, i)
  {
    if 0 < i < 6 {
      FirstFields(c, i - 1, HeadLine(c, i));
    } else if 6 <= i {
      OtherFields(c, i - 1, HeadLine(c, i));
    }
  }

  lemma RecordLineIs(c: ImageInfo, fs: seq<Field>, after: seq<Nested>, i: nat)
    requires fs == Fields(c) && after == Behind(c) && i < 21 + |c.layers|
    ensures |fs| == 10 && |after| == 10 + |c.layers|
    ensures RecordLine(fs, ImageMetadata.Shown(after), i) == LineAt(c, i)
  {
    FrontLine(c, 0);
    BehindLine(c, 11);
    if i < 11 {
      FrontLine(c, i);
    } else {
      BehindLine(c, i);
    }
  }

  /** The text of a record is these lines. */
  lemma FileSpelled(c: ImageInfo)
    ensures WriteText(c) == Terminated(FileLines(c))
  {
    var ls := RecordLines(Fields(c), ImageMetadata.Shown(Behind(c)));
    RecordLineIs(c, Fields(c), Behind(c), 0);
    forall i | 0 <= i < 21 + |c.layers|
      ensures ls[i] == LineAt(c, i)
    {
      RecordLineIs(c, Fields(c), Behind(c), i);
    }
    assert ls == FileLines(c);
  }

  /** What a successful create leaves in the file of its name and tag. */
  lemma CreatedFile(t: Tree, name: string, tag: Option<string>, clock: Clock, io: Io)
    requires GoodName(name, Norm(tag)) && CreateImage(t, name, tag, clock, io).1
    ensures var c := ImageInfo(
              id := "sha256:" + TimeHex(clock.image), name := name, tag := if tag.Some? then tag.value else "latest",
              parentId := "", created := Dec(clock.created), size := Dec(io.size), architecture := "amd64",
              os := "linux", author := "docker-clone", comment := "", command := "", workingDir := "", envVars := "",
              exposedPorts := "", volumes := "", layers := ["layer_" + TimeHex(clock.layer)]);
            var file := name + ":" + (if tag.None? || tag.value == "" then "latest" else tag.value) + ".json";
            FileAt(CreateImage(t, name, tag, clock, io).0, ["tmp", "docker-metadata", file])
            == Some(Terminated(FileLines(c)))
  {
    var c := NewImage(name, tag, clock, io.size);
    CreateMakesImage(t, name, tag, clock, io);
    FileSpelled(c);
    KeySpelled(name, Norm(tag));
  }

  lemma KeySpelled(name: string, tag: string)
    requires tag != ""
    ensures Key(FullName(name, tag)) == ["tmp", "docker-metadata", name + ":" + tag + ".json"]
  {}
}
