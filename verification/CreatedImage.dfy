/** A created image and its reader: when the file of a new image gives its five fields back. */
module CreatedImage {
  import opened CText
  import opened FileSystem
  import opened Ids
  import opened ImageMetadata
  import opened ImageStore
  import opened KeyedLines

  /** Letters only, so neither a quote nor a line end. */
  predicate Word(s: string) {
    forall i :: 0 <= i < |s| ==> 'a' <= s[i] <= 'z'
  }

  lemma KeyIsWord(c: ImageInfo, i: nat)
    requires i < |Fields(c)|
    ensures Word(Fields(c)[i].key) && |Fields(c)[i].key| <= 12 && Fields(c)[i].end == ","
  {}

  /** Newline-free and short. */
  predicate ShortText(s: string) {
    '\n' !in s && '\0' !in s && |s| <= 255
  }

  predicate ShortFields(c: ImageInfo) {
    && ShortText(c.id) && ShortText(c.name) && ShortText(c.tag) && ShortText(c.parentId) && ShortText(c.created)
    && ShortText(c.size) && ShortText(c.architecture) && ShortText(c.os) && ShortText(c.author) && ShortText(c.comment)
  }

  lemma FieldIsShort(c: ImageInfo, i: nat)
    requires ShortFields(c) && i < |Fields(c)|
    ensures Fields(c)[i].value.Text? && ShortText(Fields(c)[i].value.text)
  {}

  lemma ShortIsPrintable(c: ImageInfo)
    requires ShortFields(c)
    ensures Printable(Fields(c), LINE_SIZE)
  {
    forall i | 0 <= i < |Fields(c)|
      ensures PlainKey(Fields(c)[i]) && OneLine(Print(Fields(c)[i]), LINE_SIZE)
    {
      KeyIsWord(c, i);
      FieldIsShort(c, i);
      PrintedOneLine(Fields(c)[i], LINE_SIZE);
    }
  }

  predicate NoConfig(c: ImageInfo) {
    c.command == "" && c.workingDir == "" && c.envVars == "" && c.exposedPorts == "" && c.volumes == ""
  }

  predicate ShortParts(n: Nested) {
    match n
    case Keyed(indent, word, rest) => ShortText(indent) && ShortText(word) && ShortText(rest)
    case Bare(text) => ShortText(text)
  }

  lemma ShortPartsFit(n: Nested)
    requires ShortParts(n)
    ensures OneLine(ShowNested(n), LINE_SIZE)
  {}

  lemma EmptyBetween(open: string, v: string, close: string)
    requires v == "" && ShortText(open) && ShortText(close) && |open| + |close| < 250
    ensures ShortText(open + Quoted(v) + close)
  {
    assert open + Quoted(v) + close == open + "\"\"" + close;
  }

  lemma FirstConfigShort(c: ImageInfo, i: nat)
    requires NoConfig(c) && i < 4
    ensures ShortParts(Config(c)[i])
  {
    EmptyBetween(": [", c.command, "],");
    EmptyBetween(": ", c.workingDir, ",");
    EmptyBetween(": [", c.envVars, "],");
  }

  lemma LastConfigShort(c: ImageInfo, i: nat)
    requires NoConfig(c) && 6 <= i < |Config(c)|
    ensures ShortParts(Config(c)[i])
  {}

  lemma VolumesShort(c: ImageInfo, i: nat)
    requires NoConfig(c) && 4 <= i < 6
    ensures ShortParts(Config(c)[i])
  {
    EmptyBetween(": {", c.exposedPorts, ": {}},");
    EmptyBetween(": {", c.volumes, ": {}}");
  }

  lemma ConfigFits(c: ImageInfo, i: nat)
    requires NoConfig(c) && i < |Config(c)|
    ensures OneLine(ShowNested(Config(c)[i]), LINE_SIZE)
  {
    if i < 4 {
      FirstConfigShort(c, i);
    } else if i < 6 {
      VolumesShort(c, i);
    } else {
      LastConfigShort(c, i);
    }
    ShortPartsFit(Config(c)[i]);
  }

  lemma LayerFits(layers: seq<string>)
    requires |layers| == 1 && ShortText(layers[0])
    ensures OneLine(ShowNested(Layer(layers, 0)), LINE_SIZE)
  {}

  lemma ClosingFits(i: nat)
    requires i < |CLOSING|
    ensures OneLine(ShowNested(CLOSING[i]), LINE_SIZE)
  {}

  lemma BehindFits(c: ImageInfo, i: nat)
    requires NoConfig(c) && |c.layers| == 1 && ShortText(c.layers[0]) && i < |Behind(c)|
    ensures OneLine(ShowNested(Behind(c)[i]), LINE_SIZE)
  {
    var n := |Config(c)|;
    if i < n {
      ConfigFits(c, i);
    } else if i == n {
      assert Behind(c)[i] == Layer(c.layers, 0);
      LayerFits(c.layers);
    } else {
      assert Behind(c)[i] == CLOSING[i - n - 1];
      ClosingFits(i - n - 1);
    }
  }

  /** The lines of a new image reach the reader whole when neither name nor tag has a newline. */
  lemma NewImageFits(name: string, tag: Option<string>, clock: Clock, size: Int32)
    requires var c := NewImage(name, tag, clock, size); ShortText(c.name) && ShortText(c.tag)
    ensures Fits(NewImage(name, tag, clock, size))
  {
    var c := NewImage(name, tag, clock, size);
    DecShort(clock.created);
    DecShort(size);
    FixedTexts(clock);
    ShortIsPrintable(c);
    forall i | 0 <= i < |Behind(c)|
      ensures OneLine(ShowNested(Behind(c)[i]), LINE_SIZE)
    {
      BehindFits(c, i);
    }
  }

  lemma FixedTexts(clock: Clock)
    ensures ShortText("sha256:" + TimeHex(clock.image)) && '"' !in "sha256:" + TimeHex(clock.image)
    ensures ShortText(LayerId(clock.layer)) && '"' !in LayerId(clock.layer)
    ensures ShortText("amd64") && ShortText("linux") && ShortText("docker-clone") && ShortText("")
  {
    HexIsPlain("sha256:", TimeHex(clock.image));
    HexIsPlain("layer_", TimeHex(clock.layer));
  }

  lemma HexIsPlain(head: string, hex: string)
    requires |hex| == 16 && (forall c :: c in hex ==> IsHex(c)) && ShortText(head) && |head| < 100 && '"' !in head
    ensures ShortText(head + hex) && '"' !in head + hex
  {
    assert '\n' !in hex && '\0' !in hex && '"' !in hex;
  }

  lemma FixedNotCaptured(c: ImageInfo, clock: Clock, size: Int32)
    requires c.id == "sha256:" + TimeHex(clock.image) && c.created == Dec(clock.created) && c.size == Dec(size)
    ensures ComesBack(SLOTS, View(c)[0], 0) && ComesBack(SLOTS, View(c)[3], 3) && ComesBack(SLOTS, View(c)[4], 4)
  {
    FixedTexts(clock);
    NumberNotCaptured(clock.created, 3);
    NumberNotCaptured(size, 4);
  }

  lemma NumberNotCaptured(n: int, j: int)
    ensures !Captured(SLOTS, Text(Dec(n)), j) && '"' !in Dec(n)
  {
    forall i | 0 <= i < |SLOTS|
      ensures SLOTS[i].key != Dec(n)
    {
      assert Dec(n)[0] in Dec(n);
      assert 'a' <= SLOTS[i].key[0] <= 'z';
    }
  }

  lemma AllSlots(c: ImageInfo)
    ensures (forall j :: 0 <= j < |SLOTS| ==> ComesBack(SLOTS, View(c)[j], j))
            <==> ComesBack(SLOTS, View(c)[0], 0) && ComesBack(SLOTS, View(c)[1], 1) && ComesBack(SLOTS, View(c)[2], 2)
                 && ComesBack(SLOTS, View(c)[3], 3) && ComesBack(SLOTS, View(c)[4], 4)
    ensures QuoteFree(View(c)[1]) <==> '"' !in c.name
    ensures QuoteFree(View(c)[2]) <==> '"' !in c.tag
  {
    assert |SLOTS| == 5;
  }

  lemma NameAndTag(c: ImageInfo)
    ensures Captured(SLOTS, View(c)[1], 1) <==> c.name == "id"
    ensures Captured(SLOTS, View(c)[2], 2) <==> c.tag == "id" || c.tag == "name"
  {
    assert SLOTS[0].key == "id" && SLOTS[1].key == "name";
  }

  /**
   Reading the file of a new image gives id, name, tag, creation time and size
   back if and only if neither name nor tag has a quote, the name is not `id`
   and the tag neither `id` nor `name`.
   */
  lemma NewImageReadsBack(name: string, tag: Option<string>, clock: Clock, size: Int32)
    requires var c := NewImage(name, tag, clock, size); ShortText(c.name) && ShortText(c.tag)
    ensures var c := NewImage(name, tag, clock, size);
            ReadText(SLOTS, BLANK, WriteText(c), LINE_SIZE) == View(c)
            <==> '"' !in c.name && '"' !in c.tag && c.name != "id" && c.tag != "id" && c.tag != "name"
  {
    var c := NewImage(name, tag, clock, size);
    NewImageFits(name, tag, clock, size);
    ImageMetadata.RoundTrip(c);
    FixedNotCaptured(c, clock, size);
    NameAndTag(c);
    AllSlots(c);
  }

  /** The same of the file that a successful create leaves. */
  lemma CreatedImageReadsBack(t: Tree, name: string, tag: Option<string>, clock: Clock, io: Io)
    requires GoodName(name, Norm(tag)) && CreateImage(t, name, tag, clock, io).1
    requires var c := NewImage(name, tag, clock, io.size); ShortText(c.name) && ShortText(c.tag)
    ensures var file := FileAt(CreateImage(t, name, tag, clock, io).0, Key(FullName(name, Norm(tag))));
            var c := NewImage(name, tag, clock, io.size);
            && file.Some? && c.name == name && TagOrLatest(c.tag) == Norm(tag)
            && (ReadText(SLOTS, BLANK, file.value, LINE_SIZE) == View(c)
                <==> '"' !in name && '"' !in c.tag && name != "id" && c.tag != "id" && c.tag != "name")
  {
    CreateMakesImage(t, name, tag, clock, io);
    NewImageReadsBack(name, tag, clock, io.size);
  }
}
