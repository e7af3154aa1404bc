/** An image's record, its text in the metadata file, and what reading that text back restores. */
module ImageMetadata {
  import opened CText
  import opened KeyedLines

  const LINE_SIZE: nat := 1024

  datatype ImageInfo = ImageInfo(
    id: string, name: string, tag: string, parentId: string, created: string, size: string,
    architecture: string, os: string, author: string, comment: string, command: string, workingDir: string,
    envVars: string, exposedPorts: string, volumes: string, layers: seq<string>)

  function Fields(c: ImageInfo): seq<Field> {
    [Field("id", Text(c.id), ","),
     Field("name", Text(c.name), ","),
     Field("tag", Text(c.tag), ","),
     Field("parent", Text(c.parentId), ","),
     Field("created", Text(c.created), ","),
     Field("size", Text(c.size), ","),
     Field("architecture", Text(c.architecture), ","),
     Field("os", Text(c.os), ","),
     Field("author", Text(c.author), ","),
     Field("comment", Text(c.comment), ",")]
  }

  function Config(c: ImageInfo): seq<Nested> {
    [Keyed("  ", "config", ": {"),
     Keyed("    ", "Cmd", ": [" + Quoted(c.command) + "],"),
     Keyed("    ", "WorkingDir", ": " + Quoted(c.workingDir) + ","),
     Keyed("    ", "Env", ": [" + Quoted(c.envVars) + "],"),
     Keyed("    ", "ExposedPorts", ": {" + Quoted(c.exposedPorts) + ": {}},"),
     Keyed("    ", "Volumes", ": {" + Quoted(c.volumes) + ": {}}"),
     Bare("  },"),
     Keyed("  ", "layers", ": [")]
  }

  function Layer(layers: seq<string>, i: nat): Nested
    requires i < |layers|
  {
    Keyed("    ", layers[i], if i < |layers| - 1 then "," else "")
  }

  const CLOSING: seq<Nested> := [Bare("  ]"), Bare("}")]

  /** Everything behind the plain fields, in any number of lines. */
  function Behind(c: ImageInfo): seq<Nested> {
    Config(c) + seq(|c.layers|, i requires 0 <= i < |c.layers| => Layer(c.layers, i)) + CLOSING
  }

  function Shown(ns: seq<Nested>): (ls: seq<string>)
    ensures |ls| == |ns| && forall i :: 0 <= i < |ls| ==> ls[i] == ShowNested(ns[i])
  {
    seq(|ns|, i requires 0 <= i < |ns| => ShowNested(ns[i]))
  }

  /** `write_image_metadata`. */
  function WriteText(c: ImageInfo): string {
    RecordText(Fields(c), Shown(Behind(c)))
  }

  const SLOTS: seq<Slot> :=
    [Slot("id", false), Slot("name", false), Slot("tag", false), Slot("created", false), Slot("size", false)]

  const OWN_LINE: seq<nat> := [0, 1, 2, 4, 5]

  function View(c: ImageInfo): seq<Value> {
    [Text(c.id), Text(c.name), Text(c.tag), Text(c.created), Text(c.size)]
  }

  const BLANK: seq<Value> := [Text(""), Text(""), Text(""), Text(""), Text("")]

  /** Quote-free layer ids, newline-free values, lines that fit the reader's buffer. */
  predicate Fits(c: ImageInfo) {
    && Printable(Fields(c), LINE_SIZE)
    && (forall i :: 0 <= i < |c.layers| ==> '"' !in c.layers[i])
    && (forall i :: 0 <= i < |Behind(c)| ==> OneLine(ShowNested(Behind(c)[i]), LINE_SIZE))
  }

  lemma SlotKeys()
    ensures GoodSlots(SLOTS)
  {}

  lemma OwnValue(c: ImageInfo, j: nat)
    requires j < |SLOTS|
    ensures var f := Fields(c)[OWN_LINE[j]];
            f.key == SLOTS[j].key && f.value == View(c)[j] && f.value.Number? == SLOTS[j].numeric
  {}

  lemma OtherFields(c: ImageInfo, i: nat, j: nat)
    requires i < |Fields(c)| && j < |SLOTS| && i != OWN_LINE[j]
    ensures Fields(c)[i].key != SLOTS[j].key
  {}

  lemma ConfigInert(c: ImageInfo, i: nat, j: nat)
    requires i < |Config(c)| && j < |SLOTS|
    ensures Inert(Config(c)[i], SLOTS[j])
  {}

  /** No config line and no layer line can be taken for a field, whatever it holds. */
  lemma BehindInert(c: ImageInfo, i: nat, j: nat)
    requires i < |Behind(c)| && j < |SLOTS| && forall k :: 0 <= k < |c.layers| ==> '"' !in c.layers[k]
    ensures Inert(Behind(c)[i], SLOTS[j])
  {
    var n := |Config(c)|;
    if i < n {
      ConfigInert(c, i, j);
    } else if i < n + |c.layers| {
      assert Behind(c)[i] == Layer(c.layers, i - n);
    } else {
      assert Behind(c)[i] == CLOSING[i - n - |c.layers|];
    }
  }

  lemma OwnLine(c: ImageInfo, j: nat)
    requires j < |SLOTS| && Fits(c)
    ensures OwnedBy(SLOTS, Fields(c), Shown(Behind(c)), j, OWN_LINE[j])
  {
    OwnValue(c, j);
    SlotKeys();
    forall i | 0 <= i < |Fields(c)| && i != OWN_LINE[j]
      ensures Fields(c)[i].key != SLOTS[j].key
    {
      OtherFields(c, i, j);
    }
    forall i | 0 <= i < |Behind(c)|
      ensures !Assigns(SLOTS, Shown(Behind(c))[i] + "\n", j)
    {
      BehindInert(c, i, j);
      InertAssignsNothing(SLOTS, Behind(c)[i], j);
    }
  }

  /** The exact condition of the round trip, for any number of layers. */
  lemma RoundTrip(c: ImageInfo)
    requires Fits(c)
    ensures ReadText(SLOTS, BLANK, WriteText(c), LINE_SIZE) == View(c)
            <==> forall j :: 0 <= j < |SLOTS| ==> ComesBack(SLOTS, View(c)[j], j)
  {
    SlotKeys();
    forall j | 0 <= j < |SLOTS|
      ensures OwnedBy(SLOTS, Fields(c), Shown(Behind(c)), j, OWN_LINE[j])
      ensures View(c)[j] == Fields(c)[OWN_LINE[j]].value
    {
      OwnLine(c, j);
      OwnValue(c, j);
    }
    KeyedLines.RoundTrip(SLOTS, Fields(c), Shown(Behind(c)), OWN_LINE, LINE_SIZE, BLANK, View(c));
  }

  // ----- the reader as it runs -----

  lemma QuotedKeys()
    ensures Quoted(SLOTS[0].key) == "\"id\"" && Quoted(SLOTS[1].key) == "\"name\""
    ensures Quoted(SLOTS[2].key) == "\"tag\"" && Quoted(SLOTS[3].key) == "\"created\""
    ensures Quoted(SLOTS[4].key) == "\"size\""
  {}

  class ImageRecord {
    var id: string
    var name: string
    var tag: string
    var created: string
    var size: string

    function Snapshot(): (r: seq<Value>)
      reads this
      ensures |r| == |SLOTS|
    {
      [Text(id), Text(name), Text(tag), Text(created), Text(size)]
    }

    constructor ()
      ensures Snapshot() == BLANK
    {
      id, name, tag, created, size := "", "", "", "", "";
    }

    /** One turn of the loop: the branch taken and its `sscanf`. */
    method AbsorbLine(line: string)
      modifies this
      ensures Snapshot() == Absorb(SLOTS, old(Snapshot()), line)
    {
      QuotedKeys();
      if Contains(line, "\"id\"") {
        var v := Scan(SLOTS[0], line);
        id := if v.Some? then v.value.text else id;
      } else if Contains(line, "\"name\"") {
        var v := Scan(SLOTS[1], line);
        name := if v.Some? then v.value.text else name;
      } else if Contains(line, "\"tag\"") {
        var v := Scan(SLOTS[2], line);
        tag := if v.Some? then v.value.text else tag;
      } else if Contains(line, "\"created\"") {
        var v := Scan(SLOTS[3], line);
        created := if v.Some? then v.value.text else created;
      } else if Contains(line, "\"size\"") {
        var v := Scan(SLOTS[4], line);
        size := if v.Some? then v.value.text else size;
      }
    }

    /** `read_image_metadata`; the file is missing or has a text. */
    method ReadImageMetadata(file: Option<string>) returns (ok: bool)
      modifies this
      ensures ok <==> file.Some?
      ensures Snapshot() ==
                if file.Some? then ReadText(SLOTS, old(Snapshot()), file.value, LINE_SIZE) else old(Snapshot())
    {
      if file.None? {
        return false;
      }
      var rest := file.value;
      ghost var lines := Lines(file.value, LINE_SIZE);
      ghost var n := 0;
      ghost var start := Snapshot();
      while rest != ""
        invariant n <= |lines| && Lines(rest, LINE_SIZE) == lines[n..]
        invariant Snapshot() == AbsorbAll(SLOTS, start, lines[..n])
        decreases |rest|
      {
        ReadingStep(SLOTS, start, lines, n, rest, LINE_SIZE);
        var taken := FgetsLength(rest, LINE_SIZE);
        AbsorbLine(CString(rest[..taken]));
        rest := rest[taken..];
        n := n + 1;
      }
      assert lines[..n] == lines;
      return true;
    }
  }
}
