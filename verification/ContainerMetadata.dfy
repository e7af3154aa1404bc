/** A container's record, its text in the metadata file, and what reading that text back restores. */
module ContainerMetadata {
  import opened CText
  import opened Ids
  import opened KeyedLines

  const LINE_SIZE: nat := 1024

  const CREATED := 0
  const RUNNING := 1
  const EXITED := 5

  datatype Info = Info(
    id: string, name: string, image: string, imageId: string, command: string, workingDir: string,
    user: string, shell: string, entrypoint: string, cmd: string, envVars: string, portMappings: string,
    volumeMappings: string, networkConfig: string, state: int, pid: int, created: string, started: string,
    finished: string, exitCode: int, logPath: string, rootfsPath: string, configPath: string,
    interactive: int, tty: int, detach: int, restartPolicy: int, memoryLimit: int, cpuLimit: int, pidLimit: int)

  /** A record after `memset(&container, 0, sizeof(container))`. */
  const ZERO_INFO := Info(
    "", "", "", "", "", "", "", "", "", "", "", "", "", "", 0, 0, "", "", "", 0, "", "", "", 0, 0, 0, 0, 0, 0, 0)

  /** The arguments of the `fprintf` calls, one for each line between the braces. */
  function FieldAt(c: Info, i: nat): Field
    requires i < 29
  {
    match i
    case 0 => Field("id", Text(c.id), ",")
    case 1 => Field("name", Text(c.name), ",")
    case 2 => Field("image", Text(c.image), ",")
    case 3 => Field("image_id", Text(c.imageId), ",")
    case 4 => Field("command", Text(c.command), ",")
    case 5 => Field("working_dir", Text(c.workingDir), ",")
    case 6 => Field("user", Text(c.user), ",")
    case 7 => Field("shell", Text(c.shell), ",")
    case 8 => Field("entrypoint", Text(c.entrypoint), ",")
    case 9 => Field("cmd", Text(c.cmd), ",")
    case 10 => Field("env_vars", Text(c.envVars), ",")
    case 11 => Field("port_mappings", Text(c.portMappings), ",")
    case 12 => Field("volume_mappings", Text(c.volumeMappings), ",")
    case 13 => Field("network_config", Text(c.networkConfig), ",")
    case 14 => Field("state", Number(c.state), ",")
    case 15 => Field("pid", Number(c.pid), ",")
    case 16 => Field("created", Text(c.created), ",")
    case 17 => Field("started", Text(c.started), ",")
    case 18 => Field("finished", Text(c.finished), ",")
    case 19 => Field("exit_code", Number(c.exitCode), ",")
    case 20 => Field("log_path", Text(c.logPath), ",")
    case 21 => Field("rootfs_path", Text(c.rootfsPath), ",")
    case 22 => Field("interactive", Number(c.interactive), ",")
    case 23 => Field("tty", Number(c.tty), ",")
    case 24 => Field("detach", Number(c.detach), ",")
    case 25 => Field("restart_policy", Number(c.restartPolicy), ",")
    case 26 => Field("memory_limit", Number(c.memoryLimit), ",")
    case 27 => Field("cpu_limit", Number(c.cpuLimit), ",")
    case _ => Field("pid_limit", Number(c.pidLimit), "")
  }

  function Fields(c: Info): (fs: seq<Field>)
    ensures |fs| == 29 && forall i :: 0 <= i < |fs| ==> fs[i] == FieldAt(c, i)
  {
    seq(29, i requires 0 <= i < 29 => FieldAt(c, i))
  }

  /** `write_container_metadata`. */
  function WriteText(c: Info): string {
    RecordText(Fields(c), ["}"])
  }

  /** The chain of tests in `read_container_metadata`. */
  const SLOTS: seq<Slot> :=
    [Slot("id", false), Slot("name", false), Slot("image", false), Slot("command", false), Slot("state", true),
     Slot("pid", true), Slot("created", false), Slot("started", false), Slot("finished", false),
     Slot("exit_code", true)]

  /** Where each slot's own line is among the fields. */
  const OWN_LINE: seq<nat> := [0, 1, 2, 4, 14, 15, 16, 17, 18, 19]

  /** The ten fields that are read back, in the order of the chain. */
  function View(c: Info): seq<Value> {
    [Text(c.id), Text(c.name), Text(c.image), Text(c.command), Number(c.state),
     Number(c.pid), Text(c.created), Text(c.started), Text(c.finished), Number(c.exitCode)]
  }

  /** A key of the record determines its line; length and two letters are enough. */
  function LineOf(key: string): nat
    requires |key| > 1
  {
    var n, a, b := |key|, key[0], key[1];
    if n == 2 then 0
    else if n == 3 then (if b == 'm' then 9 else if b == 'i' then 15 else 23)
    else if n == 4 then (if b == 'a' then 1 else 6)
    else if n == 5 then (if b == 'm' then 2 else if b == 'h' then 7 else 14)
    else if n == 6 then 24
    else if n == 7 then (if b == 'o' then 4 else if b == 'r' then 16 else 17)
    else if n == 8 then (if b == 'm' then 3 else if b == 'n' then 10 else if b == 'i' then 18 else 20)
    else if n == 9 then (if b == 'x' then 19 else if b == 'p' then 27 else 28)
    else if n == 10 then 8
    else if n == 11 then (if a == 'w' then 5 else if a == 'r' then 21 else 22)
    else if n == 12 then 26
    else if n == 13 then 11
    else if n == 14 then (if a == 'n' then 13 else 25)
    else 12
  }

  lemma KeyLine(c: Info, i: nat)
    requires i < |Fields(c)|
    ensures |Fields(c)[i].key| > 1 && LineOf(Fields(c)[i].key) == i
  {}

  lemma SlotLine(j: nat)
    requires j < |SLOTS|
    ensures |SLOTS[j].key| > 1 && LineOf(SLOTS[j].key) == OWN_LINE[j]
  {}

  lemma SlotKeysPlain(j: nat)
    requires j < |SLOTS|
    ensures '"' !in SLOTS[j].key && SLOTS[j].key != ": " && SLOTS[j].key != ""
  {}

  lemma SlotKeysDistinct()
    ensures GoodSlots(SLOTS)
  {
    forall j | 0 <= j < |SLOTS|
      ensures '"' !in SLOTS[j].key && SLOTS[j].key != ": " && SLOTS[j].key != ""
    {
      SlotKeysPlain(j);
    }
    forall i, j | 0 <= i < j < |SLOTS|
      ensures SLOTS[i].key != SLOTS[j].key
    {
      SlotLine(i);
      SlotLine(j);
    }
  }

  lemma OwnValue(c: Info, j: nat)
    requires j < |SLOTS|
    ensures var f := Fields(c)[OWN_LINE[j]];
            f.key == SLOTS[j].key && f.value == View(c)[j] && f.value.Number? == SLOTS[j].numeric
  {}

  /** Every slot has its own line, and no other line of the record has its keyword. */
  lemma OwnLine(c: Info, j: nat)
    requires j < |SLOTS|
    ensures OwnedBy(SLOTS, Fields(c), ["}"], j, OWN_LINE[j])
  {
    OwnValue(c, j);
    Ownership(SLOTS, Fields(c), j, OWN_LINE[j]) by {
      forall i | 0 <= i < |Fields(c)| && i != OWN_LINE[j]
        ensures Fields(c)[i].key != SLOTS[j].key
      {
        OtherLines(c, i, j);
      }
    }
  }

  lemma Ownership(slots: seq<Slot>, fs: seq<Field>, j: nat, p: nat)
    requires j < |slots| && p < |fs| && fs[p].key == slots[j].key && fs[p].value.Number? == slots[j].numeric
    requires forall i :: 0 <= i < |fs| && i != p ==> fs[i].key != slots[j].key
    ensures OwnedBy(slots, fs, ["}"], j, p)
  {
    NoQuoteAssignsNothing(slots, "}\n", j);
  }

  lemma OtherLines(c: Info, i: nat, j: nat)
    requires i < |Fields(c)| && j < |SLOTS| && i != OWN_LINE[j]
    ensures Fields(c)[i].key != SLOTS[j].key
  {
    KeyLine(c, i);
    SlotLine(j);
  }

  lemma OwnLines(c: Info)
    ensures Owned(SLOTS, Fields(c), ["}"], OWN_LINE)
    ensures forall j :: 0 <= j < |SLOTS| ==> View(c)[j] == Fields(c)[OWN_LINE[j]].value
  {
    forall j | 0 <= j < |SLOTS|
      ensures OwnedBy(SLOTS, Fields(c), ["}"], j, OWN_LINE[j]) && View(c)[j] == Fields(c)[OWN_LINE[j]].value
    {
      OwnLine(c, j);
      OwnValue(c, j);
    }
  }

  predicate Letters(s: string) {
    forall i :: 0 <= i < |s| ==> 'a' <= s[i] <= 'z' || s[i] == '_'
  }

  predicate ShortKey(f: Field) {
    Letters(f.key) && |f.key| <= 15 && (f.end == "," || f.end == "")
  }

  lemma FirstKey(c: Info, i: nat)
    requires i < 5
    ensures ShortKey(FieldAt(c, i))
  {}

  lemma ShellKey(c: Info, i: nat)
    requires 5 <= i < 9
    ensures ShortKey(FieldAt(c, i))
  {}

  lemma CmdKey(c: Info, i: nat)
    requires 9 <= i < 12
    ensures ShortKey(FieldAt(c, i))
  {}

  lemma VolumeKey(c: Info, i: nat)
    requires 12 <= i < 14
    ensures ShortKey(FieldAt(c, i))
  {}

  lemma ReadTailKey(c: Info, i: nat)
    requires 14 <= i < 20
    ensures ShortKey(FieldAt(c, i))
  {}

  lemma UnreadTailKey(c: Info, i: nat)
    requires 20 <= i < 25
    ensures ShortKey(FieldAt(c, i))
  {}

  lemma LastTailKey(c: Info, i: nat)
    requires 25 <= i < 29
    ensures ShortKey(FieldAt(c, i))
  {}

  /** The keys, and what ends their lines. */
  lemma KeyIsPlain(c: Info, i: nat)
    requires i < |Fields(c)|
    ensures var f := Fields(c)[i]; PlainKey(f) && |f.key| <= 15 && (f.end == "," || f.end == "")
  {
    if i < 5 {
      FirstKey(c, i);
    } else if i < 9 {
      ShellKey(c, i);
    } else if i < 12 {
      CmdKey(c, i);
    } else if i < 14 {
      VolumeKey(c, i);
    } else if i < 20 {
      ReadTailKey(c, i);
    } else if i < 25 {
      UnreadTailKey(c, i);
    } else {
      LastTailKey(c, i);
    }
  }

  /** The reader gets every printed line whole: no value has a newline, and none is too long for the buffer. */
  predicate Fits(c: Info) {
    forall i :: 0 <= i < |Fields(c)| ==> OneLine(Print(Fields(c)[i]), LINE_SIZE)
  }

  lemma FitsIsPrintable(c: Info)
    requires Fits(c)
    ensures Printable(Fields(c), LINE_SIZE)
  {
    forall i | 0 <= i < |Fields(c)|
      ensures PlainKey(Fields(c)[i])
    {
      KeyIsPlain(c, i);
    }
  }

  /**
   What reading a written record leaves in field `j` of any record: the value
   up to its first quote, unless that is empty or the value holds an earlier
   keyword. No other line, whatever its value, can change the field.
   */
  lemma ReadWritten(c: Info, r: seq<Value>, j: nat)
    requires Fits(c) && |r| == |SLOTS| && j < |SLOTS|
    ensures ReadText(SLOTS, r, WriteText(c), LINE_SIZE)[j]
            == if Taken(View(c)[j]).None? || Masked(SLOTS, View(c)[j], j) then r[j] else Taken(View(c)[j]).value
  {
    SlotKeysDistinct();
    FitsIsPrintable(c);
    OwnLine(c, j);
    OwnValue(c, j);
    RecordRead(SLOTS, Fields(c), ["}"], LINE_SIZE, r, j, OWN_LINE[j]);
  }

  /** The exact condition of the round trip: no value read has a quote or is a keyword tested before its own. */
  lemma RoundTrip(c: Info)
    requires Fits(c)
    ensures ReadText(SLOTS, View(ZERO_INFO), WriteText(c), LINE_SIZE) == View(c)
            <==> forall j :: 0 <= j < |SLOTS| ==> ComesBack(SLOTS, View(c)[j], j)
  {
    SlotKeysDistinct();
    FitsIsPrintable(c);
    OwnLines(c);
    KeyedLines.RoundTrip(SLOTS, Fields(c), ["}"], OWN_LINE, LINE_SIZE, View(ZERO_INFO), View(c));
  }

  lemma IdIsLostAsName()
    ensures Captured(SLOTS, Text("id"), 1)
  {
    assert SLOTS[0].key == "id";
  }

  lemma NameSlot(c: Info)
    ensures View(c)[1] == Text(c.name)
  {}

  /** A container named `id` comes back without its name. */
  lemma NameIdIsLost(c: Info, r: seq<Value>)
    requires Fits(c) && c.name == "id" && |r| == |SLOTS|
    ensures ReadText(SLOTS, r, WriteText(c), LINE_SIZE)[1] == r[1]
  {
    var j := 1;
    NameSlot(c);
    IdIsLostAsName();
    SlotKeysDistinct();
    MaskedWithoutQuotes(SLOTS, Text(c.name), j);
    ReadWritten(c, r, j);
  }

  /** No time is a keyword, so times survive whatever the other fields are. */
  lemma TimesAreKept(n: int, j: int)
    ensures !Captured(SLOTS, Text(Dec(n)), j)
  {
    forall i | 0 <= i < |SLOTS|
      ensures SLOTS[i].key != Dec(n)
    {
      assert Dec(n)[0] in Dec(n);
      assert 'a' <= SLOTS[i].key[0] <= 'z';
    }
  }

  // ----- what survives in every record -----

  /** A record with these values in the fields that reading restores. */
  function WithView(c: Info, u: seq<Value>): (d: Info)
    requires Typed(SLOTS, u)
    ensures View(d) == u
  {
    c.(id := u[0].text, name := u[1].text, image := u[2].text, command := u[3].text, state := u[4].n, pid := u[5].n,
       created := u[6].text, started := u[7].text, finished := u[8].text, exitCode := u[9].n)
  }

  /** The ten fields after `read_container_metadata`, from a zeroed record. */
  function ReadFields(text: string): (u: seq<Value>)
    ensures Readable(SLOTS, u)
  {
    ZeroReadable();
    ReadsReadable(SLOTS, View(ZERO_INFO), Lines(text, LINE_SIZE));
    ReadText(SLOTS, View(ZERO_INFO), text, LINE_SIZE)
  }

  lemma ZeroReadable()
    ensures Readable(SLOTS, View(ZERO_INFO))
  {}

  /**
   A stored record as the daemon gets it back: the reader's result on the
   written text. The fields that it does not restore are taken to survive.
   */
  function ReadBack(c: Info): Info {
    WithView(c, ReadFields(WriteText(c)))
  }

  /** What the reader leaves in a zeroed record, put back into the stored one. */
  lemma ReadIntoBlank(c: Info, text: string, u: seq<Value>)
    requires text == WriteText(c) && u == ReadText(SLOTS, View(ZERO_INFO), text, LINE_SIZE)
    ensures Typed(SLOTS, u) && WithView(c, u) == ReadBack(c)
  {
    assert u == ReadFields(text);
  }

  ghost predicate IsTime(s: string) {
    exists t: Time :: s == Dec(t)
  }

  /**
   Machine-size numbers, times, and no quote in the texts printed behind the
   state. Nothing is asked of name, image, command and the other texts that a
   request supplies: they may hold quotes, newlines and forged fields.
   */
  ghost predicate Tidy(c: Info) {
    && IsInt32(c.state) && IsInt32(c.pid) && IsInt32(c.exitCode)
    && IsTime(c.created) && (c.started == "" || IsTime(c.started)) && (c.state == RUNNING ==> c.started != "")
    && '"' !in c.finished && '"' !in c.logPath && '"' !in c.rootfsPath
  }

  lemma TimeText(s: string)
    requires IsTime(s)
    ensures s != "" && Plain(s) && |s| <= 19
    ensures forall j :: !Captured(SLOTS, Text(s), j)
  {
    var t: Time :| s == Dec(t);
    DecShort(t);
    forall j
      ensures !Captured(SLOTS, Text(s), j)
    {
      TimesAreKept(t, j);
    }
  }

  lemma TailQuoteFree(c: Info, i: nat)
    requires Tidy(c) && 14 <= i < |Fields(c)|
    ensures QuoteFreeField(Fields(c)[i])
  {
    KeyIsPlain(c, i);
    TailValue(c, i);
  }

  lemma TailValue(c: Info, i: nat)
    requires Tidy(c) && 14 <= i < |Fields(c)|
    ensures QuoteFree(Fields(c)[i].value)
  {
    if c.started != "" {
      TimeText(c.started);
    }
    TimeText(c.created);
  }

  /** The lines behind field `p` are never taken for slot `j`. */
  lemma TailIsSilent(c: Info, j: nat, i: nat)
    requires Tidy(c) && 4 <= j < |SLOTS| && 1 + OWN_LINE[j] < i <= 1 + |Fields(c)|
    ensures Silent(SLOTS, RecordLine(Fields(c), ["}"], i), j, LINE_SIZE)
  {
    SlotKeysDistinct();
    if i <= |Fields(c)| {
      TailQuoteFree(c, i - 1);
      OtherLines(c, i - 1, j);
      FieldIsSilent(SLOTS, Fields(c)[i - 1], j, LINE_SIZE);
    } else {
      NoQuoteIsSilent(SLOTS, "}", j, LINE_SIZE);
    }
  }

  /** A number or a time, as short as machine words make it. */
  ghost predicate Restorable(v: Value) {
    match v case Number(n) => IsInt32(n) case Text(s) => IsTime(s)
  }

  lemma OwnFieldFits(c: Info, j: nat)
    requires 4 <= j < |SLOTS| && Restorable(View(c)[j])
    ensures var f := Fields(c)[OWN_LINE[j]]; PlainField(f) && OneLine(Print(f), LINE_SIZE)
    ensures View(c)[j] != Text("") && !Captured(SLOTS, View(c)[j], j)
  {
    OwnValue(c, j);
    KeyIsPlain(c, OWN_LINE[j]);
    match View(c)[j] {
      case Number(n) => DecShort(n);
      case Text(s) => TimeText(s);
    }
    PrintedOneLine(Fields(c)[OWN_LINE[j]], LINE_SIZE);
  }

  /** State, pid, exit code and every time that is set are printed last, so they are read back from every record. */
  lemma SurvivesReading(c: Info, r: seq<Value>, j: nat)
    requires Tidy(c) && |r| == |SLOTS| && 4 <= j < |SLOTS| && Restorable(View(c)[j])
    ensures ReadText(SLOTS, r, WriteText(c), LINE_SIZE)[j] == View(c)[j]
  {
    SlotKeysDistinct();
    OwnValue(c, j);
    OwnFieldFits(c, j);
    forall i | 1 + OWN_LINE[j] < i <= |Fields(c)| + 1
      ensures Silent(SLOTS, RecordLine(Fields(c), ["}"], i), j, LINE_SIZE)
    {
      TailIsSilent(c, j, i);
    }
    LastFieldDecides(SLOTS, r, Fields(c), ["}"], j, OWN_LINE[j], LINE_SIZE);
  }

  /** What a read record has from every stored one: an unset time may come back set, see `ForgedStartIsRead`. */
  ghost predicate ReadsAs(c: Info, d: Info) {
    && d.state == c.state && d.pid == c.pid && d.exitCode == c.exitCode && d.created == c.created
    && (c.started != "" ==> d.started == c.started) && (IsTime(c.finished) ==> d.finished == c.finished)
    && d.detach == c.detach && d.logPath == c.logPath && d.rootfsPath == c.rootfsPath && '"' !in d.finished
  }

  lemma ReadBackReadsAs(c: Info)
    requires Tidy(c)
    ensures ReadsAs(c, ReadBack(c))
  {
    var u := ReadFields(WriteText(c));
    forall j | 4 <= j < |SLOTS| && Restorable(View(c)[j])
      ensures u[j] == View(c)[j]
    {
      SurvivesReading(c, View(ZERO_INFO), j);
    }
    Restored(c, u);
  }

  lemma Restored(c: Info, u: seq<Value>)
    requires Tidy(c) && Typed(SLOTS, u) && QuoteFree(u[8])
    requires forall j :: 4 <= j < |SLOTS| && Restorable(View(c)[j]) ==> u[j] == View(c)[j]
    ensures ReadsAs(c, WithView(c, u))
  {
    var v := View(c);
    assert Restorable(v[4]) && Restorable(v[5]) && Restorable(v[6]) && Restorable(v[9]);
    assert c.started != "" ==> Restorable(v[7]);
    assert IsTime(c.finished) ==> Restorable(v[8]);
  }

  /**
   A record printed on lines that the reader gets whole comes back unchanged, if
   and only if none of the ten values has a quote or is a keyword tested before
   its own. The other fields may hold anything.
   */
  lemma WholeRecordReadsBack(c: Info)
    requires Fits(c)
    ensures ReadBack(c) == c
            <==> forall j :: 0 <= j < |SLOTS| ==> ComesBack(SLOTS, View(c)[j], j)
  {
    RoundTrip(c);
    SameView(c, ReadFields(WriteText(c)));
  }

  lemma SameView(c: Info, u: seq<Value>)
    requires Typed(SLOTS, u)
    ensures WithView(c, u) == c <==> u == View(c)
  {
    assert u == [u[0], u[1], u[2], u[3], u[4], u[5], u[6], u[7], u[8], u[9]];
  }

  lemma FieldsAreLineTexts(text: string)
    ensures forall j :: 0 <= j < |SLOTS| ==> LineText(ReadFields(text)[j], LINE_SIZE)
  {
    LinesAreFileLines(text, LINE_SIZE);
    ReadsLineTexts(SLOTS, View(ZERO_INFO), Lines(text, LINE_SIZE), LINE_SIZE);
  }

  lemma ReadBackView(c: Info)
    ensures View(ReadBack(c)) == ReadFields(WriteText(c))
  {}

  /** Whatever a record holds, only quote-free texts that stand on one line of the buffer are read. */
  lemma ReadsOnlyLineTexts(c: Info)
    ensures forall j :: 0 <= j < |SLOTS| ==>
              QuoteFree(View(ReadBack(c))[j]) && LineText(View(ReadBack(c))[j], LINE_SIZE)
  {
    ReadBackView(c);
    FieldsAreLineTexts(WriteText(c));
  }

  // ----- times that are not set -----

  /** No line that the reader gets is taken for slot `j`. */
  predicate Unassigned(c: Info, j: int) {
    var lines := Lines(WriteText(c), LINE_SIZE);
    forall i :: 0 <= i < |lines| ==> !Assigns(SLOTS, lines[i], j)
  }

  /** A read time is unset if and only if no line is taken for it. */
  lemma UnsetExactly(c: Info)
    ensures ReadBack(c).started == "" <==> Unassigned(c, 7)
    ensures ReadBack(c).finished == "" <==> Unassigned(c, 8)
  {
    var lines := Lines(WriteText(c), LINE_SIZE);
    BlankExactly(SLOTS, View(ZERO_INFO), lines, 7);
    BlankExactly(SLOTS, View(ZERO_INFO), lines, 8);
  }

  /** On lines that the reader gets whole, no value of another field is taken for a time. */
  lemma UnsetStaysUnset(c: Info)
    requires Fits(c)
    ensures c.started == "" ==> ReadBack(c).started == ""
    ensures c.finished == "" ==> ReadBack(c).finished == ""
  {
    ReadWritten(c, View(ZERO_INFO), 7);
    ReadWritten(c, View(ZERO_INFO), 8);
  }

  /** No quote in any value printed behind field `q` and before the state. */
  predicate QuoteFreeBehind(c: Info, q: nat) {
    forall i :: q < i < 14 ==> QuoteFree(FieldAt(c, i).value)
  }

  lemma BehindIsSilent(c: Info, q: nat, i: nat)
    requires Tidy(c) && c.started == "" && QuoteFreeBehind(c, q) && 1 + q < i <= 1 + |Fields(c)|
    ensures Silent(SLOTS, RecordLine(Fields(c), ["}"], i), 7, LINE_SIZE)
  {
    SlotKeysDistinct();
    if i <= |Fields(c)| {
      var f := Fields(c)[i - 1];
      KeyIsPlain(c, i - 1);
      if i - 1 == OWN_LINE[7] {
        OwnValue(c, 7);
        PrintedOneLine(f, LINE_SIZE);
        EmptyFieldIsSilent(SLOTS, f, 7, LINE_SIZE);
      } else {
        OtherLines(c, i - 1, 7);
        if 14 <= i - 1 {
          TailQuoteFree(c, i - 1);
        }
        FieldIsSilent(SLOTS, f, 7, LINE_SIZE);
      }
    } else {
      NoQuoteIsSilent(SLOTS, "}", 7, LINE_SIZE);
    }
  }

  /** A request text with a newline and a start time behind it sets the start of a container that never ran. */
  lemma ForgedStartIsRead(c: Info, q: nat, t: string)
    requires Tidy(c) && c.started == "" && IsTime(t)
    requires q < 14 && FieldAt(c, q).value == Text(Forged("started", t)) && QuoteFreeBehind(c, q)
    ensures ReadBack(c).started == t
  {
    var j, f := 7, Fields(c)[q];
    SlotKeysDistinct();
    KeyIsPlain(c, q);
    FieldEnd(c, q);
    OwnValue(c, j);
    ForgedLineFits(c, t);
    forall i | 1 + q < i <= |Fields(c)| + 1
      ensures Silent(SLOTS, RecordLine(Fields(c), ["}"], i), j, LINE_SIZE)
    {
      BehindIsSilent(c, q, i);
    }
    ForgedFieldIsRead(SLOTS, View(ZERO_INFO), Fields(c), ["}"], j, q, t, LINE_SIZE);
  }

  lemma CommandOpening(c: Info)
    ensures FieldAt(c, 4) == Field(FieldAt(c, 4).key, Text(c.command), ",")
    ensures var a := Opening(FieldAt(c, 4).key); |a| == 14 && '\n' !in a && '\0' !in a
  {}

  /** So does a command without any newline, if its start time stands where the buffer splits the line. */
  lemma SplitStartIsRead(c: Info, pad: string, t: string)
    requires Tidy(c) && c.started == "" && IsTime(t)
    requires |pad| == 1009 && '\n' !in pad && '\0' !in pad && c.command == pad + Bared("started", t)
    requires QuoteFreeBehind(c, 4)
    ensures ReadBack(c).started == t
  {
    var j, q := 7, 4;
    SlotKeysDistinct();
    CommandOpening(c);
    OwnValue(c, j);
    ForgedLineFits(c, t);
    forall i | 1 + q < i <= |Fields(c)| + 1
      ensures Silent(SLOTS, RecordLine(Fields(c), ["}"], i), j, LINE_SIZE)
    {
      BehindIsSilent(c, q, i);
    }
    SplitFieldIsRead(SLOTS, View(ZERO_INFO), Fields(c), ["}"], j, q, pad, t, LINE_SIZE);
  }

  lemma FieldEnd(c: Info, i: nat)
    requires i < 28
    ensures FieldAt(c, i).end == ","
  {}

  lemma ForgedLineFits(c: Info, t: string)
    requires IsTime(t)
    ensures var g := Field(SLOTS[7].key, Text(t), ","); PlainField(g) && OneLine(Print(g), LINE_SIZE)
    ensures t != "" && !Captured(SLOTS, Text(t), 7)
  {
    var g := Field(SLOTS[7].key, Text(t), ",");
    OwnValue(c, 7);
    KeyIsPlain(c, OWN_LINE[7]);
    TimeText(t);
    PrintedOneLine(g, LINE_SIZE);
  }
}
