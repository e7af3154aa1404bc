/**
 Start and finish times that are not set: a request text with a newline in it
 can set them, and texts on one line, over whole runs, cannot.
 */
module StoredTimes {
  import opened CText
  import opened ContainerMetadata
  import opened Ids
  import opened KeyedLines
  import opened Lifecycle

  // ----- a forged start time -----

  predicate QuoteFreeTexts(a: CreateArgs) {
    && '"' !in a.image && '"' !in OrElse(a.command, "") && '"' !in OrElse(a.workingDir, "/")
    && '"' !in OrElse(a.envVars, "") && '"' !in OrElse(a.portMappings, "") && '"' !in OrElse(a.volumeMappings, "")
  }

  lemma NewIsQuoteFreeBehindName(a: CreateArgs, idTime: Time, now: Time)
    requires QuoteFreeTexts(a)
    ensures QuoteFreeBehind(NewRecord(a, idTime, now), 1)
  {
    var c := NewRecord(a, idTime, now);
    assert '"' !in c.image && '"' !in c.command && '"' !in c.workingDir;
    assert '"' !in c.envVars && '"' !in c.portMappings && '"' !in c.volumeMappings;
  }

  /** The daemon takes such a name, stores no start time, and reads the forged one. */
  lemma CreateTakesForgedStart(a: CreateArgs, idTime: Time, now: Time, t: Time)
    requires a.name == Some(Forged("started", Dec(t))) && QuoteFreeTexts(a)
    ensures var (s, ok) := Step(INITIAL, Create(a, idTime, now, true));
            var id := ContainerId(idTime);
            && ok && id in s.records && s.records[id].started == ""
            && ReadBack(s.records[id]).started == Dec(t)
  {
    var c := NewRecord(a, idTime, now);
    NewIsTidy(a, idTime, now);
    NewIsQuoteFreeBehindName(a, idTime, now);
    DecShort(t);
    ForgedLength("started", Dec(t));
    assert IsTime(Dec(t)) && FieldAt(c, 1).value == Text(Forged("started", Dec(t)));
    ForgedStartIsRead(c, 1, Dec(t));
  }

  /** A command without a newline does it as well, if it is long enough. */
  lemma CreateTakesSplitStart(a: CreateArgs, idTime: Time, now: Time, pad: string, t: Time)
    requires |pad| == 1009 && '\n' !in pad && '\0' !in pad && t < 10
    requires a.command == Some(pad + Bared("started", Dec(t)))
    requires QuoteFreeTexts(a.(command := None))
    ensures var (s, ok) := Step(INITIAL, Create(a, idTime, now, true));
            var id := ContainerId(idTime);
            && ok && id in s.records && s.records[id].started == ""
            && ReadBack(s.records[id]).started == Dec(t)
  {
    var c := NewRecord(a, idTime, now);
    NewIsTidy(a, idTime, now);
    BaredLength("started", Dec(t));
    assert |Dec(t)| == 1 && IsTime(Dec(t));
    assert '"' !in c.workingDir && '"' !in c.envVars && '"' !in c.portMappings && '"' !in c.volumeMappings;
    SplitStartIsRead(c, pad, Dec(t));
  }

  lemma BaredLength(key: string, t: string)
    ensures |Bared(key, t)| == |key| + |t| + 5
  {}

  lemma ForgedLength(key: string, t: string)
    ensures |Forged(key, t)| == |key| + |t| + 8
  {}

  // ----- texts on one line -----

  const SHORT: nat := 1000

  /** A text on one short line, or a number of machine size. */
  predicate Short(v: Value) {
    match v case Text(s) => OneLine(s, SHORT) case Number(n) => IsInt32(n)
  }

  predicate ShortFields(c: Info) {
    forall i :: 0 <= i < 29 ==> Short(FieldAt(c, i).value)
  }

  predicate NewlineFree(s: string) {
    '\n' !in s && '\0' !in s
  }

  /** Newline-free request texts, and a command that is not too long for a line of the buffer. */
  predicate OneLineArgs(a: CreateArgs) {
    && NewlineFree(OrElse(a.name, "")) && NewlineFree(a.image) && OneLine(OrElse(a.command, ""), SHORT)
    && NewlineFree(OrElse(a.workingDir, "/")) && NewlineFree(OrElse(a.envVars, ""))
    && NewlineFree(OrElse(a.portMappings, "")) && NewlineFree(OrElse(a.volumeMappings, ""))
  }

  lemma ShortFits(c: Info)
    requires ShortFields(c)
    ensures Fits(c)
  {
    forall i | 0 <= i < |Fields(c)|
      ensures OneLine(Print(Fields(c)[i]), LINE_SIZE)
    {
      var f := Fields(c)[i];
      KeyIsPlain(c, i);
      assert Short(FieldAt(c, i).value);
      if f.value.Number? {
        DecShort(f.value.n);
      }
      PrintedOneLine(f, LINE_SIZE);
    }
  }

  lemma CutOneLine(s: string, n: nat)
    requires NewlineFree(s) && (n < 999 || |s| < 999)
    ensures OneLine(Cut(s, n), SHORT)
  {}

  lemma TimeIsShort(t: Time)
    ensures Short(Text(Dec(t)))
  {
    DecShort(t);
  }

  lemma NewIsShort(a: CreateArgs, idTime: Time, now: Time)
    requires OneLineArgs(a)
    ensures ShortFields(NewRecord(a, idTime, now))
  {
    var id := ContainerId(idTime);
    assert OneLine(id, SHORT);
    CutOneLine(OrElse(a.name, id), 255);
    CutOneLine(a.image, 255);
    CutOneLine(OrElse(a.command, ""), 1023);
    CutOneLine(OrElse(a.workingDir, "/"), 511);
    CutOneLine(OrElse(a.envVars, ""), 511);
    CutOneLine(OrElse(a.portMappings, ""), 63);
    CutOneLine(OrElse(a.volumeMappings, ""), 255);
    TimeIsShort(now);
    PathsAreShort(id);
  }

  lemma PathsAreShort(id: string)
    requires |id| == 21 && '\n' !in id && '\0' !in id
    ensures OneLine("/tmp/docker-containers/" + id + "/rootfs", SHORT)
    ensures OneLine("/tmp/docker-logs/" + id + ".log", SHORT)
  {}

  lemma ShortTaken(v: Value)
    requires Short(v) && Taken(v).Some?
    ensures Short(Taken(v).value)
  {}

  lemma WithViewShort(c: Info, u: seq<Value>)
    requires ShortFields(c) && Typed(SLOTS, u) && forall j :: 0 <= j < |SLOTS| ==> Short(u[j])
    ensures ShortFields(WithView(c, u))
  {
    forall i | 0 <= i < 29
      ensures Short(FieldAt(WithView(c, u), i).value)
    {
      assert Short(FieldAt(c, i).value);
      FieldOfView(c, u, i);
    }
  }

  lemma FieldOfView(c: Info, u: seq<Value>, i: nat)
    requires Typed(SLOTS, u) && i < 29
    ensures var v := FieldAt(WithView(c, u), i).value; v == FieldAt(c, i).value || v in u
  {}

  /** Texts on one line stay so when a record is read. */
  lemma ReadBackShort(c: Info)
    requires ShortFields(c)
    ensures ShortFields(ReadBack(c))
  {
    var u := ReadFields(WriteText(c));
    ShortFits(c);
    forall j | 0 <= j < |SLOTS|
      ensures Short(u[j])
    {
      ReadWritten(c, View(ZERO_INFO), j);
      ShortView(c, j);
      if Taken(View(c)[j]).Some? {
        ShortTaken(View(c)[j]);
      }
    }
    WithViewShort(c, u);
  }

  lemma ShortView(c: Info, j: nat)
    requires ShortFields(c) && j < |SLOTS|
    ensures Short(View(c)[j]) && Short(View(ZERO_INFO)[j])
  {
    OwnValue(c, j);
    assert Short(FieldAt(c, OWN_LINE[j]).value);
  }

  // ----- whole runs -----

  /** Short one-line values, and a finish time that is unset or a time. */
  ghost predicate Unforged(c: Info) {
    ShortFields(c) && (c.finished == "" || IsTime(c.finished))
  }

  lemma UnforgedReadBack(c: Info)
    requires Tidy(c) && Unforged(c)
    ensures Unforged(ReadBack(c)) && ReadBack(c).started == c.started && ReadBack(c).finished == c.finished
  {
    ReadBackShort(c);
    ShortFits(c);
    UnsetStaysUnset(c);
    ReadBackReadsAs(c);
  }

  lemma StartedUnforged(c: Info, pid: Int32, now: Time)
    requires Unforged(c)
    ensures Unforged(Started(c, pid, now))
  {
    var d := Started(c, pid, now);
    TimeIsShort(now);
    forall i | 0 <= i < 29
      ensures Short(FieldAt(d, i).value)
    {
      assert Short(FieldAt(c, i).value);
    }
  }

  lemma ExitedUnforged(c: Info, status: Int32, now: Time)
    requires Unforged(c)
    ensures Unforged(Exited(c, status, now))
  {
    var d := Exited(c, status, now);
    TimeIsShort(now);
    assert IsTime(Dec(now));
    forall i | 0 <= i < 29
      ensures Short(FieldAt(d, i).value)
    {
      assert Short(FieldAt(c, i).value);
    }
  }

  ghost predicate UnforgedRecords(records: map<string, Info>) {
    forall id :: id in records ==> Unforged(records[id])
  }

  ghost predicate UnforgedWaiters(waiters: map<nat, Waiter>) {
    forall t :: t in waiters ==> Unforged(waiters[t].info)
  }

  ghost predicate AllUnforged(s: State) {
    UnforgedRecords(s.records) && UnforgedWaiters(s.waiters)
  }

  lemma PutUnforged(records: map<string, Info>, id: string, c: Info)
    requires UnforgedRecords(records) && Unforged(c)
    ensures UnforgedRecords(records[id := c])
  {}

  lemma WaitUnforged(waiters: map<nat, Waiter>, ticket: nat, w: Waiter)
    requires UnforgedWaiters(waiters) && Unforged(w.info)
    ensures UnforgedWaiters(waiters[ticket := w])
  {}

  lemma BeginKeepsUnforged(s: State, op: Op, d: Info)
    requires op.Begin? && AllUnforged(s) && Unforged(d)
    ensures AllUnforged(BeginFrom(s, op, d).0)
  {
    if op.clone.Some? {
      var e := Started(d, op.clone.value, op.now);
      StartedUnforged(d, op.clone.value, op.now);
      PutUnforged(s.records, op.id, e);
      WaitUnforged(s.waiters, op.ticket, Waiter(op.id, e));
    }
  }

  lemma StopKeepsUnforged(s: State, op: Op, d: Info)
    requires op.Stop? && AllUnforged(s) && Unforged(d)
    ensures AllUnforged(StopFrom(s, op, d).0)
  {
    ExitedUnforged(d, op.status, op.now);
    PutUnforged(s.records, op.id, Exited(d, op.status, op.now));
  }

  lemma EndKeepsUnforged(s: State, op: Op)
    requires op.End? && AllUnforged(s)
    ensures AllUnforged(StepEnd(s, op).0)
  {
    if op.ticket in s.waiters {
      var w := s.waiters[op.ticket];
      ExitedUnforged(w.info, op.status, op.now);
      PutUnforged(s.records, w.id, Exited(w.info, op.status, op.now));
    }
  }

  lemma CreateKeepsUnforged(s: State, op: Op)
    requires op.Create? && AllUnforged(s) && OneLineArgs(op.args)
    ensures AllUnforged(StepCreate(s, op).0)
  {
    var c := NewRecord(op.args, op.idTime, op.now);
    NewIsShort(op.args, op.idTime, op.now);
    PutUnforged(s.records, c.id, c);
  }

  lemma StepKeepsUnforged(s: State, op: Op)
    requires AllTidy(s) && AllUnforged(s) && (op.Create? ==> OneLineArgs(op.args))
    ensures AllUnforged(Step(s, op).0)
  {
    match op {
      case Create(_, _, _, _) => CreateKeepsUnforged(s, op);
      case Begin(id, _, _, _, _) =>
        if id in s.records {
          UnforgedReadBack(s.records[id]);
          BeginKeepsUnforged(s, op, ReadBack(s.records[id]));
        }
      case End(_, _, _, _, _) => EndKeepsUnforged(s, op);
      case Stop(id, _, _, _, _, _) =>
        if id in s.records {
          UnforgedReadBack(s.records[id]);
          StopKeepsUnforged(s, op, ReadBack(s.records[id]));
        }
      case Remove(_, _, _, _, _) =>
    }
  }

  /** The creates of a run bring in texts on one line only. */
  predicate OneLineRun(ops: seq<Op>) {
    forall i :: 0 <= i < |ops| && ops[i].Create? ==> OneLineArgs(ops[i].args)
  }

  lemma {:induction false} RunKeepsUnforged(s: State, ops: seq<Op>)
    requires AllTidy(s) && AllUnforged(s) && OneLineRun(ops)
    ensures AllUnforged(Run(s, ops))
    decreases |ops|
  {
    if ops == [] {
    } else {
      StepKeepsTidy(s, ops[0]);
      StepKeepsUnforged(s, ops[0]);
      RunKeepsUnforged(Step(s, ops[0]).0, ops[1..]);
    }
  }

  /**
   After any run whose creates bring in texts on one line, with or without
   quotes, both times of every record are read exactly as they are stored, set
   or not.
   */
  lemma TimesReadAsStored(ops: seq<Op>, id: string)
    requires OneLineRun(ops) && id in Run(INITIAL, ops).records
    ensures var c := Run(INITIAL, ops).records[id];
            ReadsAs(c, ReadBack(c)) && ReadBack(c).started == c.started && ReadBack(c).finished == c.finished
  {
    RunKeepsTidy(INITIAL, ops);
    RunKeepsUnforged(INITIAL, ops);
    ReadBackReadsAs(Run(INITIAL, ops).records[id]);
    UnforgedReadBack(Run(INITIAL, ops).records[id]);
  }
}
