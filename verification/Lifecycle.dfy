/**
 Containers over time: create, start, stop and remove as steps over the stored
 records and the daemon's child processes. A start that waits for its child is
 two steps, so that other requests may come in between. A step that reads a
 record works on what `ContainerMetadata.ReadBack` makes of its text, for any
 names, commands and other texts; paths are those of the id.
 */
module Lifecycle {
  import opened CText
  import opened ContainerMetadata
  import opened Ids

  /** A process made by `clone`: how often it was waited for, and whether start gave it up. */
  datatype Child = Child(pid: int, waits: nat, killed: bool)

  /** A start that has written its RUNNING record and now waits for the child. */
  datatype Waiter = Waiter(id: string, info: Info)

  datatype State = State(records: map<string, Info>, children: seq<Child>, waiters: map<nat, Waiter>)

  const INITIAL := State(map[], [], map[])

  datatype CreateArgs = CreateArgs(
    name: Option<string>, image: string, command: Option<string>, workingDir: Option<string>,
    envVars: Option<string>, portMappings: Option<string>, volumeMappings: Option<string>,
    interactive: Int32, tty: Int32, detach: Int32)

  /** Steps, with what the clock, the kernel and the file system answer. */
  datatype Op =
    | Create(args: CreateArgs, idTime: Time, now: Time, ok: bool)
    | Begin(id: string, ticket: nat, now: Time, clone: Option<Int32>, writeOk: bool)
    | End(ticket: nat, now: Time, waitOk: bool, status: Int32, writeOk: bool)
    | Stop(id: string, now: Time, killOk: bool, waitOk: bool, status: Int32, writeOk: bool)
    | Remove(id: string, now: Time, dirOk: bool, unlinkOk: bool, logOk: bool)

  function OrElse(o: Option<string>, s: string): string {
    match o case None => s case Some(v) => v
  }

  function NewRecord(a: CreateArgs, idTime: nat, now: nat): Info {
    var id := ContainerId(idTime);
    ZERO_INFO.(
      id := id, name := Cut(OrElse(a.name, id), 255), image := Cut(a.image, 255),
      command := Cut(OrElse(a.command, ""), 1023), workingDir := Cut(OrElse(a.workingDir, "/"), 511),
      envVars := Cut(OrElse(a.envVars, ""), 511), portMappings := Cut(OrElse(a.portMappings, ""), 63),
      volumeMappings := Cut(OrElse(a.volumeMappings, ""), 255), state := CREATED, created := Dec(now),
      rootfsPath := "/tmp/docker-containers/" + id + "/rootfs", logPath := "/tmp/docker-logs/" + id + ".log",
      configPath := "/tmp/docker-container-metadata/" + id + ".json",
      interactive := a.interactive, tty := a.tty, detach := a.detach)
  }

  /** A child with this pid that nobody has waited for. */
  predicate Unreaped(children: seq<Child>, pid: int) {
    exists i :: 0 <= i < |children| && children[i].pid == pid && children[i].waits == 0
  }

  /** `waitpid` on a pid: its unreaped child is reaped. */
  function Reap(children: seq<Child>, pid: int): (r: seq<Child>)
    ensures |r| == |children|
    ensures forall i :: 0 <= i < |r| ==> r[i] == ReapOne(children[i], pid)
  {
    seq(|children|, i requires 0 <= i < |children| => ReapOne(children[i], pid))
  }

  function ReapOne(c: Child, pid: int): Child {
    if c.pid == pid && c.waits == 0 then c.(waits := 1) else c
  }

  function Exited(c: Info, status: int, now: nat): Info {
    c.(state := EXITED, exitCode := status, finished := Dec(now))
  }

  function Started(c: Info, pid: int, now: nat): Info {
    c.(pid := pid, state := RUNNING, started := Dec(now))
  }

  function StepCreate(s: State, op: Op): (State, bool)
    requires op.Create?
  {
    if !op.ok then (s, false)
    else
      var c := NewRecord(op.args, op.idTime, op.now);
      (s.(records := s.records[c.id := c]), true)
  }

  /** `start_container` up to the point where it returns or waits, once the record is read. */
  function BeginFrom(s: State, op: Op, c: Info): (State, bool)
    requires op.Begin?
  {
    if c.state == RUNNING || op.clone.None? then (s, false)
    else
      var pid := op.clone.value;
      var d := Started(c, pid, op.now);
      if !op.writeOk then (s.(children := s.children + [Child(pid, 0, true)]), false)
      else
        var t := s.(records := s.records[op.id := d], children := s.children + [Child(pid, 0, false)]);
        (if d.detach != 0 then t else t.(waiters := t.waiters[op.ticket := Waiter(op.id, d)]), true)
  }

  function StepBegin(s: State, op: Op): (State, bool)
    requires op.Begin?
  {
    if op.id !in s.records then (s, false) else BeginFrom(s, op, ReadBack(s.records[op.id]))
  }

  /** The rest of a waiting start. The result of `waitpid` is not looked at. */
  function StepEnd(s: State, op: Op): (State, bool)
    requires op.End?
  {
    if op.ticket !in s.waiters then (s, false)
    else
      var w := s.waiters[op.ticket];
      var c := Exited(w.info, op.status, op.now);
      (State(if op.writeOk then s.records[w.id := c] else s.records,
             if op.waitOk && Unreaped(s.children, w.info.pid) then Reap(s.children, w.info.pid) else s.children,
             s.waiters - {op.ticket}),
       true)
  }

  /** `stop_container`, once the record is read. */
  function StopFrom(s: State, op: Op, c: Info): (State, bool)
    requires op.Stop?
  {
    if c.state != RUNNING || !op.killOk || !op.waitOk || !Unreaped(s.children, c.pid) then (s, false)
    else
      var t := s.(children := Reap(s.children, c.pid));
      if !op.writeOk then (t, false)
      else (t.(records := s.records[op.id := Exited(c, op.status, op.now)]), true)
  }

  function StepStop(s: State, op: Op): (State, bool)
    requires op.Stop?
  {
    if op.id !in s.records then (s, false) else StopFrom(s, op, ReadBack(s.records[op.id]))
  }

  /** `remove_container`, once the record is read. */
  function RemoveFrom(s: State, op: Op, c: Info): (State, bool)
    requires op.Remove?
  {
    if c.state == RUNNING || !op.dirOk || !op.unlinkOk then (s, false)
    else (s.(records := s.records - {op.id}), op.logOk)
  }

  function StepRemove(s: State, op: Op): (State, bool)
    requires op.Remove?
  {
    if op.id !in s.records then (s, false) else RemoveFrom(s, op, ReadBack(s.records[op.id]))
  }

  function Step(s: State, op: Op): (State, bool) {
    match op
    case Create(_, _, _, _) => StepCreate(s, op)
    case Begin(_, _, _, _, _) => StepBegin(s, op)
    case End(_, _, _, _, _) => StepEnd(s, op)
    case Stop(_, _, _, _, _, _) => StepStop(s, op)
    case Remove(_, _, _, _, _) => StepRemove(s, op)
  }

  function Run(s: State, ops: seq<Op>): State
    decreases |ops|
  {
    if ops == [] then s else Run(Step(s, ops[0]).0, ops[1..])
  }

  // ----- ids -----

  /** No step but create brings in an id. */
  lemma OldIds(s: State, op: Op)
    requires !op.Create?
    ensures var t := Step(s, op).0;
            && (forall id :: id in t.records ==> id in s.records || exists w :: w in s.waiters && s.waiters[w].id == id)
            && (forall w :: w in t.waiters ==>
                  (w in s.waiters && t.waiters[w] == s.waiters[w]) || t.waiters[w].id in s.records)
  {
    match op {
      case Begin(id, _, _, _, _) =>
        if id in s.records {
          BeginIds(s, op, ReadBack(s.records[id]));
        }
      case End(_, _, _, _, _) =>
      case Stop(id, _, _, _, _, _) =>
        if id in s.records {
          StopIds(s, op, ReadBack(s.records[id]));
        }
      case Remove(_, _, _, _, _) =>
    }
  }

  lemma StopIds(s: State, op: Op, c: Info)
    requires op.Stop? && op.id in s.records
    ensures var t := StopFrom(s, op, c).0; t.records.Keys == s.records.Keys && t.waiters == s.waiters
  {}

  lemma BeginIds(s: State, op: Op, c: Info)
    requires op.Begin? && op.id in s.records
    ensures var t := BeginFrom(s, op, c).0;
            && t.records.Keys == s.records.Keys
            && (forall w :: w in t.waiters ==>
                  (w in s.waiters && t.waiters[w] == s.waiters[w]) || t.waiters[w].id in s.records)
  {}

  ghost predicate Generated(id: string) {
    exists t: Time :: id == ContainerId(t)
  }

  ghost predicate AllGenerated(s: State) {
    && (forall id :: id in s.records ==> Generated(id))
    && (forall w :: w in s.waiters ==> Generated(s.waiters[w].id))
  }

  lemma StepKeepsGenerated(s: State, op: Op)
    requires AllGenerated(s)
    ensures AllGenerated(Step(s, op).0)
  {
    if op.Create? {
      assert NewRecord(op.args, op.idTime, op.now).id == ContainerId(op.idTime);
    } else {
      OldIds(s, op);
    }
  }

  /** Along every run, whatever fails, all ids in use are generated ones. */
  lemma {:induction false} RunKeepsGenerated(s: State, ops: seq<Op>)
    requires AllGenerated(s)
    ensures AllGenerated(Run(s, ops))
    decreases |ops|
  {
    if ops == [] {
    } else {
      StepKeepsGenerated(s, ops[0]);
      RunKeepsGenerated(Step(s, ops[0]).0, ops[1..]);
    }
  }

  // ----- records can always be read -----

  /** Every stored record, and every one a start still holds, is one that reading keeps. */
  ghost predicate AllTidy(s: State) {
    TidyRecords(s.records) && TidyWaiters(s.waiters)
  }

  ghost predicate TidyRecords(records: map<string, Info>) {
    forall id :: id in records ==> Tidy(records[id])
  }

  ghost predicate TidyWaiters(waiters: map<nat, Waiter>) {
    forall t :: t in waiters ==> Tidy(waiters[t].info) && waiters[t].info.state == RUNNING
  }

  lemma PutTidy(records: map<string, Info>, id: string, c: Info)
    requires TidyRecords(records) && Tidy(c)
    ensures TidyRecords(records[id := c])
  {}

  lemma WaitTidy(waiters: map<nat, Waiter>, ticket: nat, w: Waiter)
    requires TidyWaiters(waiters) && Tidy(w.info) && w.info.state == RUNNING
    ensures TidyWaiters(waiters[ticket := w])
  {}

  lemma NewIsTidy(a: CreateArgs, idTime: nat, now: Time)
    ensures Tidy(NewRecord(a, idTime, now))
  {
    var id := ContainerId(idTime);
    assert '"' !in id;
    assert '"' !in "/tmp/docker-containers/" && '"' !in "/rootfs" && '"' !in "/tmp/docker-logs/" && '"' !in ".log";
  }

  lemma StartedIsTidy(c: Info, d: Info, pid: Int32, now: Time)
    requires Tidy(c) && ReadsAs(c, d)
    ensures Tidy(Started(d, pid, now))
  {
    assert IsTime(Dec(now));
  }

  lemma ExitedIsTidy(c: Info, d: Info, status: Int32, now: Time)
    requires Tidy(c) && c.state == RUNNING && ReadsAs(c, d)
    ensures Tidy(Exited(d, status, now))
  {}

  lemma BeginKeepsTidy(s: State, op: Op, d: Info)
    requires op.Begin? && AllTidy(s) && op.id in s.records && ReadsAs(s.records[op.id], d)
    ensures AllTidy(BeginFrom(s, op, d).0)
  {
    if op.clone.Some? {
      var e := Started(d, op.clone.value, op.now);
      StartedIsTidy(s.records[op.id], d, op.clone.value, op.now);
      PutTidy(s.records, op.id, e);
      WaitTidy(s.waiters, op.ticket, Waiter(op.id, e));
    }
  }

  lemma StopKeepsTidy(s: State, op: Op, d: Info)
    requires op.Stop? && AllTidy(s) && op.id in s.records && ReadsAs(s.records[op.id], d)
    ensures AllTidy(StopFrom(s, op, d).0)
  {
    if d.state == RUNNING {
      ExitedIsTidy(s.records[op.id], d, op.status, op.now);
      PutTidy(s.records, op.id, Exited(d, op.status, op.now));
    }
  }

  lemma CreateKeepsTidy(s: State, op: Op)
    requires op.Create? && AllTidy(s)
    ensures AllTidy(StepCreate(s, op).0)
  {
    var c := NewRecord(op.args, op.idTime, op.now);
    NewIsTidy(op.args, op.idTime, op.now);
    PutTidy(s.records, c.id, c);
  }

  lemma EndKeepsTidy(s: State, op: Op)
    requires op.End? && AllTidy(s)
    ensures AllTidy(StepEnd(s, op).0)
  {
    if op.ticket in s.waiters {
      var c := s.waiters[op.ticket].info;
      ExitedIsTidy(c, c, op.status, op.now);
      PutTidy(s.records, s.waiters[op.ticket].id, Exited(c, op.status, op.now));
    }
  }

  /** Whatever texts a request brings in, every record that is written can be read back where it matters. */
  lemma StepKeepsTidy(s: State, op: Op)
    requires AllTidy(s)
    ensures AllTidy(Step(s, op).0)
  {
    match op {
      case Create(_, _, _, _) => CreateKeepsTidy(s, op);
      case Begin(id, _, _, _, _) =>
        if id in s.records {
          ReadBackReadsAs(s.records[id]);
          BeginKeepsTidy(s, op, ReadBack(s.records[id]));
        }
      case End(_, _, _, _, _) => EndKeepsTidy(s, op);
      case Stop(id, _, _, _, _, _) =>
        if id in s.records {
          ReadBackReadsAs(s.records[id]);
          StopKeepsTidy(s, op, ReadBack(s.records[id]));
        }
      case Remove(_, _, _, _, _) =>
    }
  }

  /** Every record that any run stores reads back with its state, pid, exit code and times. */
  lemma {:induction false} RunKeepsTidy(s: State, ops: seq<Op>)
    requires AllTidy(s)
    ensures AllTidy(Run(s, ops))
    decreases |ops|
  {
    if ops == [] {
    } else {
      StepKeepsTidy(s, ops[0]);
      RunKeepsTidy(Step(s, ops[0]).0, ops[1..]);
    }
  }

  /** From the empty store, reading any stored record gives it back, up to the texts of the request. */
  lemma StoredRecordsReadBack(ops: seq<Op>, id: string)
    requires id in Run(INITIAL, ops).records
    ensures var c := Run(INITIAL, ops).records[id]; ReadsAs(c, ReadBack(c))
  {
    RunKeepsTidy(INITIAL, ops);
    ReadBackReadsAs(Run(INITIAL, ops).records[id]);
  }

  // ----- the lifecycle of a record -----

  /** The times of a record, in its own state. */
  predicate Times(c: Info, created: nat, started: nat, finished: nat) {
    && c.created == Dec(created)
    && (if c.state == CREATED then c.pid == 0 && c.started == "" && c.finished == ""
        else if c.state == RUNNING then c.started == Dec(started) && created <= started
        else
          && c.state == EXITED && c.started == Dec(started) && c.finished == Dec(finished)
          && created <= started <= finished)
  }

  /** CREATED, RUNNING or EXITED, with the times that state has, in order and none in the future. */
  ghost predicate Sound(c: Info, now: nat) {
    exists a: nat, b: nat, e: nat :: a <= now && b <= now && e <= now && Times(c, a, b, e)
  }

  ghost predicate SoundRecords(records: map<string, Info>, now: nat) {
    forall id :: id in records ==> Sound(records[id], now)
  }

  ghost predicate SoundWaiters(waiters: map<nat, Waiter>, now: nat) {
    forall t :: t in waiters ==> waiters[t].info.state == RUNNING && Sound(waiters[t].info, now)
  }

  ghost predicate AllSound(s: State, now: nat) {
    SoundRecords(s.records, now) && SoundWaiters(s.waiters, now)
  }

  lemma PutSound(records: map<string, Info>, id: string, c: Info, now: nat)
    requires SoundRecords(records, now) && Sound(c, now)
    ensures SoundRecords(records[id := c], now)
  {}

  lemma WaitSound(waiters: map<nat, Waiter>, ticket: nat, w: Waiter, now: nat)
    requires SoundWaiters(waiters, now) && Sound(w.info, now) && w.info.state == RUNNING
    ensures SoundWaiters(waiters[ticket := w], now)
  {}

  /** A clock that does not run backwards. */
  predicate Clocked(ops: seq<Op>, now: nat) {
    ops != [] ==> now <= ops[0].now && Clocked(ops[1..], ops[0].now)
  }

  function Latest(ops: seq<Op>, now: nat): nat {
    if ops == [] then now else Latest(ops[1..], ops[0].now)
  }

  lemma SoundLater(c: Info, now: nat, later: nat)
    requires Sound(c, now) && now <= later
    ensures Sound(c, later)
  {
    var a: nat, b: nat, e: nat :| a <= now && b <= now && e <= now && Times(c, a, b, e);
    assert Times(c, a, b, e);
  }

  lemma SoundStarted(c: Info, d: Info, pid: int, now: nat)
    requires Sound(c, now) && ReadsAs(c, d)
    ensures Sound(Started(d, pid, now), now)
  {
    var a: nat, b: nat, e: nat :| a <= now && b <= now && e <= now && Times(c, a, b, e);
    assert Times(Started(d, pid, now), a, now, e);
  }

  lemma SoundExited(c: Info, d: Info, status: int, now: nat)
    requires Sound(c, now) && c.state == RUNNING && ReadsAs(c, d)
    ensures Sound(Exited(d, status, now), now)
  {
    var a: nat, b: nat, e: nat :| a <= now && b <= now && e <= now && Times(c, a, b, e);
    assert Dec(b) != "";
    assert Times(Exited(d, status, now), a, b, now);
  }

  lemma AllSoundLater(s: State, now: nat, later: nat)
    requires AllSound(s, now) && now <= later
    ensures AllSound(s, later)
  {
    forall id | id in s.records
      ensures Sound(s.records[id], later)
    {
      SoundLater(s.records[id], now, later);
    }
    forall t | t in s.waiters
      ensures Sound(s.waiters[t].info, later)
    {
      SoundLater(s.waiters[t].info, now, later);
    }
  }

  lemma CreateKeepsSound(s: State, op: Op)
    requires op.Create? && AllSound(s, op.now)
    ensures AllSound(StepCreate(s, op).0, op.now)
  {
    var c := NewRecord(op.args, op.idTime, op.now);
    assert Times(c, op.now, 0, 0);
    PutSound(s.records, c.id, c, op.now);
  }

  lemma BeginKeepsSound(s: State, op: Op, d: Info)
    requires op.Begin? && AllSound(s, op.now) && op.id in s.records && ReadsAs(s.records[op.id], d)
    ensures AllSound(BeginFrom(s, op, d).0, op.now)
  {
    if op.clone.Some? {
      var e := Started(d, op.clone.value, op.now);
      SoundStarted(s.records[op.id], d, op.clone.value, op.now);
      PutSound(s.records, op.id, e, op.now);
      WaitSound(s.waiters, op.ticket, Waiter(op.id, e), op.now);
    }
  }

  lemma EndKeepsSound(s: State, op: Op)
    requires op.End? && AllTidy(s) && AllSound(s, op.now)
    ensures AllSound(StepEnd(s, op).0, op.now)
  {
    if op.ticket in s.waiters {
      var c := s.waiters[op.ticket].info;
      SoundExited(c, c, op.status, op.now);
      PutSound(s.records, s.waiters[op.ticket].id, Exited(c, op.status, op.now), op.now);
    }
  }

  lemma StopKeepsSound(s: State, op: Op, d: Info)
    requires op.Stop? && AllSound(s, op.now) && op.id in s.records && ReadsAs(s.records[op.id], d)
    ensures AllSound(StopFrom(s, op, d).0, op.now)
  {
    if d.state == RUNNING {
      SoundExited(s.records[op.id], d, op.status, op.now);
      PutSound(s.records, op.id, Exited(d, op.status, op.now), op.now);
    }
  }

  lemma StepKeepsSound(s: State, op: Op, now: nat)
    requires AllTidy(s) && AllSound(s, now) && now <= op.now
    ensures AllSound(Step(s, op).0, op.now)
  {
    AllSoundLater(s, now, op.now);
    match op {
      case Create(_, _, _, _) => CreateKeepsSound(s, op);
      case Begin(id, _, _, _, _) =>
        if id in s.records {
          ReadBackReadsAs(s.records[id]);
          BeginKeepsSound(s, op, ReadBack(s.records[id]));
        }
      case End(_, _, _, _, _) => EndKeepsSound(s, op);
      case Stop(id, _, _, _, _, _) =>
        if id in s.records {
          ReadBackReadsAs(s.records[id]);
          StopKeepsSound(s, op, ReadBack(s.records[id]));
        }
      case Remove(_, _, _, _, _) =>
    }
  }

  /** Over every clocked run, whatever fails, each record is CREATED, RUNNING or EXITED with ordered times. */
  lemma {:induction false} LifecycleInvariant(s: State, ops: seq<Op>, now: nat)
    requires AllTidy(s) && AllSound(s, now) && Clocked(ops, now)
    ensures AllSound(Run(s, ops), Latest(ops, now))
    decreases |ops|
  {
    if ops == [] {
    } else {
      StepKeepsTidy(s, ops[0]);
      StepKeepsSound(s, ops[0], now);
      LifecycleInvariant(Step(s, ops[0]).0, ops[1..], ops[0].now);
    }
  }

  lemma LifecycleFromStart(ops: seq<Op>)
    requires Clocked(ops, 0)
    ensures forall id :: id in Run(INITIAL, ops).records ==> Sound(Run(INITIAL, ops).records[id], Latest(ops, 0))
  {
    LifecycleInvariant(INITIAL, ops, 0);
  }
}
