/** What each step does, exactly: its result, the record it writes, the child it makes or reaps, and nothing else. */
module StepEffects {
  import opened CText
  import opened ContainerMetadata
  import opened Ids
  import opened Lifecycle

  /** A create that succeeds stores one CREATED record under the id of its second. */
  lemma CreateExactly(s: State, op: Op)
    requires op.Create?
    ensures var (t, ok) := Step(s, op);
            var id := ContainerId(op.idTime);
            && ok == op.ok
            && (!ok ==> t == s)
            && (ok ==>
                && t.children == s.children && t.waiters == s.waiters && t.records.Keys == s.records.Keys + {id}
                && (forall k :: k in s.records && k != id ==> t.records[k] == s.records[k])
                && var c := t.records[id];
                   && c.id == id && c.state == 0 && c.pid == 0 && c.exitCode == 0 && c.created == Dec(op.now)
                   && c.started == "" && c.finished == "")
  {}

  /** Every other record is as it was. */
  predicate OthersKept(s: State, t: State, id: string) {
    t.records.Keys == s.records.Keys && forall k :: k in s.records && k != id ==> t.records[k] == s.records[k]
  }

  /** A start, once its record is read: `d` is what it read. */
  ghost predicate Begun(s: State, op: Op, d: Info, t: State, ok: bool)
    requires op.Begin? && op.id in s.records
  {
    var c := s.records[op.id];
    var cloned := c.state != 1 && op.clone.Some?;
    && ok == (cloned && op.writeOk) && OthersKept(s, t, op.id)
    && t.children == (if cloned then s.children + [Child(op.clone.value, 0, !op.writeOk)] else s.children)
    && (!ok ==> t.records == s.records && t.waiters == s.waiters)
    && (ok ==>
        && var e := t.records[op.id];
           && e == d.(state := 1, pid := op.clone.value, started := Dec(op.now))
           && e.created == c.created && e.exitCode == c.exitCode && e.detach == c.detach
           && t.waiters == if c.detach == 0 then s.waiters[op.ticket := Waiter(op.id, e)] else s.waiters)
  }

  lemma BeginFromExactly(s: State, op: Op, d: Info)
    requires op.Begin? && op.id in s.records && ReadsAs(s.records[op.id], d)
    ensures Begun(s, op, d, BeginFrom(s, op, d).0, BeginFrom(s, op, d).1)
  {}

  /**
   A start fails and changes nothing if its record is missing or RUNNING, or no
   child can be made. Otherwise there is one more child, killed if the record
   cannot be written; if it can, the record is RUNNING with the child's pid, and
   the start waits unless the container is detached.
   */
  lemma BeginExactly(s: State, op: Op)
    requires op.Begin? && AllTidy(s)
    ensures var (t, ok) := Step(s, op);
            if op.id in s.records then Begun(s, op, ReadBack(s.records[op.id]), t, ok) else t == s && !ok
  {
    if op.id in s.records {
      ReadBackReadsAs(s.records[op.id]);
      BeginFromExactly(s, op, ReadBack(s.records[op.id]));
    }
  }

  /** The unreaped child with this pid is reaped, and no other child changes. */
  predicate Reaped(before: seq<Child>, after: seq<Child>, pid: int) {
    && |after| == |before|
    && forall i :: 0 <= i < |before| ==>
         after[i] == if before[i].pid == pid && before[i].waits == 0 then before[i].(waits := 1) else before[i]
  }

  /** A finishing start reaps its child if the wait succeeds, and writes EXITED with the status, reaped or not. */
  lemma EndExactly(s: State, op: Op)
    requires op.End?
    ensures var (t, ok) := Step(s, op);
            && ok == (op.ticket in s.waiters)
            && (!ok ==> t == s)
            && (ok ==>
                var w := s.waiters[op.ticket];
                && t.waiters == s.waiters - {op.ticket}
                && (if op.waitOk then Reaped(s.children, t.children, w.info.pid) else t.children == s.children)
                && t.records ==
                     if op.writeOk then
                       s.records[w.id := w.info.(state := 5, exitCode := op.status, finished := Dec(op.now))]
                     else s.records)
  {}

  /** A stop, once its record is read: `d` is what it read. */
  ghost predicate Stopped(s: State, op: Op, d: Info, t: State, ok: bool)
    requires op.Stop? && op.id in s.records
  {
    var c := s.records[op.id];
    var alive := exists i :: 0 <= i < |s.children| && s.children[i].pid == c.pid && s.children[i].waits == 0;
    var reaps := c.state == 1 && op.killOk && op.waitOk && alive;
    && ok == (reaps && op.writeOk) && OthersKept(s, t, op.id) && t.waiters == s.waiters
    && (if reaps then Reaped(s.children, t.children, c.pid) else t.children == s.children)
    && (!ok ==> t.records == s.records)
    && (ok ==>
        && var e := t.records[op.id];
           && e == d.(state := 5, exitCode := op.status, finished := Dec(op.now))
           && e.pid == c.pid && e.created == c.created && (c.started != "" ==> e.started == c.started))
  }

  lemma StopFromExactly(s: State, op: Op, d: Info)
    requires op.Stop? && op.id in s.records && ReadsAs(s.records[op.id], d)
    ensures Stopped(s, op, d, StopFrom(s, op, d).0, StopFrom(s, op, d).1)
  {}

  /**
   A stop of a RUNNING record whose child can be signalled and awaited reaps that
   child; the record is then EXITED with the status, if it can be written.
   */
  lemma StopExactly(s: State, op: Op)
    requires op.Stop? && AllTidy(s)
    ensures var (t, ok) := Step(s, op);
            if op.id in s.records then Stopped(s, op, ReadBack(s.records[op.id]), t, ok) else t == s && !ok
  {
    if op.id in s.records {
      ReadBackReadsAs(s.records[op.id]);
      StopFromExactly(s, op, ReadBack(s.records[op.id]));
    }
  }

  /** A remove takes the record away, exactly if it is there and not RUNNING and its files can be removed. */
  lemma RemoveExactly(s: State, op: Op)
    requires op.Remove? && AllTidy(s)
    ensures var gone := op.id in s.records && s.records[op.id].state != 1 && op.dirOk && op.unlinkOk;
            Step(s, op) == (if gone then s.(records := s.records - {op.id}) else s, gone && op.logOk)
  {
    if op.id in s.records {
      ReadBackReadsAs(s.records[op.id]);
    }
  }

  lemma ReachableIsTidy(ops: seq<Op>)
    ensures AllTidy(Run(INITIAL, ops))
  {
    RunKeepsTidy(INITIAL, ops);
  }

  /** After a remove that succeeds, start, stop and remove of that container fail and change nothing. */
  lemma RemovedIsGone(ops: seq<Op>, remove: Op, op: Op)
    requires remove.Remove? && Step(Run(INITIAL, ops), remove).1
    requires (op.Begin? || op.Stop? || op.Remove?) && op.id == remove.id
    ensures var t := Step(Run(INITIAL, ops), remove).0;
            op.id !in t.records && Step(t, op) == (t, false)
  {
    ReachableIsTidy(ops);
    RemoveExactly(Run(INITIAL, ops), remove);
  }

  /** `b` is `s` with one more container, which runs the last child. */
  ghost predicate OneMoreRunning(s: State, b: State, id: string, pid: int) {
    && AllTidy(b) && b.records.Keys == s.records.Keys + {id}
    && (forall k :: k in s.records ==> b.records[k] == s.records[k])
    && b.records[id].state == 1 && b.records[id].pid == pid && b.children == s.children + [Child(pid, 0, false)]
  }

  lemma CreatedAndStarted(s: State, create: Op, begin: Op, a: State, b: State, r1: bool, r2: bool)
    requires AllTidy(s) && create.Create? && create.ok && ContainerId(create.idTime) !in s.records
    requires begin.Begin? && begin.id == ContainerId(create.idTime) && begin.clone.Some? && begin.writeOk
    requires Step(s, create) == (a, r1) && Step(a, begin) == (b, r2)
    ensures r1 && r2 && OneMoreRunning(s, b, begin.id, begin.clone.value)
  {
    CreateExactly(s, create);
    StepKeepsTidy(s, create);
    BeginExactly(a, begin);
    StepKeepsTidy(a, begin);
  }

  /** `c` is `s` with one more container, which has exited with this status; its child is the last one, and reaped. */
  ghost predicate OneMoreExited(s: State, c: State, id: string, pid: int, status: int) {
    && AllTidy(c) && c.records.Keys == s.records.Keys + {id}
    && (forall k :: k in s.records ==> c.records[k] == s.records[k])
    && c.records[id].state == 5 && c.records[id].exitCode == status && c.children == s.children + [Child(pid, 1, false)]
  }

  lemma LastIsReaped(before: seq<Child>, with: seq<Child>, after: seq<Child>, pid: int)
    requires with == before + [Child(pid, 0, false)] && !Unreaped(before, pid)
    ensures Reaped(with, after, pid) ==> after == before + [Child(pid, 1, false)]
  {}

  lemma StoppedAfterwards(s: State, b: State, c: State, stop: Op, pid: int, r3: bool)
    requires stop.Stop? && stop.killOk && stop.waitOk && stop.writeOk && stop.id !in s.records
    requires OneMoreRunning(s, b, stop.id, pid) && !Unreaped(s.children, pid) && Step(b, stop) == (c, r3)
    ensures r3 && OneMoreExited(s, c, stop.id, pid, stop.status)
  {
    LastIsReaped(s.children, b.children, c.children, pid);
    assert b.children[|s.children|] == Child(pid, 0, false);
    StopExactly(b, stop);
    StepKeepsTidy(b, stop);
  }

  lemma RemovedAtLast(s: State, c: State, d: State, remove: Op, pid: int, status: int, r4: bool)
    requires remove.Remove? && remove.dirOk && remove.unlinkOk && remove.logOk && remove.id !in s.records
    requires OneMoreExited(s, c, remove.id, pid, status) && Step(c, remove) == (d, r4)
    ensures r4 && d.records == s.records && d.children == c.children
  {
    RemoveExactly(c, remove);
    MinusLast(s.records, c.records, remove.id);
  }

  lemma MinusLast(before: map<string, Info>, with: map<string, Info>, id: string)
    requires id !in before && with.Keys == before.Keys + {id}
    requires forall k :: k in before ==> with[k] == before[k]
    ensures with - {id} == before
  {}

  /**
   The life of one container from any state that a run can reach: created, started,
   stopped and removed with nothing refused, every step succeeds. In the end its
   child is reaped, its record is gone, and every other record is as it was.
   */
  lemma WholeLife(ops: seq<Op>, s: State, create: Op, begin: Op, stop: Op, remove: Op,
                  a: State, b: State, c: State, d: State, r1: bool, r2: bool, r3: bool, r4: bool)
    requires s == Run(INITIAL, ops) && create.Create? && begin.Begin? && stop.Stop? && remove.Remove?
    requires begin.id == stop.id == remove.id == ContainerId(create.idTime) && begin.id !in s.records
    requires create.ok && begin.clone.Some? && begin.writeOk && stop.killOk && stop.waitOk && stop.writeOk
    requires remove.dirOk && remove.unlinkOk && remove.logOk && !Unreaped(s.children, begin.clone.value)
    requires Step(s, create) == (a, r1) && Step(a, begin) == (b, r2) && Step(b, stop) == (c, r3)
    requires Step(c, remove) == (d, r4)
    ensures r1 && r2 && r3 && r4
    ensures begin.id in b.records && b.records[begin.id].state == 1
    ensures begin.id in c.records && c.records[begin.id].state == 5 && c.records[begin.id].exitCode == stop.status
    ensures d.records == s.records && d.children == s.children + [Child(begin.clone.value, 1, false)]
  {
    ReachableIsTidy(ops);
    CreatedAndStarted(s, create, begin, a, b, r1, r2);
    StoppedAfterwards(s, b, c, stop, begin.clone.value, r3);
    RemovedAtLast(s, c, d, remove, begin.clone.value, stop.status, r4);
  }
}
