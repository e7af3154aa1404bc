/** No child is lost: each is run by one record, or was waited for once, or was killed by a failed start. */
module Conservation {
  import opened CText
  import opened ContainerMetadata
  import opened Ids
  import opened Lifecycle

  predicate Alive(c: Child) {
    c.waits == 0 && !c.killed
  }

  /** The record under `id` is RUNNING with this pid. */
  predicate RunsPid(s: State, id: string, pid: int) {
    id in s.records && s.records[id].state == RUNNING && s.records[id].pid == pid
  }

  /** Never waited for twice, and never both waited for and killed. */
  predicate Accounted(c: Child) {
    c.waits <= 1 && (c.killed ==> c.waits == 0)
  }

  ghost predicate HasRecord(s: State, pid: int) {
    exists id :: RunsPid(s, id, pid)
  }

  predicate HasChild(s: State, pid: int) {
    exists i :: 0 <= i < |s.children| && s.children[i].pid == pid && Alive(s.children[i])
  }

  /**
   Children are conserved: the pids of live children are exactly the pids of
   RUNNING records, one record each, and every other child is accounted for.
   */
  ghost predicate Conserved(s: State) {
    && (forall i :: 0 <= i < |s.children| ==> Accounted(s.children[i]))
    && (forall pid :: HasChild(s, pid) <==> HasRecord(s, pid))
    && (forall a, b, pid :: RunsPid(s, a, pid) && RunsPid(s, b, pid) ==> a == b)
  }

  /** No two unreaped children have the same pid. */
  predicate DistinctPids(children: seq<Child>) {
    forall i, j :: 0 <= i < j < |children| && children[i].waits == 0 && children[j].waits == 0 ==>
      children[i].pid != children[j].pid
  }

  /** The kernel gives a new child a pid of no unreaped child. */
  predicate FreshPids(s: State, op: Op) {
    op.Begin? && op.clone.Some? ==> !Unreaped(s.children, op.clone.value)
  }

  predicate Running(s: State, id: string) {
    id in s.records && s.records[id].state == RUNNING
  }

  /** The finishing start reaps the child it waited for. */
  predicate Reaps(s: State, op: Op)
    requires op.End? && op.ticket in s.waiters
  {
    op.waitOk && Unreaped(s.children, s.waiters[op.ticket].info.pid)
  }

  /** The record of a finishing start is RUNNING with the pid that start waited for. */
  predicate StillOwn(s: State, op: Op)
    requires op.End? && op.ticket in s.waiters
  {
    RunsPid(s, s.waiters[op.ticket].id, s.waiters[op.ticket].info.pid)
  }

  /**
   The exact condition under which a step conserves children. A create must not
   overwrite a RUNNING record; a finishing start that reaps must reap the child
   of its own record and write, and one that does not reap must not write over
   a RUNNING record; a stop must write.
   */
  predicate Safe(s: State, op: Op) {
    match op
    case Create(_, idTime, _, ok) => ok ==> !Running(s, ContainerId(idTime))
    case Begin(_, _, _, _, _) => true
    case End(ticket, _, _, _, writeOk) =>
      ticket in s.waiters ==>
        if Reaps(s, op) then writeOk && StillOwn(s, op) else !writeOk || !Running(s, s.waiters[ticket].id)
    case Stop(id, _, killOk, waitOk, _, writeOk) => Running(s, id) && killOk && waitOk ==> writeOk
    case Remove(_, _, _, _, _) => true
  }

  // ----- pieces of steps -----

  lemma SameRecords(s: State, t: State)
    requires forall id, pid :: RunsPid(t, id, pid) <==> RunsPid(s, id, pid)
    ensures forall pid :: HasRecord(t, pid) <==> HasRecord(s, pid)
  {
    forall pid
      ensures HasRecord(t, pid) <==> HasRecord(s, pid)
    {
      if id :| RunsPid(s, id, pid) {
        assert RunsPid(t, id, pid);
      }
      if id :| RunsPid(t, id, pid) {
        assert RunsPid(s, id, pid);
      }
    }
  }

  lemma ChildrenAfterReap(s: State, t: State, pid: int)
    requires t.children == Reap(s.children, pid)
    ensures forall p :: HasChild(t, p) <==> HasChild(s, p) && p != pid
    ensures forall p :: Unreaped(t.children, p) <==> Unreaped(s.children, p) && p != pid
  {
    forall p
      ensures HasChild(t, p) <==> HasChild(s, p) && p != pid
    {
      if HasChild(s, p) && p != pid {
        var i :| 0 <= i < |s.children| && s.children[i].pid == p && Alive(s.children[i]);
        assert t.children[i] == s.children[i];
      }
    }
    forall p
      ensures Unreaped(t.children, p) <==> Unreaped(s.children, p) && p != pid
    {
      if Unreaped(s.children, p) && p != pid {
        var i :| 0 <= i < |s.children| && s.children[i].pid == p && s.children[i].waits == 0;
        assert t.children[i] == s.children[i];
      }
    }
  }

  lemma ChildrenAfterClone(s: State, t: State, c: Child)
    requires t.children == s.children + [c] && c.waits == 0
    ensures forall p :: HasChild(t, p) <==> HasChild(s, p) || (p == c.pid && Alive(c))
    ensures forall p :: Unreaped(t.children, p) <==> Unreaped(s.children, p) || p == c.pid
  {
    assert t.children[|s.children|] == c;
    forall p
      ensures HasChild(t, p) <==> HasChild(s, p) || (p == c.pid && Alive(c))
    {
      if HasChild(s, p) {
        var i :| 0 <= i < |s.children| && s.children[i].pid == p && Alive(s.children[i]);
        assert t.children[i] == s.children[i];
      }
    }
    forall p
      ensures Unreaped(t.children, p) <==> Unreaped(s.children, p) || p == c.pid
    {
      if Unreaped(s.children, p) {
        var i :| 0 <= i < |s.children| && s.children[i].pid == p && s.children[i].waits == 0;
        assert t.children[i] == s.children[i];
      }
    }
  }

  /** `id` stops or starts running `pid`; all other RUNNING records stay. */
  lemma RecordsAfterExit(s: State, t: State, id: string, pid: int)
    requires Conserved(s) && RunsPid(s, id, pid)
    requires forall a, p :: RunsPid(t, a, p) <==> RunsPid(s, a, p) && a != id
    ensures forall p :: HasRecord(t, p) <==> HasRecord(s, p) && p != pid
  {
    forall p
      ensures HasRecord(t, p) <==> HasRecord(s, p) && p != pid
    {
      if a :| RunsPid(s, a, p) && p != pid {
        assert RunsPid(t, a, p);
      }
      if a :| RunsPid(t, a, p) {
        assert RunsPid(s, a, p) && a != id;
      }
    }
  }

  lemma RecordsAfterStart(s: State, t: State, id: string, pid: int)
    requires forall a, p :: RunsPid(t, a, p) <==> RunsPid(s, a, p) || (a == id && p == pid)
    ensures forall p :: HasRecord(t, p) <==> HasRecord(s, p) || p == pid
  {
    assert RunsPid(t, id, pid);
    forall p
      ensures HasRecord(t, p) <==> HasRecord(s, p) || p == pid
    {
      if a :| RunsPid(s, a, p) {
        assert RunsPid(t, a, p);
      }
      if a :| RunsPid(t, a, p) {
        assert RunsPid(s, a, p) || p == pid;
      }
    }
  }

  // ----- steps -----

  lemma PidsAfterReap(children: seq<Child>, pid: int)
    requires DistinctPids(children)
    ensures DistinctPids(Reap(children, pid))
  {}

  lemma PidsAfterClone(children: seq<Child>, c: Child)
    requires DistinctPids(children) && !Unreaped(children, c.pid)
    ensures DistinctPids(children + [c])
  {}

  /** Whatever fails, unreaped children keep different pids. */
  lemma StepKeepsPids(s: State, op: Op)
    requires DistinctPids(s.children) && FreshPids(s, op)
    ensures DistinctPids(Step(s, op).0.children)
  {
    match op {
      case Begin(_, _, _, clone, _) =>
        if clone.Some? {
          PidsAfterClone(s.children, Child(clone.value, 0, true));
          PidsAfterClone(s.children, Child(clone.value, 0, false));
        }
      case End(ticket, _, _, _, _) =>
        if ticket in s.waiters {
          PidsAfterReap(s.children, s.waiters[ticket].info.pid);
        }
      case Stop(id, _, _, _, _, _) =>
        if id in s.records {
          PidsAfterReap(s.children, ReadBack(s.records[id]).pid);
        }
      case _ =>
    }
  }

  /** A record leaves RUNNING exactly when its child is reaped. */
  lemma ExitConserves(s: State, t: State, id: string, pid: int, c: Info)
    requires Conserved(s) && DistinctPids(s.children) && RunsPid(s, id, pid) && c.state != RUNNING
    requires t.records == s.records[id := c] && t.children == Reap(s.children, pid)
    ensures Conserved(t)
  {
    ChildrenAfterReap(s, t, pid);
    RecordsAfterExit(s, t, id, pid);
    assert HasRecord(s, pid) && HasChild(s, pid);
    var i :| 0 <= i < |s.children| && s.children[i].pid == pid && Alive(s.children[i]);
    assert forall k :: 0 <= k < |s.children| && s.children[k].pid == pid && s.children[k].waits == 0 ==> k == i;
  }

  /** Records that are not RUNNING before and after do not matter. */
  lemma IdleRecordsConserve(s: State, t: State)
    requires Conserved(s) && t.children == s.children
    requires forall id, pid :: RunsPid(t, id, pid) <==> RunsPid(s, id, pid)
    ensures Conserved(t)
  {
    SameRecords(s, t);
    assert forall pid :: HasChild(t, pid) <==> HasChild(s, pid);
  }

  /** A RUNNING record that disappears leaves its child without one. */
  lemma LostRecordBreaks(s: State, t: State, id: string)
    requires Conserved(s) && Running(s, id) && t.children == s.children
    requires forall a, p :: RunsPid(t, a, p) <==> RunsPid(s, a, p) && a != id
    ensures !Conserved(t)
  {
    var pid := s.records[id].pid;
    assert RunsPid(s, id, pid) && HasRecord(s, pid) && HasChild(s, pid);
    RecordsAfterExit(s, t, id, pid);
    assert HasChild(t, pid);
  }

  /** A child that is reaped while a record still runs it leaves that record without one. */
  lemma LostChildBreaks(s: State, t: State, id: string, pid: int)
    requires RunsPid(t, id, pid) && t.children == Reap(s.children, pid)
    ensures !Conserved(t)
  {
    ChildrenAfterReap(s, t, pid);
    assert HasRecord(t, pid);
  }

  /** A reaped child that is not the record's own was another record's, or one that start had given up. */
  lemma ForeignChildBreaks(s: State, t: State, id: string, pid: int)
    requires Conserved(s) && Unreaped(s.children, pid) && !RunsPid(s, id, pid)
    requires t.children == Reap(s.children, pid)
    requires forall a :: a in s.records && a != id ==> a in t.records && t.records[a] == s.records[a]
    ensures !Conserved(t)
  {
    var i :| 0 <= i < |s.children| && s.children[i].pid == pid && s.children[i].waits == 0;
    if s.children[i].killed {
      assert !Accounted(t.children[i]);
    } else {
      assert HasChild(s, pid) && HasRecord(s, pid);
      var owner :| RunsPid(s, owner, pid);
      LostChildBreaks(s, t, owner, pid);
    }
  }

  /** A child that is killed at once is accounted for without a record. */
  lemma KilledChildConserves(s: State, pid: int)
    requires Conserved(s) && !Unreaped(s.children, pid)
    ensures Conserved(s.(children := s.children + [Child(pid, 0, true)]))
  {
    var t := s.(children := s.children + [Child(pid, 0, true)]);
    ChildrenAfterClone(s, t, Child(pid, 0, true));
    SameRecords(s, t);
  }

  /** A new child and its RUNNING record come together. */
  lemma NewChildConserves(s: State, t: State, id: string, pid: int, d: Info)
    requires Conserved(s) && !Unreaped(s.children, pid) && !Running(s, id)
    requires d.state == RUNNING && d.pid == pid
    requires t.records == s.records[id := d] && t.children == s.children + [Child(pid, 0, false)]
    ensures Conserved(t)
  {
    ChildrenAfterClone(s, t, Child(pid, 0, false));
    RecordsAfterStart(s, t, id, pid);
    assert !HasChild(s, pid);
    assert forall a :: !RunsPid(s, a, pid);
  }

  /** A start that begins conserves children, whatever fails in it. */
  lemma BeginConserves(s: State, op: Op, c: Info)
    requires op.Begin? && Conserved(s) && FreshPids(s, op)
    requires op.id in s.records && c.state == s.records[op.id].state
    ensures Conserved(BeginFrom(s, op, c).0)
  {
    if c.state != RUNNING && op.clone.Some? {
      if op.writeOk {
        NewChildConserves(s, BeginFrom(s, op, c).0, op.id, op.clone.value, Started(c, op.clone.value, op.now));
      } else {
        KilledChildConserves(s, op.clone.value);
      }
    }
  }

  /** A create may not reuse the id of a RUNNING record. */
  lemma RepeatedId(s: State, op: Op)
    requires op.Create? && Conserved(s)
    ensures Conserved(StepCreate(s, op).0) <==> !op.ok || !Running(s, ContainerId(op.idTime))
  {
    var t, id := StepCreate(s, op).0, ContainerId(op.idTime);
    if op.ok && Running(s, id) {
      LostRecordBreaks(s, t, id);
    } else {
      IdleRecordsConserve(s, t);
    }
  }

  lemma ReapingEnd(s: State, op: Op)
    requires op.End? && op.ticket in s.waiters && Conserved(s) && DistinctPids(s.children) && Reaps(s, op)
    ensures Conserved(StepEnd(s, op).0) <==> op.writeOk && StillOwn(s, op)
  {
    var w, t := s.waiters[op.ticket], StepEnd(s, op).0;
    if !StillOwn(s, op) {
      ForeignChildBreaks(s, t, w.id, w.info.pid);
    } else if op.writeOk {
      ExitConserves(s, t, w.id, w.info.pid, Exited(w.info, op.status, op.now));
    } else {
      LostChildBreaks(s, t, w.id, w.info.pid);
    }
  }

  lemma BlindEnd(s: State, op: Op)
    requires op.End? && op.ticket in s.waiters && Conserved(s) && !Reaps(s, op)
    ensures Conserved(StepEnd(s, op).0) <==> !op.writeOk || !Running(s, s.waiters[op.ticket].id)
  {
    var t, id := StepEnd(s, op).0, s.waiters[op.ticket].id;
    if op.writeOk && Running(s, id) {
      LostRecordBreaks(s, t, id);
    } else {
      IdleRecordsConserve(s, t);
    }
  }

  /**
   A finishing start looks neither at what `waitpid` returned nor at whether its
   last write succeeded. Children stay conserved exactly if it reaped the child
   its record still runs and wrote, or did not reap and either did not write or
   wrote over a record that is not RUNNING.
   */
  lemma UncheckedWait(s: State, op: Op)
    requires op.End? && op.ticket in s.waiters && Conserved(s) && DistinctPids(s.children)
    ensures Conserved(StepEnd(s, op).0)
            <==> if Reaps(s, op) then op.writeOk && StillOwn(s, op)
                 else !op.writeOk || !Running(s, s.waiters[op.ticket].id)
  {
    if Reaps(s, op) {
      ReapingEnd(s, op);
    } else {
      BlindEnd(s, op);
    }
  }

  /** In a conserved state the child of a RUNNING record can be waited for. */
  lemma RunningCanBeReaped(s: State, id: string)
    requires Conserved(s) && Running(s, id)
    ensures Unreaped(s.children, s.records[id].pid)
  {
    var pid := s.records[id].pid;
    assert RunsPid(s, id, pid) && HasRecord(s, pid) && HasChild(s, pid);
    var i :| 0 <= i < |s.children| && s.children[i].pid == pid && Alive(s.children[i]);
  }

  lemma StopConserves(s: State, op: Op, c: Info)
    requires op.Stop? && Conserved(s) && DistinctPids(s.children)
    requires op.id in s.records && c.state == s.records[op.id].state && c.pid == s.records[op.id].pid
    ensures Conserved(StopFrom(s, op, c).0) <==> Safe(s, op)
  {
    var t := StopFrom(s, op, c).0;
    if Running(s, op.id) && op.killOk && op.waitOk {
      RunningCanBeReaped(s, op.id);
      if op.writeOk {
        ExitConserves(s, t, op.id, c.pid, Exited(c, op.status, op.now));
      } else {
        LostChildBreaks(s, t, op.id, c.pid);
      }
    }
  }

  /** A stop that has reaped the child returns an error when its write fails, and leaves the record RUNNING. */
  lemma FailedStopWrite(s: State, op: Op)
    requires op.Stop? && AllTidy(s) && Conserved(s) && DistinctPids(s.children)
    ensures Conserved(StepStop(s, op).0) <==> (Running(s, op.id) && op.killOk && op.waitOk ==> op.writeOk)
  {
    if op.id in s.records {
      ReadBackReadsAs(s.records[op.id]);
      StopConserves(s, op, ReadBack(s.records[op.id]));
    }
  }

  /** Remove takes at most the record it names, and never a RUNNING one, whatever the record's text holds. */
  lemma RemoveSparesRunning(s: State, op: Op)
    requires op.Remove? && AllTidy(s)
    ensures var t := StepRemove(s, op).0;
            && (t == s || t == s.(records := s.records - {op.id}))
            && forall id, pid :: RunsPid(t, id, pid) <==> RunsPid(s, id, pid)
  {
    if op.id in s.records {
      ReadBackReadsAs(s.records[op.id]);
    }
  }

  /** Every step conserves children if and only if it is safe. */
  lemma StepConserves(s: State, op: Op)
    requires AllTidy(s) && Conserved(s) && DistinctPids(s.children) && FreshPids(s, op)
    ensures Conserved(Step(s, op).0) <==> Safe(s, op)
  {
    match op {
      case Create(_, _, _, _) =>
        RepeatedId(s, op);
      case Begin(id, _, _, _, _) =>
        if id in s.records {
          ReadBackReadsAs(s.records[id]);
          BeginConserves(s, op, ReadBack(s.records[id]));
        }
      case End(ticket, _, _, _, _) =>
        if ticket in s.waiters {
          UncheckedWait(s, op);
        }
      case Stop(_, _, _, _, _, _) =>
        FailedStopWrite(s, op);
      case Remove(_, _, _, _, _) =>
        RemoveSparesRunning(s, op);
        IdleRecordsConserve(s, StepRemove(s, op).0);
    }
  }

  // ----- whole runs -----

  ghost predicate PidsFresh(s: State, ops: seq<Op>)
    decreases |ops|
  {
    ops != [] ==> FreshPids(s, ops[0]) && PidsFresh(Step(s, ops[0]).0, ops[1..])
  }

  ghost predicate SafeRun(s: State, ops: seq<Op>)
    decreases |ops|
  {
    ops != [] ==> Safe(s, ops[0]) && SafeRun(Step(s, ops[0]).0, ops[1..])
  }

  /** Children are conserved now and after each step. */
  ghost predicate ConservedThroughout(s: State, ops: seq<Op>)
    decreases |ops|
  {
    Conserved(s) && (ops != [] ==> ConservedThroughout(Step(s, ops[0]).0, ops[1..]))
  }

  /** Children are conserved all along a run if and only if each of its steps is safe where it is taken. */
  lemma {:induction false} ConservedExactly(s: State, ops: seq<Op>)
    requires AllTidy(s) && Conserved(s) && DistinctPids(s.children) && PidsFresh(s, ops)
    ensures ConservedThroughout(s, ops) <==> SafeRun(s, ops)
    decreases |ops|
  {
    if ops == [] {
    } else {
      var t := Step(s, ops[0]).0;
      StepConserves(s, ops[0]);
      StepKeepsPids(s, ops[0]);
      StepKeepsTidy(s, ops[0]);
      if Safe(s, ops[0]) {
        ConservedExactly(t, ops[1..]);
      }
    }
  }

  lemma {:induction false} ConservedAtEnd(s: State, ops: seq<Op>)
    requires ConservedThroughout(s, ops)
    ensures Conserved(Run(s, ops))
    decreases |ops|
  {
    if ops == [] {
    } else {
      ConservedAtEnd(Step(s, ops[0]).0, ops[1..]);
    }
  }

  /** Exactly one RUNNING record runs this pid. */
  ghost predicate RunByOne(s: State, pid: int) {
    exists id :: RunsPid(s, id, pid) && forall other :: RunsPid(s, other, pid) ==> other == id
  }

  /** Run by exactly one record, or reaped once, or killed unwaited. */
  ghost predicate AccountedIn(s: State, c: Child) {
    if c.killed then c.waits == 0 else c.waits == 1 || (c.waits == 0 && RunByOne(s, c.pid))
  }

  /** From the empty store, along safe steps, every child is accounted for. */
  lemma EveryChildAccountedFor(ops: seq<Op>)
    requires PidsFresh(INITIAL, ops) && SafeRun(INITIAL, ops)
    ensures var s := Run(INITIAL, ops); forall c :: c in s.children ==> AccountedIn(s, c)
  {
    ConservedExactly(INITIAL, ops);
    ConservedAtEnd(INITIAL, ops);
    var s := Run(INITIAL, ops);
    forall i | 0 <= i < |s.children| && Alive(s.children[i])
      ensures RunByOne(s, s.children[i].pid)
    {
      assert HasChild(s, s.children[i].pid);
      var id :| RunsPid(s, id, s.children[i].pid);
    }
  }

  // ----- starts that reap their own child -----

  /** An unreaped child that a start waits for is the one its record runs. */
  ghost predicate OwnChildren(s: State) {
    forall t :: t in s.waiters && Unreaped(s.children, s.waiters[t].info.pid) ==>
      RunsPid(s, s.waiters[t].id, s.waiters[t].info.pid)
  }

  predicate Awaited(s: State, pid: int) {
    exists t :: t in s.waiters && s.waiters[t].info.pid == pid
  }

  /** A new child does not get a pid that a start still waits for. */
  predicate NotReused(s: State, op: Op) {
    op.Begin? && op.clone.Some? ==> !Awaited(s, op.clone.value)
  }

  lemma OwnAfterExit(s: State, t: State, id: string, pid: int, c: Info)
    requires OwnChildren(s) && RunsPid(s, id, pid) && t.records == s.records[id := c]
    requires t.children == Reap(s.children, pid)
    requires forall k :: k in t.waiters ==> k in s.waiters && t.waiters[k] == s.waiters[k]
    ensures OwnChildren(t)
  {
    ChildrenAfterReap(s, t, pid);
  }

  lemma OwnAfterIdle(s: State, t: State)
    requires OwnChildren(s) && t.children == s.children
    requires forall id, pid :: RunsPid(t, id, pid) <==> RunsPid(s, id, pid)
    requires forall k :: k in t.waiters ==> k in s.waiters && t.waiters[k] == s.waiters[k]
    ensures OwnChildren(t)
  {}

  lemma OwnAfterClone(s: State, t: State, c: Child)
    requires OwnChildren(s) && t.children == s.children + [c] && c.waits == 0 && !Awaited(s, c.pid)
    requires forall a, p :: RunsPid(s, a, p) ==> RunsPid(t, a, p)
    requires forall k :: k in t.waiters ==> (k in s.waiters && t.waiters[k] == s.waiters[k])
                                            || (t.waiters[k].info.pid == c.pid && RunsPid(t, t.waiters[k].id, c.pid))
    ensures OwnChildren(t)
  {
    ChildrenAfterClone(s, t, c);
    forall k | k in t.waiters && Unreaped(t.children, t.waiters[k].info.pid)
      ensures RunsPid(t, t.waiters[k].id, t.waiters[k].info.pid)
    {
      assert k in s.waiters && s.waiters[k].info.pid == c.pid ==> Awaited(s, c.pid);
    }
  }

  lemma BeginKeepsOwn(s: State, op: Op, c: Info)
    requires op.Begin? && OwnChildren(s) && NotReused(s, op)
    requires op.id in s.records && c.state == s.records[op.id].state
    ensures OwnChildren(BeginFrom(s, op, c).0)
  {
    if c.state != RUNNING && op.clone.Some? {
      OwnAfterClone(s, BeginFrom(s, op, c).0, Child(op.clone.value, 0, !op.writeOk));
    }
  }

  lemma StopKeepsOwn(s: State, op: Op, c: Info)
    requires op.Stop? && OwnChildren(s) && Conserved(s) && Safe(s, op)
    requires op.id in s.records && c.state == s.records[op.id].state && c.pid == s.records[op.id].pid
    ensures OwnChildren(StopFrom(s, op, c).0)
  {
    if Running(s, op.id) && op.killOk && op.waitOk {
      RunningCanBeReaped(s, op.id);
      OwnAfterExit(s, StopFrom(s, op, c).0, op.id, c.pid, Exited(c, op.status, op.now));
    }
  }

  lemma EndKeepsOwn(s: State, op: Op)
    requires op.End? && OwnChildren(s) && Safe(s, op)
    ensures OwnChildren(StepEnd(s, op).0)
  {
    if op.ticket in s.waiters {
      var w := s.waiters[op.ticket];
      if Reaps(s, op) {
        OwnAfterExit(s, StepEnd(s, op).0, w.id, w.info.pid, Exited(w.info, op.status, op.now));
      } else {
        OwnAfterIdle(s, StepEnd(s, op).0);
      }
    }
  }

  lemma StepKeepsOwn(s: State, op: Op)
    requires AllTidy(s) && Conserved(s) && OwnChildren(s) && Safe(s, op) && NotReused(s, op)
    ensures OwnChildren(Step(s, op).0)
  {
    match op {
      case Create(_, _, _, _) => OwnAfterIdle(s, StepCreate(s, op).0);
      case Begin(id, _, _, _, _) =>
        if id in s.records {
          ReadBackReadsAs(s.records[id]);
          BeginKeepsOwn(s, op, ReadBack(s.records[id]));
        }
      case End(_, _, _, _, _) => EndKeepsOwn(s, op);
      case Stop(id, _, _, _, _, _) =>
        if id in s.records {
          ReadBackReadsAs(s.records[id]);
          StopKeepsOwn(s, op, ReadBack(s.records[id]));
        }
      case Remove(_, _, _, _, _) =>
        RemoveSparesRunning(s, op);
        OwnAfterIdle(s, StepRemove(s, op).0);
    }
  }

  /** As `Safe`, without asking whose child a finishing start reaps. */
  predicate Checked(s: State, op: Op) {
    if op.End? && op.ticket in s.waiters && Reaps(s, op) then op.writeOk else Safe(s, op)
  }

  /** Checked steps, and pids that are not reused while a start waits for them. */
  ghost predicate CheckedRun(s: State, ops: seq<Op>)
    decreases |ops|
  {
    ops != [] ==> Checked(s, ops[0]) && NotReused(s, ops[0]) && CheckedRun(Step(s, ops[0]).0, ops[1..])
  }

  /** Without reuse of awaited pids every finishing start that reaps reaps its own child. */
  lemma {:induction false} OwnChildrenAreReaped(s: State, ops: seq<Op>)
    requires AllTidy(s) && Conserved(s) && DistinctPids(s.children) && OwnChildren(s)
    requires PidsFresh(s, ops) && CheckedRun(s, ops)
    ensures SafeRun(s, ops)
    decreases |ops|
  {
    if ops == [] {
    } else {
      StepConserves(s, ops[0]);
      StepKeepsPids(s, ops[0]);
      StepKeepsTidy(s, ops[0]);
      StepKeepsOwn(s, ops[0]);
      OwnChildrenAreReaped(Step(s, ops[0]).0, ops[1..]);
    }
  }

  // ----- creates in different seconds -----

  /** The id was made in a second before `since`. */
  ghost predicate MadeBefore(id: string, since: nat) {
    exists t: Time :: t < since && id == ContainerId(t)
  }

  ghost predicate KnownIds(s: State, since: nat) {
    && (forall id :: id in s.records ==> MadeBefore(id, since))
    && (forall w :: w in s.waiters ==> MadeBefore(s.waiters[w].id, since))
  }

  /** Each create comes in a later second than those before it; the other steps are safe. */
  ghost predicate SafeWithSeconds(s: State, ops: seq<Op>, since: nat)
    decreases |ops|
  {
    ops != [] ==>
      && (if ops[0].Create? then since <= ops[0].idTime else Safe(s, ops[0]))
      && SafeWithSeconds(Step(s, ops[0]).0, ops[1..], NextSecond(ops[0], since))
  }

  function NextSecond(op: Op, since: nat): nat {
    if op.Create? then op.idTime + 1 else since
  }

  lemma LaterIdIsNew(id: string, since: nat, idTime: Time)
    requires MadeBefore(id, since) && since <= idTime
    ensures id != ContainerId(idTime)
  {
    var t: Time :| t < since && id == ContainerId(t);
    DistinctSecondsDistinctIds(t, idTime);
  }

  lemma KnownLater(s: State, since: nat, later: nat)
    requires KnownIds(s, since) && since <= later
    ensures KnownIds(s, later)
  {
    forall id | MadeBefore(id, since)
      ensures MadeBefore(id, later)
    {
      var t: Time :| t < since && id == ContainerId(t);
      assert t < later;
    }
  }

  lemma PutKnown(s: State, id: string, c: Info, since: nat)
    requires KnownIds(s, since) && MadeBefore(id, since)
    ensures KnownIds(s.(records := s.records[id := c]), since)
  {}

  lemma CreateKnowsIds(s: State, op: Op, since: nat)
    requires op.Create? && KnownIds(s, since) && since <= op.idTime
    ensures KnownIds(StepCreate(s, op).0, op.idTime + 1) && ContainerId(op.idTime) !in s.records
  {
    var id := ContainerId(op.idTime);
    if id in s.records {
      LaterIdIsNew(id, since, op.idTime);
    }
    KnownLater(s, since, op.idTime + 1);
    assert MadeBefore(id, op.idTime + 1);
    PutKnown(s, id, NewRecord(op.args, op.idTime, op.now), op.idTime + 1);
  }

  lemma StepKnowsIds(s: State, op: Op, since: nat)
    requires KnownIds(s, since) && (if op.Create? then since <= op.idTime else Safe(s, op))
    ensures KnownIds(Step(s, op).0, NextSecond(op, since)) && Safe(s, op)
  {
    if op.Create? {
      CreateKnowsIds(s, op, since);
    } else {
      OldIds(s, op);
    }
  }

  /** No create is unsafe when each comes in a later second than those before it. */
  lemma {:induction false} LaterSecondsAreSafe(s: State, ops: seq<Op>, since: nat)
    requires KnownIds(s, since) && SafeWithSeconds(s, ops, since)
    ensures SafeRun(s, ops)
    decreases |ops|
  {
    if ops == [] {
    } else {
      StepKnowsIds(s, ops[0], since);
      LaterSecondsAreSafe(Step(s, ops[0]).0, ops[1..], NextSecond(ops[0], since));
    }
  }

  // ----- runs that lose no child -----

  /** A create in a later second than those before it, or any other step as `Checked`. */
  predicate Careful(s: State, op: Op, since: nat) {
    if op.Create? then since <= op.idTime else Checked(s, op)
  }

  ghost predicate CarefulRun(s: State, ops: seq<Op>, since: nat)
    decreases |ops|
  {
    ops != [] ==>
      && Careful(s, ops[0], since) && NotReused(s, ops[0])
      && CarefulRun(Step(s, ops[0]).0, ops[1..], NextSecond(ops[0], since))
  }

  lemma {:induction false} CarefulRunsAreSafe(s: State, ops: seq<Op>, since: nat)
    requires AllTidy(s) && Conserved(s) && DistinctPids(s.children) && OwnChildren(s) && KnownIds(s, since)
    requires PidsFresh(s, ops) && CarefulRun(s, ops, since)
    ensures SafeRun(s, ops)
    decreases |ops|
  {
    if ops == [] {
    } else {
      CarefulIsSafe(s, ops[0], since);
      StepKnowsIds(s, ops[0], since);
      StepConserves(s, ops[0]);
      StepKeepsPids(s, ops[0]);
      StepKeepsTidy(s, ops[0]);
      StepKeepsOwn(s, ops[0]);
      CarefulRunsAreSafe(Step(s, ops[0]).0, ops[1..], NextSecond(ops[0], since));
    }
  }

  lemma CarefulIsSafe(s: State, op: Op, since: nat)
    requires OwnChildren(s) && KnownIds(s, since) && Careful(s, op, since)
    ensures Safe(s, op)
  {
    if op.Create? {
      CreateKnowsIds(s, op, since);
    }
  }

  /** From the empty store, along careful steps, every child is accounted for. */
  lemma CarefulRunsLoseNoChild(ops: seq<Op>)
    requires PidsFresh(INITIAL, ops) && CarefulRun(INITIAL, ops, 0)
    ensures var s := Run(INITIAL, ops); forall c :: c in s.children ==> AccountedIn(s, c)
  {
    CarefulRunsAreSafe(INITIAL, ops, 0);
    EveryChildAccountedFor(ops);
  }

  /** The waits of waiting starts and the writes of their ends and of stops succeed; creates come in later seconds. */
  predicate Smooth(s: State, op: Op, since: nat) {
    match op
    case Create(_, idTime, _, _) => since <= idTime
    case End(ticket, _, _, _, writeOk) => ticket in s.waiters ==> writeOk && Reaps(s, op)
    case Stop(_, _, _, _, _, writeOk) => writeOk
    case _ => true
  }

  ghost predicate SmoothRun(s: State, ops: seq<Op>, since: nat)
    decreases |ops|
  {
    ops != [] ==>
      && Smooth(s, ops[0], since) && NotReused(s, ops[0])
      && SmoothRun(Step(s, ops[0]).0, ops[1..], NextSecond(ops[0], since))
  }

  lemma {:induction false} SmoothRunsAreCareful(s: State, ops: seq<Op>, since: nat)
    requires SmoothRun(s, ops, since)
    ensures CarefulRun(s, ops, since)
    decreases |ops|
  {
    if ops == [] {
    } else {
      SmoothRunsAreCareful(Step(s, ops[0]).0, ops[1..], NextSecond(ops[0], since));
    }
  }

  /** Waits and final writes succeed, seconds differ and no awaited pid is reused: every child is accounted for. */
  lemma SmoothRunsLoseNoChild(ops: seq<Op>)
    requires PidsFresh(INITIAL, ops) && SmoothRun(INITIAL, ops, 0)
    ensures var s := Run(INITIAL, ops); forall c :: c in s.children ==> AccountedIn(s, c)
  {
    SmoothRunsAreCareful(INITIAL, ops, 0);
    CarefulRunsLoseNoChild(ops);
  }

  // ----- a run that loses a child -----

  /** One stored container, which a start that is still waiting runs as its first child. */
  ghost predicate FirstRunning(s: State, id: string) {
    && AllTidy(s) && s.records.Keys == {id} && s.records[id].state == RUNNING
    && s.records[id].pid == 10 && s.records[id].detach == 0 && s.children == [Child(10, 0, false)]
    && 0 in s.waiters && s.waiters[0].id == id && s.waiters[0].info.pid == 10
  }

  /** A start still waiting for a child that a stop has already reaped. */
  ghost predicate Overtaken(s: State, id: string) {
    && AllTidy(s) && s.records.Keys == {id} && s.records[id].state == EXITED && s.records[id].detach == 0
    && s.children == [Child(10, 1, false)]
    && 0 in s.waiters && s.waiters[0].id == id && s.waiters[0].info.pid == 10
  }

  lemma FirstStart(s: State, id: string, now: Time, d: Info)
    requires s.records.Keys == {id} && s.children == [] && AllTidy(s)
    requires s.records[id].state == CREATED && s.records[id].detach == 0 && ReadsAs(s.records[id], d)
    ensures FirstRunning(BeginFrom(s, Begin(id, 0, now, Some(10), true), d).0, id)
  {
    BeginKeepsTidy(s, Begin(id, 0, now, Some(10), true), d);
  }

  lemma FirstStop(s: State, id: string, now: Time, d: Info)
    requires FirstRunning(s, id) && ReadsAs(s.records[id], d)
    ensures Overtaken(StopFrom(s, Stop(id, now, true, true, 0, true), d).0, id)
  {
    StopKeepsTidy(s, Stop(id, now, true, true, 0, true), d);
    assert s.children[0].pid == 10 && s.children[0].waits == 0;
    assert Reap(s.children, 10) == [Child(10, 1, false)];
  }

  lemma SecondStart(s: State, id: string, now: Time, later: Time, d: Info)
    requires Overtaken(s, id) && ReadsAs(s.records[id], d)
    ensures !Conserved(StepEnd(BeginFrom(s, Begin(id, 1, now, Some(11), true), d).0, End(0, later, false, 0, true)).0)
  {
    var t := BeginFrom(s, Begin(id, 1, now, Some(11), true), d).0;
    assert t.children == [Child(10, 1, false), Child(11, 0, false)] && t.waiters[0] == s.waiters[0];
    var u := StepEnd(t, End(0, later, false, 0, true)).0;
    assert u.records[id].state == EXITED && u.records.Keys == {id} && u.children == t.children;
    assert Alive(u.children[1]) && HasChild(u, 11);
    assert forall a :: !RunsPid(u, a, 11);
  }

  lemma RunCons(s: State, op: Op, ops: seq<Op>)
    ensures Run(s, [op] + ops) == Run(Step(s, op).0, ops)
  {
    assert ([op] + ops)[1..] == ops;
  }

  lemma RunTwo(s: State, a: Op, b: Op)
    ensures Run(s, [a] + [b]) == Step(Step(s, a).0, b).0
  {
    RunCons(s, a, [b]);
    RunCons(Step(s, a).0, b, []);
    assert [b] + [] == [b];
  }

  lemma OneByOne<T>(a: T, b: T, c: T, d: T, e: T)
    ensures [a, b, c, d, e] == [a] + ([b] + ([c] + ([d] + [e])))
  {}

  lemma OrphanedByRestart(s: State, id: string, b: Op, e: Op)
    requires Overtaken(s, id) && b == Begin(id, 1, 4, Some(11), true) && e == End(0, 5, false, 0, true)
    ensures !Conserved(Run(s, [b] + [e]))
  {
    ReadBackReadsAs(s.records[id]);
    SecondStart(s, id, 4, 5, ReadBack(s.records[id]));
    RunTwo(s, b, e);
  }

  lemma OrphanedAfterStop(s: State, id: string, p: Op, more: seq<Op>)
    requires FirstRunning(s, id) && p == Stop(id, 3, true, true, 0, true)
    requires forall t :: Overtaken(t, id) ==> !Conserved(Run(t, more))
    ensures !Conserved(Run(s, [p] + more))
  {
    ReadBackReadsAs(s.records[id]);
    FirstStop(s, id, 3, ReadBack(s.records[id]));
    RunCons(s, p, more);
  }

  lemma OrphanedAfterStart(s: State, id: string, b: Op, more: seq<Op>)
    requires s.records.Keys == {id} && s.children == [] && AllTidy(s)
    requires s.records[id].state == CREATED && s.records[id].detach == 0 && b == Begin(id, 0, 2, Some(10), true)
    requires forall t :: FirstRunning(t, id) ==> !Conserved(Run(t, more))
    ensures !Conserved(Run(s, [b] + more))
  {
    ReadBackReadsAs(s.records[id]);
    FirstStart(s, id, 2, ReadBack(s.records[id]));
    RunCons(s, b, more);
  }

  /**
   A run that loses a child: a waiting start, a stop that reaps its child, a
   second start, and then the first start finishing with a failed wait, which
   marks the running container EXITED. The second child is left without a record.
   */
  lemma OverlappingStartsOrphanAChild(args: CreateArgs)
    requires args.detach == 0
    ensures var id := ContainerId(1);
            !Conserved(Run(INITIAL,
              [Create(args, 1, 1, true), Begin(id, 0, 2, Some(10), true), Stop(id, 3, true, true, 0, true),
               Begin(id, 1, 4, Some(11), true), End(0, 5, false, 0, true)]))
  {
    var id := ContainerId(1);
    var c, b1, p := Create(args, 1, 1, true), Begin(id, 0, 2, Some(10), true), Stop(id, 3, true, true, 0, true);
    var b2, e := Begin(id, 1, 4, Some(11), true), End(0, 5, false, 0, true);
    forall t | Overtaken(t, id)
      ensures !Conserved(Run(t, [b2] + [e]))
    {
      OrphanedByRestart(t, id, b2, e);
    }
    forall t | FirstRunning(t, id)
      ensures !Conserved(Run(t, [p] + ([b2] + [e])))
    {
      OrphanedAfterStop(t, id, p, [b2] + [e]);
    }
    var s := StepCreate(INITIAL, c).0;
    CreateKeepsTidy(INITIAL, c);
    assert s.records.Keys == {id};
    OrphanedAfterStart(s, id, b1, [p] + ([b2] + [e]));
    RunCons(INITIAL, c, [b1] + ([p] + ([b2] + [e])));
    OneByOne(c, b1, p, b2, e);
  }
}
