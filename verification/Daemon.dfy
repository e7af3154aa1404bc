/** The container functions as they run, over the daemon's records and children. */
module Daemon {
  import opened CText
  import opened ContainerMetadata
  import opened ContainerReader
  import opened KeyedLines
  import opened Ids
  import opened Lifecycle

  // ----- listing -----

  /** What one directory entry contributes: the id whose record is read. */
  function EntryId(records: map<string, Info>, entry: string): Option<string> {
    if !Contains(entry, ".json") then None
    else
      match Stem(entry)
      case None => None
      case Some(id) => if id in records then Some(id) else None
  }

  function Found(records: map<string, Info>, entries: seq<string>): (ids: seq<string>)
    ensures forall id :: id in ids ==> id in records
  {
    if entries == [] then []
    else
      var n := |entries| - 1;
      Found(records, entries[..n]) +
      match EntryId(records, entries[n]) case None => [] case Some(id) => [id]
  }

  /** The records under these ids, as they are read. */
  function Listed(records: map<string, Info>, ids: seq<string>): (list: seq<Info>)
    requires forall id :: id in ids ==> id in records
    ensures |list| == |ids| && forall i :: 0 <= i < |ids| ==> list[i] == ReadBack(records[ids[i]])
  {
    seq(|ids|, i requires 0 <= i < |ids| => ReadBack(records[ids[i]]))
  }

  lemma ListedOne(records: map<string, Info>, ids: seq<string>, id: string)
    requires (forall k :: k in ids ==> k in records) && id in records
    ensures (forall k :: k in ids + [id] ==> k in records)
    ensures Listed(records, ids + [id]) == Listed(records, ids) + Listed(records, [id])
  {}

  function JsonCount(entries: seq<string>): nat {
    if entries == [] then 0
    else
      var n := |entries| - 1;
      JsonCount(entries[..n]) + if Contains(entries[n], ".json") then 1 else 0
  }

  lemma {:induction false} FoundBelowCount(records: map<string, Info>, entries: seq<string>)
    ensures |Found(records, entries)| <= JsonCount(entries)
  {
    if entries == [] {
    } else {
      FoundBelowCount(records, entries[..|entries| - 1]);
    }
  }

  predicate Distinct(s: seq<string>) {
    forall i, j :: 0 <= i < j < |s| ==> s[i] != s[j]
  }

  lemma DistinctAppend(s: seq<string>, x: string)
    requires Distinct(s) && x !in s
    ensures Distinct(s + [x])
  {
    assert forall i :: 0 <= i < |s| ==> s[i] in s;
  }

  lemma {:induction false} CountGrows(entries: seq<string>, n: nat)
    requires n <= |entries|
    ensures JsonCount(entries[..n]) <= JsonCount(entries)
  {
    if n == |entries| {
      assert entries[..n] == entries;
    } else {
      var init := entries[..|entries| - 1];
      assert init[..n] == entries[..n];
      CountGrows(init, n);
    }
  }

  /** One more entry, and still no more records than were counted. */
  lemma FoundStep(records: map<string, Info>, entries: seq<string>, i: nat)
    requires i < |entries|
    ensures Found(records, entries[..i + 1])
            == Found(records, entries[..i]) +
               match EntryId(records, entries[i]) case None => [] case Some(id) => [id]
    ensures |Found(records, entries[..i + 1])| <= JsonCount(entries)
  {
    assert entries[..i + 1][..i] == entries[..i];
    FoundBelowCount(records, entries[..i + 1]);
    CountGrows(entries, i + 1);
  }

  /** The entry is the metadata file of a stored container with a generated id. */
  ghost predicate RecordEntry(records: map<string, Info>, entry: string) {
    exists t: nat :: ContainerId(t) in records && entry == ContainerId(t) + ".json"
  }

  lemma EntryOfRecord(records: map<string, Info>, entry: string)
    requires RecordEntry(records, entry) || entry == "." || entry == ".."
    ensures RecordEntry(records, entry) ==>
              EntryId(records, entry).Some? && entry == EntryId(records, entry).value + ".json"
    ensures !RecordEntry(records, entry) ==> EntryId(records, entry).None?
  {
    if t: nat :| ContainerId(t) in records && entry == ContainerId(t) + ".json" {
      IdSurvivesFileName(t);
    }
  }

  predicate OnlyRecords(records: map<string, Info>, entries: seq<string>) {
    forall e :: e in entries && EntryId(records, e).Some? ==> e == EntryId(records, e).value + ".json"
  }

  /** No record is found twice, and each is found through its own file. */
  lemma {:induction false} FoundOnce(records: map<string, Info>, entries: seq<string>)
    requires Distinct(entries) && OnlyRecords(records, entries)
    ensures Distinct(Found(records, entries))
    ensures forall id :: id in Found(records, entries) ==> id + ".json" in entries
  {
    if entries == [] {
    } else {
      var n := |entries| - 1;
      var init, last := entries[..n], entries[n];
      var ids := Found(records, init);
      FoundOnce(records, init);
      match EntryId(records, last) {
        case None =>
          assert Found(records, entries) == ids + [] == ids;
        case Some(id) =>
          assert last in entries && last !in init;
          assert id !in ids;
          DistinctAppend(ids, id);
      }
    }
  }

  /** Each file of a record is found. */
  lemma {:induction false} FoundAll(records: map<string, Info>, entries: seq<string>, i: nat)
    requires i < |entries| && EntryId(records, entries[i]).Some?
    ensures EntryId(records, entries[i]).value in Found(records, entries)
  {
    var n := |entries| - 1;
    if i == n {
    } else {
      FoundAll(records, entries[..n], i);
    }
  }

  /**
   With one file per stored container, all ids generated, the listing reads
   exactly one record for each container.
   */
  lemma ListingIsComplete(records: map<string, Info>, entries: seq<string>)
    requires Distinct(entries)
    requires forall e :: e in entries ==> RecordEntry(records, e) || e == "." || e == ".."
    requires forall id :: id in records ==> (exists t: nat :: id == ContainerId(t)) && id + ".json" in entries
    ensures var ids := Found(records, entries);
            && Distinct(ids)
            && (forall id :: id in ids <==> id in records)
  {
    forall e | e in entries
      ensures EntryId(records, e).Some? ==> e == EntryId(records, e).value + ".json"
    {
      EntryOfRecord(records, e);
    }
    FoundOnce(records, entries);
    forall id | id in records
      ensures id in Found(records, entries)
    {
      var t: nat :| id == ContainerId(t);
      var e := id + ".json";
      assert RecordEntry(records, e);
      EntryOfRecord(records, e);
      var i :| 0 <= i < |entries| && entries[i] == e;
      FoundAll(records, entries, i);
      SameStem(id, EntryId(records, e).value, ".json");
    }
  }

  /** One file per stored container, and the two entries every directory has. */
  ghost predicate IsListing(records: map<string, Info>, entries: seq<string>) {
    && Distinct(entries)
    && (forall e :: e in entries ==> e == "." || e == ".." || exists id :: id in records && e == id + ".json")
    && (forall id :: id in records ==> id + ".json" in entries)
  }

  /** After any run from the empty store the listing reads exactly one record for each container. */
  lemma ListingAfterRun(ops: seq<Op>, entries: seq<string>)
    requires IsListing(Run(INITIAL, ops).records, entries)
    ensures var ids := Found(Run(INITIAL, ops).records, entries);
            Distinct(ids) && forall id :: id in ids <==> id in Run(INITIAL, ops).records
  {
    var records := Run(INITIAL, ops).records;
    RunKeepsGenerated(INITIAL, ops);
    forall id | id in records
      ensures exists t: nat :: id == ContainerId(t)
    {
      assert Generated(id);
    }
    forall e | e in entries
      ensures RecordEntry(records, e) || e == "." || e == ".."
    {
      if id :| id in records && e == id + ".json" {
        assert Generated(id);
      }
    }
    ListingIsComplete(records, entries);
  }

  lemma EndInside(name: string, end: string, rest: string)
    ensures Contains(name + end + rest, end)
  {
    assert (name + end + rest)[|name|..|name| + |end|] == end;
    assert At(name + end + rest, end, |name|);
  }

  lemma StemInFront(name: string, end: string, rest: string)
    requires name != "" && '.' !in name && end != "" && end[0] == '.'
    ensures Stem(name + end + rest) == Some(name)
  {
    StemBeforeDot(name, end[1..] + rest);
    assert name + end + rest == name + "." + (end[1..] + rest);
  }

  /** Any other file whose name goes on behind `<id>.json` is read as that container, too. */
  lemma BackupIsListed(records: map<string, Info>, t: Time, rest: string)
    requires ContainerId(t) in records
    ensures EntryId(records, ContainerId(t) + ".json" + rest) == Some(ContainerId(t))
  {
    var id := ContainerId(t);
    assert '.' !in id;
    EndInside(id, ".json", rest);
    StemInFront(id, ".json", rest);
  }

  lemma OwnFileIsFound(records: map<string, Info>, id: string)
    requires id in records && Generated(id)
    ensures EntryId(records, id + ".json") == Some(id)
  {
    var t: Time :| id == ContainerId(t);
    BackupIsListed(records, t, "");
    assert id + ".json" + "" == id + ".json";
  }

  function Origins(records: map<string, Info>, entries: seq<string>): (os: seq<Option<string>>)
    ensures |os| == |entries| && forall i :: 0 <= i < |os| ==> os[i] == EntryId(records, entries[i])
  {
    seq(|entries|, i requires 0 <= i < |entries| => EntryId(records, entries[i]))
  }

  function Collected(os: seq<Option<string>>): seq<string> {
    if os == [] then []
    else Collected(os[..|os| - 1]) + match os[|os| - 1] case None => [] case Some(id) => [id]
  }

  lemma {:induction false} FoundIsCollected(records: map<string, Info>, entries: seq<string>)
    ensures Found(records, entries) == Collected(Origins(records, entries))
  {
    if entries == [] {
    } else {
      var n := |entries| - 1;
      FoundIsCollected(records, entries[..n]);
      assert Origins(records, entries)[..n] == Origins(records, entries[..n]);
    }
  }

  lemma {:induction false} AllCollected(os: seq<Option<string>>, ids: seq<string>)
    requires |os| == |ids| && forall i :: 0 <= i < |os| ==> os[i] == Some(ids[i])
    ensures Collected(os) == ids
  {
    if os == [] {
    } else {
      var n := |os| - 1;
      AllCollected(os[..n], ids[..n]);
      assert ids == ids[..n] + [ids[n]];
    }
  }

  /** The listing keeps the order of the directory. */
  lemma ListingKeepsOrder(records: map<string, Info>, entries: seq<string>, ids: seq<string>)
    requires |entries| == |ids| && forall i :: 0 <= i < |ids| ==> entries[i] == ids[i] + ".json"
    requires forall i :: 0 <= i < |ids| ==> ids[i] in records && Generated(ids[i])
    ensures Found(records, entries) == ids
  {
    var os := Origins(records, entries);
    forall i | 0 <= i < |ids|
      ensures os[i] == Some(ids[i])
    {
      OwnFileIsFound(records, ids[i]);
    }
    FoundIsCollected(records, entries);
    AllCollected(os, ids);
  }

  lemma SameStem(a: string, b: string, end: string)
    requires a + end == b + end
    ensures a == b
  {
    assert |a| == |b| && a == (a + end)[..|a|] && b == (b + end)[..|b|];
  }

  // ----- the daemon -----

  class Daemon {
    var records: map<string, Info>
    var children: seq<Child>
    var waiters: map<nat, Waiter>

    function Snapshot(): State
      reads this
    {
      State(records, children, waiters)
    }

    constructor ()
      ensures Snapshot() == INITIAL
    {
      records, children, waiters := map[], [], map[];
    }

    /** A stored record as `read_container_metadata` returns it. */
    method ReadRecord(id: string) returns (container: Info)
      requires id in records
      ensures container == ReadBack(records[id])
    {
      var text := WriteText(records[id]);
      var reader := new ContainerRecord();
      var _ := reader.ReadContainerMetadata(Some(text));
      ReadIntoBlank(records[id], text, reader.Snapshot());
      container := WithView(records[id], reader.Snapshot());
    }

    /** `create_container`; `ok` says whether the directories and the metadata file could be made. */
    method CreateContainer(args: CreateArgs, idTime: Time, now: Time, ok: bool) returns (r: bool)
      modifies this
      ensures (Snapshot(), r) == Step(old(Snapshot()), Create(args, idTime, now, ok))
    {
      if !ok {
        return false;
      }
      var container := NewRecord(args, idTime, now);
      records := records[container.id := container];
      return true;
    }

    /** `start_container` up to its return or its wait. */
    method BeginStart(id: string, ticket: nat, now: Time, clone: Option<Int32>, writeOk: bool)
      returns (r: bool, waits: bool)
      modifies this
      ensures (Snapshot(), r) == Step(old(Snapshot()), Begin(id, ticket, now, clone, writeOk))
      ensures waits <==> r && old(id in records && records[id].detach == 0)
    {
      if id !in records {
        return false, false;
      }
      var container := ReadRecord(id);
      ghost var s, op := Snapshot(), Begin(id, ticket, now, clone, writeOk);
      assert Step(s, op) == BeginFrom(s, op, container);
      if container.state == RUNNING {
        return false, false;
      }
      if clone.None? {
        return false, false;
      }
      var pid := clone.value;
      children := children + [Child(pid, 0, false)];
      container := Started(container, pid, now);
      if !writeOk {
        children := children[|children| - 1 := Child(pid, 0, true)];  // kill(child_pid, SIGKILL)
        assert children == old(children) + [Child(pid, 0, true)];
        return false, false;
      }
      records := records[id := container];
      if container.detach != 0 {
        return true, false;
      }
      waiters := waiters[ticket := Waiter(id, container)];
      return true, true;
    }

    /** After the wait. */
    method FinishStart(ticket: nat, now: Time, waitOk: bool, status: Int32, writeOk: bool) returns (r: bool)
      modifies this
      ensures (Snapshot(), r) == Step(old(Snapshot()), End(ticket, now, waitOk, status, writeOk))
    {
      if ticket !in waiters {
        return false;
      }
      var w := waiters[ticket];
      if waitOk && Unreaped(children, w.info.pid) {
        children := Reap(children, w.info.pid);
      }
      if writeOk {
        records := records[w.id := Exited(w.info, status, now)];
      }
      waiters := waiters - {ticket};
      return true;
    }

    /** `start_container` when nothing comes in between. */
    method StartContainer(id: string, ticket: nat, now: Time, clone: Option<Int32>, writeOk: bool,
                          later: Time, waitOk: bool, status: Int32, endWriteOk: bool)
      returns (r: bool)
      modifies this
      ensures var (begun, ok) := Step(old(Snapshot()), Begin(id, ticket, now, clone, writeOk));
              && r == ok
              && Snapshot() == if ok && old(id in records && records[id].detach == 0) then
                                 Step(begun, End(ticket, later, waitOk, status, endWriteOk)).0
                               else begun
    {
      var waits;
      r, waits := BeginStart(id, ticket, now, clone, writeOk);
      if waits {
        var _ := FinishStart(ticket, later, waitOk, status, endWriteOk);
      }
    }

    method StopContainer(id: string, now: Time, killOk: bool, waitOk: bool, status: Int32, writeOk: bool)
      returns (r: bool)
      modifies this
      ensures (Snapshot(), r) == Step(old(Snapshot()), Stop(id, now, killOk, waitOk, status, writeOk))
    {
      if id !in records {
        return false;
      }
      var container := ReadRecord(id);
      ghost var s, op := Snapshot(), Stop(id, now, killOk, waitOk, status, writeOk);
      assert Step(s, op) == StopFrom(s, op, container);
      if container.state != RUNNING || !killOk {
        return false;
      }
      if !waitOk || !Unreaped(children, container.pid) {
        return false;
      }
      children := Reap(children, container.pid);
      if !writeOk {
        return false;
      }
      records := records[id := Exited(container, status, now)];
      return true;
    }

    /** `restart_container`: a stop and, only if it succeeded, a start. */
    method RestartContainer(stop: Op, begin: Op) returns (r: bool, waits: bool)
      requires stop.Stop? && begin.Begin? && begin.id == stop.id
      modifies this
      ensures var (stopped, ok) := Step(old(Snapshot()), stop);
              if ok then (Snapshot(), r) == Step(stopped, begin) else Snapshot() == stopped && !r
    {
      waits := false;
      r := StopContainer(stop.id, stop.now, stop.killOk, stop.waitOk, stop.status, stop.writeOk);
      if r {
        r, waits := BeginStart(begin.id, begin.ticket, begin.now, begin.clone, begin.writeOk);
      }
    }

    method RemoveContainer(id: string, now: Time, dirOk: bool, unlinkOk: bool, logOk: bool) returns (r: bool)
      modifies this
      ensures (Snapshot(), r) == Step(old(Snapshot()), Remove(id, now, dirOk, unlinkOk, logOk))
    {
      if id !in records {
        return false;
      }
      var container := ReadRecord(id);
      if container.state == RUNNING {
        return false;
      }
      if !dirOk || !unlinkOk {
        return false;
      }
      records := records - {id};
      return logOk;
    }

    /** The first pass of `list_containers`. */
    method CountMetadataFiles(entries: seq<string>) returns (count: nat)
      ensures count == JsonCount(entries)
    {
      count := 0;
      for i := 0 to |entries|
        invariant count == JsonCount(entries[..i])
      {
        assert entries[..i + 1][..i] == entries[..i];
        if Contains(entries[i], ".json") {
          count := count + 1;
        }
      }
      assert entries[..|entries|] == entries;
    }

    /** The record of one entry of the listing. */
    method ReadListed(id: string) returns (container: Info)
      requires id in records
      ensures [container] == Listed(records, [id])
    {
      container := ReadRecord(id);
    }

    /** The second pass, into an array of the counted size. */
    method ReadRecords(entries: seq<string>, containers: array<Info>) returns (n: nat)
      requires containers.Length == JsonCount(entries)
      modifies containers
      ensures n <= containers.Length && containers[..n] == Listed(records, Found(records, entries))
    {
      n := 0;
      for i := 0 to |entries|
        invariant n <= containers.Length && containers[..n] == Listed(records, Found(records, entries[..i]))
      {
        ghost var ids, was := Found(records, entries[..i]), containers[..n];
        FoundStep(records, entries, i);
        var id := EntryId(records, entries[i]);
        if id.Some? {
          ListedOne(records, ids, id.value);
          var container := ReadListed(id.value);
          containers[n] := container;
          n := n + 1;
          assert containers[..n] == was + [container];
        } else {
          assert ids + [] == ids;
        }
      }
      assert entries[..|entries|] == entries;
    }

    /** `list_containers`: count the metadata files, then read them. */
    method ListContainers(entries: seq<string>) returns (list: seq<Info>)
      ensures list == Listed(records, Found(records, entries))
    {
      var count := CountMetadataFiles(entries);
      if count == 0 {
        FoundBelowCount(records, entries);
        return [];
      }
      var containers := new Info[count](_ => ZERO_INFO);
      var n := ReadRecords(entries, containers);
      return containers[..n];
    }
  }
}
