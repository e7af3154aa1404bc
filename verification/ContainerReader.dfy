/** The reader as it runs: a line loop over an `if`-`else if` chain that fills a record. */
module ContainerReader {
  import opened CText
  import opened KeyedLines
  import opened ContainerMetadata

  lemma DispatchIs(line: string, k: nat)
    requires k <= |SLOTS| && forall i :: 0 <= i < k ==> !Contains(line, Quoted(SLOTS[i].key))
    requires k < |SLOTS| ==> Contains(line, Quoted(SLOTS[k].key))
    ensures Dispatch(SLOTS, line) == k
  {}

  /** The chain of `strstr` tests. */
  method Branch(line: string) returns (k: nat)
    ensures k == Dispatch(SLOTS, line)
  {
    QuotedKeys();
    if Contains(line, "\"id\"") {
      k := 0;
    } else if Contains(line, "\"name\"") {
      k := 1;
    } else if Contains(line, "\"image\"") {
      k := 2;
    } else if Contains(line, "\"command\"") {
      k := 3;
    } else if Contains(line, "\"state\"") {
      k := 4;
    } else if Contains(line, "\"pid\"") {
      k := 5;
    } else if Contains(line, "\"created\"") {
      k := 6;
    } else if Contains(line, "\"started\"") {
      k := 7;
    } else if Contains(line, "\"finished\"") {
      k := 8;
    } else if Contains(line, "\"exit_code\"") {
      k := 9;
    } else {
      k := 10;
    }
    DispatchIs(line, k);
  }

  /** The fields of `container_info_t` that reading restores. */
  class ContainerRecord {
    var id: string
    var name: string
    var image: string
    var command: string
    var state: int
    var pid: int
    var created: string
    var started: string
    var finished: string
    var exitCode: int

    function Snapshot(): (r: seq<Value>)
      reads this
      ensures |r| == |SLOTS|
    {
      [Text(id), Text(name), Text(image), Text(command), Number(state), Number(pid),
       Text(created), Text(started), Text(finished), Number(exitCode)]
    }

    constructor ()
      ensures Snapshot() == View(ZERO_INFO)
    {
      id, name, image, command, state, pid := "", "", "", "", 0, 0;
      created, started, finished, exitCode := "", "", "", 0;
    }

    method Assign(k: nat, v: Value)
      requires k < |SLOTS| && v.Number? == SLOTS[k].numeric
      modifies this
      ensures Snapshot() == old(Snapshot())[k := v]
    {
      match k {
        case 0 => id := v.text;
        case 1 => name := v.text;
        case 2 => image := v.text;
        case 3 => command := v.text;
        case 4 => state := v.n;
        case 5 => pid := v.n;
        case 6 => created := v.text;
        case 7 => started := v.text;
        case 8 => finished := v.text;
        case _ => exitCode := v.n;
      }
    }

    /** One turn of the loop: the branch taken and its `sscanf`. */
    method AbsorbLine(line: string)
      modifies this
      ensures Snapshot() == Absorb(SLOTS, old(Snapshot()), line)
    {
      var k := Branch(line);
      if k < |SLOTS| {
        var v := Scan(SLOTS[k], line);
        if v.Some? {
          Assign(k, v.value);
        }
      }
    }

    /** `read_container_metadata`; the file is missing or has a text. */
    method ReadContainerMetadata(file: Option<string>) returns (ok: bool)
      modifies this
      ensures ok <==> file.Some?
      ensures Snapshot() ==
                if file.Some? then ReadText(SLOTS, old(Snapshot()), file.value, LINE_SIZE) else old(Snapshot())
    {
      if file.None? {
        return false;
      }
      var rest := file.value;
      ghost var lines := Lines(file.value, LINE_SIZE);
      ghost var n := 0;
      ghost var start := Snapshot();
      while rest != ""
        invariant n <= |lines| && Lines(rest, LINE_SIZE) == lines[n..]
        invariant Snapshot() == AbsorbAll(SLOTS, start, lines[..n])
        decreases |rest|
      {
        ReadingStep(SLOTS, start, lines, n, rest, LINE_SIZE);
        var taken := FgetsLength(rest, LINE_SIZE);
        AbsorbLine(CString(rest[..taken]));
        rest := rest[taken..];
        n := n + 1;
      }
      assert lines[..n] == lines;
      return true;
    }
  }

  lemma QuotedKeys()
    ensures Quoted(SLOTS[0].key) == "\"id\"" && Quoted(SLOTS[1].key) == "\"name\""
    ensures Quoted(SLOTS[2].key) == "\"image\"" && Quoted(SLOTS[3].key) == "\"command\""
    ensures Quoted(SLOTS[4].key) == "\"state\"" && Quoted(SLOTS[5].key) == "\"pid\""
    ensures Quoted(SLOTS[6].key) == "\"created\"" && Quoted(SLOTS[7].key) == "\"started\""
    ensures Quoted(SLOTS[8].key) == "\"finished\"" && Quoted(SLOTS[9].key) == "\"exit_code\""
  {}
}
