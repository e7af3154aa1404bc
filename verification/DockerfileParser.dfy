/** The parser as it runs: a line buffer trimmed in place, a doubling array, fields updated as lines come. */
module DockerfileParser {
  import opened CText
  import opened Dockerfile

  // ----- the line buffer -----

  lemma CStringStep(b: seq<char>, q: nat)
    requires q < |b|
    ensures CString(b[q..]) == if b[q] == '\0' then "" else [b[q]] + CString(b[q + 1..])
  {
    var s := b[q..];
    assert s[1..] == b[q + 1..];
    match Strchr(s[1..], '\0') {
      case None =>
      case Some(k) => assert s[..k + 1] == [s[0]] + s[1..][..k];
    }
  }

  /** One `fgets`. */
  method Fgets(buf: array<char>, rest: string) returns (n: nat)
    requires rest != "" && 2 <= buf.Length
    modifies buf
    ensures n == FgetsLength(rest, buf.Length)
    ensures '\0' in buf[..] && CString(buf[..]) == CString(rest[..n])
  {
    n := FgetsLength(rest, buf.Length);
    for i := 0 to n
      invariant buf[..i] == rest[..i]
    {
      buf[i] := rest[i];
    }
    buf[n] := '\0';
    CStringOfPrefix(rest[..n], buf[n + 1..]);
    assert buf[..] == rest[..n] + ['\0'] + buf[n + 1..];
  }

  lemma {:induction false} CStringOfPrefix(s: string, junk: string)
    ensures CString(s + ['\0'] + junk) == CString(s)
  {
    var t := s + ['\0'] + junk;
    if s == "" {
      assert t[0] == '\0';
    } else {
      assert t[1..] == s[1..] + ['\0'] + junk;
      CStringOfPrefix(s[1..], junk);
      CStringStep(t, 0);
      CStringStep(s, 0);
      assert t[0..] == t && s[0..] == s;
    }
  }

  /** A NUL written inside a C string cuts it there. */
  lemma CutAt(b: seq<char>, q: nat, n: nat)
    requires q + n < |b| && n <= |CString(b[q..])|
    ensures var c := b[q + n := '\0']; '\0' in c[q..] && CString(c[q..]) == CString(b[q..])[..n]
  {
    var kept := CString(b[q..])[..n];
    assert kept == b[q..][..n] && '\0' !in kept;
    var c := b[q + n := '\0'];
    assert c[q..] == kept + ['\0'] + b[q + n + 1..];
    BeforeStop(kept, '\0', b[q + n + 1..]);
    assert c[q..][n] == '\0';
  }

  /** Leading blanks: the start pointer moves. */
  method SkipBlanks(buf: array<char>, p: nat) returns (q: nat)
    requires p <= buf.Length && '\0' in buf[p..]
    ensures p <= q < buf.Length && '\0' in buf[q..]
    ensures CString(buf[q..]) == DropBlanks(CString(buf[p..]))
  {
    ghost var b := buf[..];
    q := p;
    assert b[p..] == buf[p..];
    while IsBlank(buf[q])
      invariant p <= q < buf.Length && '\0' in b[q..]
      invariant DropBlanks(CString(b[q..])) == DropBlanks(CString(b[p..]))
      decreases buf.Length - q
    {
      CStringStep(b, q);
      assert b[q..] == [b[q]] + b[q + 1..];
      q := q + 1;
    }
    CStringStep(b, q);
    assert b[q..] == buf[q..];
  }

  /** The last character that trimming keeps. */
  method LastKept(buf: array<char>, q: nat) returns (end: nat)
    requires q < buf.Length && CString(buf[q..]) != ""
    ensures q <= end < q + |CString(buf[q..])|
    ensures CString(buf[q..])[..end - q + 1] == DropTail(CString(buf[q..]))
  {
    ghost var t := CString(buf[q..]);
    assert t <= buf[q..];
    end := q + |CString(buf[q..])| - 1;
    assert t[..end - q + 1] == t;
    while q < end && IsTail(buf[end])
      invariant q <= end < q + |t|
      invariant DropTail(t[..end - q + 1]) == DropTail(t)
    {
      assert t[..end - q + 1][..end - q] == t[..end - q];
      assert t[end - q] == buf[q..][end - q];
      end := end - 1;
    }
    assert t[end - q] == buf[q..][end - q];
  }

  /** Trailing white space: a new terminator is written. */
  method CutTail(buf: array<char>, q: nat)
    requires q < buf.Length && '\0' in buf[q..] && buf[q] != '\0'
    modifies buf
    ensures '\0' in buf[q..] && buf[..q] == old(buf[..q])
    ensures CString(old(buf[q..])) != "" && CString(buf[q..]) == DropTail(CString(old(buf[q..])))
  {
    ghost var b := buf[..];
    assert b[q..] == buf[q..];
    CStringStep(b, q);
    var end := LastKept(buf, q);
    CutAt(b, q, end - q + 1);
    buf[end + 1] := '\0';
    assert buf[..] == b[end + 1 := '\0'];
    assert buf[..][q..] == buf[q..];
  }

  /** `trim_whitespace`: what is read from the returned pointer is the trimmed text. */
  method TrimWhitespace(buf: array<char>, p: nat) returns (q: nat)
    requires p <= buf.Length && '\0' in buf[p..]
    modifies buf
    ensures p <= q < buf.Length && '\0' in buf[q..]
    ensures CString(buf[q..]) == Trim(CString(old(buf[p..])))
    ensures buf[..q] == old(buf[..q])
  {
    q := SkipBlanks(buf, p);
    CStringStep(buf[..], q);
    assert buf[..][q..] == buf[q..];
    if buf[q] != '\0' {
      CutTail(buf, q);
    }
  }

  /** One line of the file: read into the buffer and trimmed there. */
  method ReadLine(buf: array<char>, rest: string) returns (taken: nat, trimmed: string)
    requires rest != "" && 2 <= buf.Length
    modifies buf
    ensures taken == FgetsLength(rest, buf.Length)
    ensures trimmed == Trim(CString(rest[..taken]))
  {
    taken := Fgets(buf, rest);
    assert buf[0..] == buf[..];
    var start := TrimWhitespace(buf, 0);
    trimmed := CString(buf[start..]);
  }

  // ----- the parsed file -----

  /** The capacity after `k` resizes. */
  function CapacityAfter(k: nat): nat {
    if k == 0 then 10 else 2 * CapacityAfter(k - 1)
  }

  class DockerfileInfo {
    var instructions: array<Instruction>
    var count: nat
    var capacity: nat
    var baseImage: string
    var workingDir: string
    var user: string
    var shell: string
    var entrypoint: string
    var cmd: string
    var envVars: seq<string>
    var exposedPorts: seq<string>
    var volumes: seq<string>
    var labels: seq<string>
    ghost var listing: seq<Instruction>  // the stored instructions
    ghost var resizes: nat
    ghost var moved: nat                 // elements carried over by all resizes so far

    ghost predicate Valid()
      reads this`instructions, this`count, this`capacity, this`listing, this`resizes, this`moved, instructions
    {
      && |listing| == count && (forall i :: 0 <= i < count && i < instructions.Length ==> instructions[i] == listing[i])
      && instructions.Length == capacity && count <= capacity == CapacityAfter(resizes)
      && moved == capacity - 10 && (capacity > 10 ==> capacity <= 2 * count)
    }

    function Fields(): Summary
      reads this`baseImage, this`workingDir, this`user, this`shell, this`entrypoint, this`cmd,
            this`envVars, this`exposedPorts, this`volumes, this`labels
    {
      Summary(baseImage, workingDir, user, shell, entrypoint, cmd, envVars, exposedPorts, volumes, labels)
    }

    constructor ()
      ensures Valid() && fresh(instructions)
      ensures listing == [] && Fields() == EMPTY_SUMMARY
    {
      instructions := new Instruction[10](_ => Instruction(Unknown, "", "", 0));
      count, capacity, listing, resizes, moved := 0, 10, [], 0, 0;
      baseImage, workingDir, user, shell, entrypoint, cmd := "", "", "", "", "", "";
      envVars, exposedPorts, volumes, labels := [], [], [], [];
    }

    /** `realloc` to twice the capacity, once the array is full. */
    method Grow(filler: Instruction)
      requires Valid() && count == capacity
      modifies this`instructions, this`capacity, this`resizes, this`moved
      ensures Valid() && fresh(instructions) && count < capacity
    {
      var grown := new Instruction[2 * capacity](_ => filler);
      for i := 0 to count
        modifies grown
        invariant forall k :: 0 <= k < i ==> grown[k] == listing[k]
      {
        grown[i] := instructions[i];
      }
      moved, resizes := moved + count, resizes + 1;
      instructions, capacity := grown, 2 * capacity;
    }

    /** Stores one instruction, doubling the array first when it is full. */
    method Append(instr: Instruction)
      requires Valid()
      modifies this`instructions, this`count, this`capacity, this`listing, this`resizes, this`moved, instructions
      ensures Valid() && (instructions == old(instructions) || fresh(instructions))
      ensures listing == old(listing) + [instr]
    {
      if capacity <= count {
        Grow(instr);
      }
      instructions[count] := instr;
      count, listing := count + 1, listing + [instr];
    }

    /** The per-kind summary fields. */
    method NoteInstruction(kind: Kind, args: string)
      modifies this`baseImage, this`workingDir, this`user, this`shell, this`entrypoint, this`cmd,
               this`envVars, this`exposedPorts, this`volumes, this`labels
      ensures Fields() == Note(old(Fields()), kind, args)
    {
      match kind {
        case From => baseImage := Cut(args, MAX_ARG);
        case Workdir => workingDir := Cut(args, MAX_ARG);
        case User => user := Cut(args, MAX_ARG);
        case Shell => shell := Cut(args, MAX_ARG);
        case Entrypoint => entrypoint := Cut(args, MAX_ARG);
        case Cmd => cmd := Cut(args, MAX_ARG);
        case Env =>
          if |envVars| < MAX_ENV {
            envVars := envVars + [args];
          }
        case Expose =>
          if |exposedPorts| < MAX_PORT {
            exposedPorts := exposedPorts + [args];
          }
        case Volume =>
          if |volumes| < MAX_VOLUME {
            volumes := volumes + [args];
          }
        case Label =>
          if |labels| < MAX_LABEL {
            labels := labels + [args];
          }
        case _ =>
      }
    }

    /** The record of exactly these directives. */
    ghost predicate Holds(ds: seq<Directive>)
      reads this, instructions
    {
      Valid() && listing == Stored(ds) && Fields() == Summarise(ds)
    }

    /** Array and summary after one more instruction. */
    method Record(kind: Kind, name: string, args: string, line: nat)
      requires Valid()
      modifies this, instructions
      ensures Valid() && (instructions == old(instructions) || fresh(instructions))
      ensures listing == old(listing) + [Instruction(kind, name, Cut(args, MAX_ARG), line)]
      ensures Fields() == Note(old(Fields()), kind, args)
    {
      Append(Instruction(kind, name, Cut(args, MAX_ARG), line));
      NoteInstruction(kind, args);
    }

    /** The rest of the loop body: recognise, store, summarise. */
    method TakeLine(trimmed: string, lineNumber: nat)
      requires Valid()
      modifies this, instructions
      ensures Valid() && (instructions == old(instructions) || fresh(instructions))
      ensures listing == old(listing) + Stored(Taken(trimmed, lineNumber))
      ensures Fields() == NoteAll(old(Fields()), Taken(trimmed, lineNumber))
    {
      var r := SplitInstruction(trimmed);
      TakenIs(trimmed, lineNumber);
      if r.None? {
        return;
      }
      var (kind, name, args) := r.value;
      Record(kind, name, args, lineNumber);
    }

    /** `validate_dockerfile`, with whether it printed its warning. */
    method Validate() returns (ok: bool, warned: bool)
      requires Valid()
      ensures ok <==> Accepted(listing)
      ensures warned <==> ok && (exists i :: 0 <= i < count && instructions[i].kind.Entrypoint?)
                             && (exists i :: 0 <= i < count && instructions[i].kind.Cmd?)
    {
      if count == 0 || instructions[0].kind != From {
        return false, false;
      }
      var hasEntrypoint, hasCmd := false, false;
      for i := 0 to count
        invariant hasEntrypoint <==> exists j :: 0 <= j < i && instructions[j].kind.Entrypoint?
        invariant hasCmd <==> exists j :: 0 <= j < i && instructions[j].kind.Cmd?
      {
        if instructions[i].kind.Entrypoint? {
          hasEntrypoint := true;
        }
        if instructions[i].kind.Cmd? {
          hasCmd := true;
        }
      }
      return true, hasEntrypoint && hasCmd;
    }
  }

  /** The directive on one trimmed line, if there is one. */
  function Taken(trimmed: string, lineNumber: nat): (ds: seq<Directive>)
    ensures |ds| <= 1
  {
    var c := Recognise(trimmed);
    if c.Valid? then [Directive(c.kind, c.args, lineNumber)] else []
  }

  /** Kind, keyword and arguments of a line, if it is an instruction. */
  function Words(trimmed: string): Option<(Kind, string, string)> {
    match Recognise(trimmed)
    case Valid(kind, args) => Some((kind, Keyword(kind), args))
    case _ => None
  }

  /** The first space, and the kind of the word before it. */
  method SplitInstruction(trimmed: string) returns (r: Option<(Kind, string, string)>)
    ensures r == Words(trimmed)
  {
    var space := Strchr(trimmed, ' ');
    if space.None? {
      return None;
    }
    var name := trimmed[..space.value];
    var kind := KindOf(name);
    return if kind.Unknown? then None else Some((kind, name, trimmed[space.value + 1..]));
  }

  lemma TakenIs(trimmed: string, lineNumber: nat)
    ensures match Words(trimmed)
            case None => Taken(trimmed, lineNumber) == [] && Stored(Taken(trimmed, lineNumber)) == []
            case Some((kind, name, args)) =>
              && Taken(trimmed, lineNumber) == [Directive(kind, args, lineNumber)]
              && Stored(Taken(trimmed, lineNumber)) == [Instruction(kind, name, Cut(args, MAX_ARG), lineNumber)]
  {}

  /** The summary after at most one more directive. */
  function NoteAll(s: Summary, ds: seq<Directive>): Summary
    requires |ds| <= 1
  {
    if ds == [] then s else Note(s, ds[0].kind, ds[0].args)
  }

  /** Array and summary of a file's directives, one more of them at most. */
  lemma StoredAppend(ds: seq<Directive>, more: seq<Directive>)
    requires |more| <= 1
    ensures Stored(ds + more) == Stored(ds) + Stored(more)
    ensures Summarise(ds + more) == NoteAll(Summarise(ds), more)
  {
    if more == [] {
      assert ds + more == ds;
    } else {
      assert (ds + more)[..|ds|] == ds;
    }
  }

  lemma NextLine(lines: seq<string>, n: nat, rest: string)
    requires rest != "" && n <= |lines| && Lines(rest, MAX_LINE_LEN) == lines[n..]
    ensures var taken := FgetsLength(rest, MAX_LINE_LEN);
            n < |lines| && lines[n] == CString(rest[..taken]) && Lines(rest[taken..], MAX_LINE_LEN) == lines[n + 1..]
  {
    assert lines[n..][0] == lines[n] && lines[n + 1..] == lines[n..][1..];
  }

  /** What a line adds, given whether a continuation is open. */
  function Added(trimmed: string, lineNumber: nat, open: bool): (ds: seq<Directive>)
    ensures |ds| <= 1
  {
    if trimmed == "" || trimmed[0] == '#' || IsContinuation(trimmed) || open then [] else Taken(trimmed, lineNumber)
  }

  /** Whether it leaves one open. */
  predicate Opens(trimmed: string, open: bool) {
    if trimmed == "" || trimmed[0] == '#' then open else IsContinuation(trimmed)
  }

  /** What line `n` adds to the directives read so far, and what it leaves pending. */
  lemma StepDirectives(lines: seq<string>, n: nat)
    requires n < |lines|
    ensures var cs, t := Classes(lines), Trim(lines[n]);
            && Directives(cs[..n + 1]) == Directives(cs[..n]) + Added(t, n + 1, Pending(cs[..n]))
            && Pending(cs[..n + 1]) == Opens(t, Pending(cs[..n]))
  {
    var cs := Classes(lines);
    assert cs[..n + 1][..n] == cs[..n];
    assert cs[n] == Classify(lines[n]);
  }

  lemma StepHolds(lines: seq<string>, n: nat)
    requires n < |lines|
    ensures var cs := Classes(lines);
            var before, after := Directives(cs[..n]), Directives(cs[..n + 1]);
            var more := Added(Trim(lines[n]), n + 1, Pending(cs[..n]));
            Stored(after) == Stored(before) + Stored(more) && Summarise(after) == NoteAll(Summarise(before), more)
  {
    var cs := Classes(lines);
    StepDirectives(lines, n);
    StoredAppend(Directives(cs[..n]), Added(Trim(lines[n]), n + 1, Pending(cs[..n])));
  }

  /** The loop body, once the line is trimmed. */
  method TakeTrimmed(d: DockerfileInfo, trimmed: string, lineNumber: nat, inContinuation: bool)
    returns (open: bool)
    requires d.Valid()
    modifies d, d.instructions
    ensures d.Valid() && (d.instructions == old(d.instructions) || fresh(d.instructions))
    ensures d.listing == old(d.listing) + Stored(Added(trimmed, lineNumber, inContinuation))
    ensures d.Fields() == NoteAll(old(d.Fields()), Added(trimmed, lineNumber, inContinuation))
    ensures open == Opens(trimmed, inContinuation)
  {
    if trimmed == "" || trimmed[0] == '#' {
      return inContinuation;
    }
    if IsContinuation(trimmed) {
      return true;
    }
    var text := trimmed;
    if inContinuation {
      var continuationBuffer := " " + trimmed;
      // the text now lives in the buffer that is cleared before it is looked at
      continuationBuffer := "";
      text := continuationBuffer;
    }
    d.TakeLine(text, lineNumber);
    return false;
  }

  /** The record holds the first `n` lines, and `open` says whether a continuation is open behind them. */
  ghost predicate ReadSoFar(d: DockerfileInfo, open: bool, lines: seq<string>, n: nat)
    requires n <= |lines|
    reads d, d.instructions
  {
    open == Pending(Classes(lines)[..n]) && d.Holds(Directives(Classes(lines)[..n]))
  }

  lemma NoneLeft(lines: seq<string>, n: nat)
    requires n <= |lines| && Lines("", MAX_LINE_LEN) == lines[n..]
    ensures n == |lines|
  {}

  lemma NothingRead(d: DockerfileInfo, lines: seq<string>)
    requires d.Valid() && d.listing == [] && d.Fields() == EMPTY_SUMMARY
    ensures ReadSoFar(d, false, lines, 0)
  {}

  lemma AllRead(d: DockerfileInfo, open: bool, lines: seq<string>)
    requires ReadSoFar(d, open, lines, |lines|)
    ensures d.Holds(Directives(Classes(lines)))
  {
    assert Classes(lines)[..|lines|] == Classes(lines);
  }

  /** One turn of the loop. */
  method TakeNext(d: DockerfileInfo, line: array<char>, rest: string, lineNumber: nat, inContinuation: bool,
                  ghost lines: seq<string>)
    returns (taken: nat, open: bool)
    requires rest != "" && line.Length == MAX_LINE_LEN && lineNumber < |lines|
    requires lines[lineNumber] == CString(rest[..FgetsLength(rest, MAX_LINE_LEN)])
    requires ReadSoFar(d, inContinuation, lines, lineNumber)
    modifies d, d.instructions, line
    ensures taken == FgetsLength(rest, MAX_LINE_LEN)
    ensures d.instructions == old(d.instructions) || fresh(d.instructions)
    ensures ReadSoFar(d, open, lines, lineNumber + 1)
  {
    StepDirectives(lines, lineNumber);
    StepHolds(lines, lineNumber);
    var trimmed;
    taken, trimmed := ReadLine(line, rest);
    open := TakeTrimmed(d, trimmed, lineNumber + 1, inContinuation);
  }

  /** `parse_dockerfile`: what is stored is the filter-map of the file's lines. */
  method ParseDockerfile(file: Option<string>) returns (d: DockerfileInfo?)
    ensures d == null <==> file.None?
    ensures d != null ==> fresh(d) && fresh(d.instructions) && d.Holds(Meaning(file.value))
  {
    if file.None? {
      return null;
    }
    var rest, lineNumber, inContinuation := file.value, 0, false;
    var line := new char[MAX_LINE_LEN];
    var info := new DockerfileInfo();
    ghost var lines := Lines(file.value, MAX_LINE_LEN);
    NothingRead(info, lines);
    while rest != ""
      invariant fresh(info) && fresh(info.instructions)
      invariant lineNumber <= |lines| && Lines(rest, MAX_LINE_LEN) == lines[lineNumber..]
      invariant ReadSoFar(info, inContinuation, lines, lineNumber)
      decreases |rest|
    {
      NextLine(lines, lineNumber, rest);
      var taken;
      taken, inContinuation := TakeNext(info, line, rest, lineNumber, inContinuation, lines);
      rest, lineNumber := rest[taken..], lineNumber + 1;
    }
    NoneLeft(lines, lineNumber);
    AllRead(info, inContinuation, lines);
    return info;
  }
}
