/** The metadata file of a container, line by line, and what a create writes into it. */
module CreatedRecord {
  import opened CText
  import opened ContainerMetadata
  import opened Ids
  import opened KeyedLines
  import opened Lifecycle

  /** `  "key": "text",` */
  function TextLine(key: string, text: string): string {
    "  \"" + key + "\": \"" + text + "\","
  }

  /** `  "key": number,` */
  function NumberLine(key: string, n: int): string {
    "  \"" + key + "\": " + Dec(n) + ","
  }

  /** The same without the comma. */
  function LastLine(key: string, n: int): string {
    "  \"" + key + "\": " + Dec(n)
  }

  lemma PrintedKey(key: string, shown: string)
    ensures "  " + "\"" + (key + "\"" + (": " + shown)) == "  \"" + key + "\": " + shown
  {}

  lemma QuotedEnd(head: string, text: string)
    ensures head + ("\"" + (text + "\"" + ",")) == head + "\"" + text + "\","
  {}

  lemma QuotedHead(head: string)
    ensures head + "\": " + "\"" == head + "\": \""
  {}

  lemma PrintedText(key: string, text: string)
    ensures Print(Field(key, Text(text), ",")) == TextLine(key, text)
  {
    PrintedKey(key, "\"" + (text + "\"" + ","));
    QuotedEnd("  \"" + key + "\": ", text);
    QuotedHead("  \"" + key);
  }

  lemma PrintedNumber(key: string, n: int)
    ensures Print(Field(key, Number(n), ",")) == NumberLine(key, n)
  {
    PrintedKey(key, Dec(n) + ",");
    Regroup("  \"" + key + "\": ", Dec(n), ",");
  }

  lemma PrintedLast(key: string, n: int)
    ensures Print(Field(key, Number(n), "")) == LastLine(key, n)
  {
    PrintedKey(key, Dec(n) + "");
    assert Dec(n) + "" == Dec(n);
  }

  /** The printed field, with the comma that all fields but the last have. */
  function Spelled(key: string, v: Value): string {
    match v case Text(s) => TextLine(key, s) case Number(n) => NumberLine(key, n)
  }

  lemma FieldSpelled(c: Info, i: nat, key: string, v: Value, line: string)
    requires i < 28 && FieldAt(c, i) == Field(key, v, ",") && line == Spelled(key, v)
    ensures RecordLine(Fields(c), ["}"], i + 1) == line
  {
    match v {
      case Text(s) => PrintedText(key, s);
      case Number(n) => PrintedNumber(key, n);
    }
  }

  /** The lines of `write_container_metadata`, one for each `fprintf`. */
  function LineAt(c: Info, i: nat): string
    requires i < 31
  {
    match i
    case 0 => "{"
    case 1 => TextLine("id", c.id)
    case 2 => TextLine("name", c.name)
    case 3 => TextLine("image", c.image)
    case 4 => TextLine("image_id", c.imageId)
    case 5 => TextLine("command", c.command)
    case 6 => TextLine("working_dir", c.workingDir)
    case 7 => TextLine("user", c.user)
    case 8 => TextLine("shell", c.shell)
    case 9 => TextLine("entrypoint", c.entrypoint)
    case 10 => TextLine("cmd", c.cmd)
    case 11 => TextLine("env_vars", c.envVars)
    case 12 => TextLine("port_mappings", c.portMappings)
    case 13 => TextLine("volume_mappings", c.volumeMappings)
    case 14 => TextLine("network_config", c.networkConfig)
    case 15 => NumberLine("state", c.state)
    case 16 => NumberLine("pid", c.pid)
    case 17 => TextLine("created", c.created)
    case 18 => TextLine("started", c.started)
    case 19 => TextLine("finished", c.finished)
    case 20 => NumberLine("exit_code", c.exitCode)
    case 21 => TextLine("log_path", c.logPath)
    case 22 => TextLine("rootfs_path", c.rootfsPath)
    case 23 => NumberLine("interactive", c.interactive)
    case 24 => NumberLine("tty", c.tty)
    case 25 => NumberLine("detach", c.detach)
    case 26 => NumberLine("restart_policy", c.restartPolicy)
    case 27 => NumberLine("memory_limit", c.memoryLimit)
    case 28 => NumberLine("cpu_limit", c.cpuLimit)
    case 29 => LastLine("pid_limit", c.pidLimit)
    case _ => "}"
  }

  lemma FirstLines(c: Info, i: nat, line: string)
    requires i < 5 && line == LineAt(c, i + 1)
    ensures RecordLine(Fields(c), ["}"], i + 1) == line
  {
    match i
    case 0 => FieldSpelled(c, 0, "id", Text(c.id), line);
    case 1 => FieldSpelled(c, 1, "name", Text(c.name), line);
    case 2 => FieldSpelled(c, 2, "image", Text(c.image), line);
    case 3 => FieldSpelled(c, 3, "image_id", Text(c.imageId), line);
    case _ => FieldSpelled(c, 4, "command", Text(c.command), line);
  }

  lemma ShellLines(c: Info, i: nat, line: string)
    requires 5 <= i < 10 && line == LineAt(c, i + 1)
    ensures RecordLine(Fields(c), ["}"], i + 1) == line
  {
    match i
    case 5 => FieldSpelled(c, 5, "working_dir", Text(c.workingDir), line);
    case 6 => FieldSpelled(c, 6, "user", Text(c.user), line);
    case 7 => FieldSpelled(c, 7, "shell", Text(c.shell), line);
    case 8 => FieldSpelled(c, 8, "entrypoint", Text(c.entrypoint), line);
    case _ => FieldSpelled(c, 9, "cmd", Text(c.cmd), line);
  }

  lemma PortLines(c: Info, i: nat, line: string)
    requires 10 <= i < 15 && line == LineAt(c, i + 1)
    ensures RecordLine(Fields(c), ["}"], i + 1) == line
  {
    match i
    case 10 => FieldSpelled(c, 10, "env_vars", Text(c.envVars), line);
    case 11 => FieldSpelled(c, 11, "port_mappings", Text(c.portMappings), line);
    case 12 => FieldSpelled(c, 12, "volume_mappings", Text(c.volumeMappings), line);
    case 13 => FieldSpelled(c, 13, "network_config", Text(c.networkConfig), line);
    case _ => FieldSpelled(c, 14, "state", Number(c.state), line);
  }

  lemma StateLines(c: Info, i: nat, line: string)
    requires 15 <= i < 20 && line == LineAt(c, i + 1)
    ensures RecordLine(Fields(c), ["}"], i + 1) == line
  {
    match i
    case 15 => FieldSpelled(c, 15, "pid", Number(c.pid), line);
    case 16 => FieldSpelled(c, 16, "created", Text(c.created), line);
    case 17 => FieldSpelled(c, 17, "started", Text(c.started), line);
    case 18 => FieldSpelled(c, 18, "finished", Text(c.finished), line);
    case _ => FieldSpelled(c, 19, "exit_code", Number(c.exitCode), line);
  }

  lemma PathLines(c: Info, i: nat, line: string)
    requires 20 <= i < 25 && line == LineAt(c, i + 1)
    ensures RecordLine(Fields(c), ["}"], i + 1) == line
  {
    match i
    case 20 => FieldSpelled(c, 20, "log_path", Text(c.logPath), line);
    case 21 => FieldSpelled(c, 21, "rootfs_path", Text(c.rootfsPath), line);
    case 22 => FieldSpelled(c, 22, "interactive", Number(c.interactive), line);
    case 23 => FieldSpelled(c, 23, "tty", Number(c.tty), line);
    case _ => FieldSpelled(c, 24, "detach", Number(c.detach), line);
  }

  lemma LimitLines(c: Info, i: nat, line: string)
    requires 25 <= i < 28 && line == LineAt(c, i + 1)
    ensures RecordLine(Fields(c), ["}"], i + 1) == line
  {
    match i
    case 25 => FieldSpelled(c, 25, "restart_policy", Number(c.restartPolicy), line);
    case 26 => FieldSpelled(c, 26, "memory_limit", Number(c.memoryLimit), line);
    case _ => FieldSpelled(c, 27, "cpu_limit", Number(c.cpuLimit), line);
  }

  function FileLines(c: Info): (ls: seq<string>)
    ensures |ls| == 31 && forall i :: 0 <= i < 31 ==> ls[i] == LineAt(c, i)
  {
    seq(31, i requires 0 <= i < 31 => LineAt(c, i))
  }

  lemma LineIs(c: Info, i: nat, line: string)
    requires i < 28 && line == LineAt(c, i + 1)
    ensures RecordLine(Fields(c), ["}"], i + 1) == line
  {
    if i < 5 {
      FirstLines(c, i, line);
    } else if i < 10 {
      ShellLines(c, i, line);
    } else if i < 15 {
      PortLines(c, i, line);
    } else if i < 20 {
      StateLines(c, i, line);
    } else if i < 25 {
      PathLines(c, i, line);
    } else {
      LimitLines(c, i, line);
    }
  }

  lemma LimitLine(c: Info)
    ensures RecordLine(Fields(c), ["}"], 29) == LineAt(c, 29)
  {
    var f := Fields(c)[28];
    assert f == FieldAt(c, 28) == Field("pid_limit", Number(c.pidLimit), "");
    PrintedLast(f.key, c.pidLimit);
  }

  lemma Braces(c: Info)
    ensures RecordLine(Fields(c), ["}"], 0) == LineAt(c, 0)
    ensures RecordLine(Fields(c), ["}"], 30) == LineAt(c, 30)
  {}

  /** The text of a record is these lines. */
  lemma FileSpelled(c: Info)
    ensures WriteText(c) == Terminated(FileLines(c))
  {
    var ls := RecordLines(Fields(c), ["}"]);
    Braces(c);
    LimitLine(c);
    forall i | 0 <= i < 31
      ensures ls[i] == LineAt(c, i)
    {
      if 0 < i < 29 {
        LineIs(c, i - 1, LineAt(c, i));
      }
    }
    assert ls == FileLines(c);
  }

  /** Where each argument of a create goes in the record it stores; everything else is zero. */
  lemma CreateStores(s: State, op: Op)
    requires op.Create? && op.ok
    ensures var id, a := ContainerId(op.idTime), op.args;
            && id in Step(s, op).0.records
            && Step(s, op).0.records[id]
               == Info(
                    id := id, name := Cut(if a.name.Some? then a.name.value else id, 255), image := Cut(a.image, 255),
                    imageId := "", command := Cut(if a.command.Some? then a.command.value else "", 1023),
                    workingDir := Cut(if a.workingDir.Some? then a.workingDir.value else "/", 511),
                    user := "", shell := "", entrypoint := "", cmd := "",
                    envVars := Cut(if a.envVars.Some? then a.envVars.value else "", 511),
                    portMappings := Cut(if a.portMappings.Some? then a.portMappings.value else "", 63),
                    volumeMappings := Cut(if a.volumeMappings.Some? then a.volumeMappings.value else "", 255),
                    networkConfig := "", state := 0, pid := 0, created := Dec(op.now), started := "", finished := "",
                    exitCode := 0, logPath := "/tmp/docker-logs/" + id + ".log",
                    rootfsPath := "/tmp/docker-containers/" + id + "/rootfs",
                    configPath := "/tmp/docker-container-metadata/" + id + ".json",
                    interactive := a.interactive, tty := a.tty, detach := a.detach,
                    restartPolicy := 0, memoryLimit := 0, cpuLimit := 0, pidLimit := 0)
  {}
}
