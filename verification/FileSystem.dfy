/**
 An abstract file system: a map from absolute paths to directories and files,
 with the kernel's walk over `.`, `..` and repeated slashes. There are no links.
 `None` is an error return; `EEXIST` is a success, as every caller treats it.
 */
module FileSystem {
  import opened CText

  type Path = seq<string>

  datatype Node = Dir | File(text: string)

  type Tree = map<Path, Node>

  predicate DirAt(t: Tree, p: Path) {
    p == [] || (p in t && t[p].Dir?)
  }

  function FileAt(t: Tree, p: Path): Option<string> {
    if p in t && t[p].File? then Some(t[p].text) else None
  }

  /** The text of a file, empty where there is none. */
  function TextAt(t: Tree, p: Path): string {
    match FileAt(t, p)
    case None => ""
    case Some(text) => text
  }

  /** The non-empty components of a path. */
  function Names(s: string): seq<string>
    decreases |s|
  {
    match Strchr(s, '/')
    case None => if s == "" then [] else [s]
    case Some(k) => (if k == 0 then [] else [s[..k]]) + Names(s[k + 1..])
  }

  function Walk(t: Tree, at: Path, names: seq<string>): Option<Path>
    decreases |names|
  {
    if names == [] then Some(at)
    else if !DirAt(t, at) then None
    else if names[0] == "." then Walk(t, at, names[1..])
    else if names[0] == ".." then Walk(t, if at == [] then [] else at[..|at| - 1], names[1..])
    else Walk(t, at + [names[0]], names[1..])
  }

  /** Where a path's last name lives, if the directories before it exist. */
  function Locate(t: Tree, s: string): Option<Path> {
    var names := Names(s);
    if names == [] then None
    else
      match Walk(t, [], names[..|names| - 1])
      case None => None
      case Some(dir) => if DirAt(t, dir) then Some(dir + [names[|names| - 1]]) else None
  }

  /** `mkdir`. */
  function Mkdir(t: Tree, s: string): Option<Tree> {
    match Locate(t, s)
    case None => if s != "" && Names(s) == [] then Some(t) else None
    case Some(p) =>
      var last := p[|p| - 1];
      Some(if last == "." || last == ".." || p in t then t else t[p := Dir])
  }

  /** `mkdir` of a known place. */
  function MkdirAt(t: Tree, p: Path): Option<Tree> {
    if p != [] && DirAt(t, p[..|p| - 1]) then Some(if p in t then t else t[p := Dir]) else None
  }

  /** Whether `fopen` for writing succeeds. */
  predicate Writable(t: Tree, p: Path) {
    p != [] && DirAt(t, p[..|p| - 1]) && (p in t ==> t[p].File?)
  }

  function WriteFile(t: Tree, p: Path, text: string): Option<Tree> {
    if Writable(t, p) then Some(t[p := File(text)]) else None
  }

  function AppendFile(t: Tree, p: Path, text: string): Option<Tree> {
    WriteFile(t, p, TextAt(t, p) + text)
  }

  /** The same node at `p`, or none in both. */
  predicate SameAt(t: Tree, u: Tree, p: Path) {
    (p in u <==> p in t) && (p in t ==> u[p] == t[p])
  }

  /** Nothing is lost, and no file appears or changes. */
  predicate OnlyNewDirectories(t: Tree, u: Tree) {
    && (forall p :: p in t ==> p in u && u[p] == t[p])
    && (forall p :: p in u && p !in t ==> u[p].Dir?)
  }

  lemma MkdirAddsOneDirectory(t: Tree, s: string)
    requires Mkdir(t, s).Some?
    ensures var u := Mkdir(t, s).value;
            u == t || exists p :: p !in t && u == t[p := Dir]
    ensures OnlyNewDirectories(t, Mkdir(t, s).value)
  {}

  lemma NamesCons(v: string, rest: string)
    requires '/' !in v
    ensures Names(v + "/" + rest) == (if v == "" then [] else [v]) + Names(rest)
  {
    var s := v + ['/'] + rest;
    BeforeStop(v, '/', rest);
    assert s[..|v|] == v && s[|v| + 1..] == rest;
    assert s == v + "/" + rest;
  }

  /** Directories stay directories, and nothing disappears. */
  predicate Grows(t: Tree, u: Tree) {
    forall p :: p in t ==> p in u && (t[p].Dir? ==> u[p].Dir?)
  }

  lemma {:induction false} WalkGrows(t: Tree, u: Tree, at: Path, names: seq<string>)
    requires Grows(t, u) && Walk(t, at, names).Some?
    ensures Walk(u, at, names) == Walk(t, at, names)
    decreases |names|
  {
    if names == [] {
    } else {
      var next := if names[0] == "." then at
                  else if names[0] == ".." then (if at == [] then [] else at[..|at| - 1])
                  else at + [names[0]];
      WalkGrows(t, u, next, names[1..]);
    }
  }

  /** The path leads to a directory or a file. */
  predicate Leads(t: Tree, s: string) {
    match Locate(t, s)
    case None => s != "" && Names(s) == []
    case Some(p) => p[|p| - 1] == "." || p[|p| - 1] == ".." || p in t
  }

  lemma LeadsGrows(t: Tree, u: Tree, s: string)
    requires Grows(t, u) && Leads(t, s)
    ensures Leads(u, s)
  {
    var names := Names(s);
    if names != [] {
      WalkGrows(t, u, [], names[..|names| - 1]);
    }
  }

  lemma MkdirLeads(t: Tree, s: string)
    requires Mkdir(t, s).Some?
    ensures Grows(t, Mkdir(t, s).value) && Leads(Mkdir(t, s).value, s)
  {
    MkdirAddsOneDirectory(t, s);
    var names := Names(s);
    if names != [] {
      WalkGrows(t, Mkdir(t, s).value, [], names[..|names| - 1]);
    }
  }
}
