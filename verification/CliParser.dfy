/** The options of `run`: an index-skipping loop over the arguments, and what it means. */
module CliParser {
  import opened CText

  const MAX_PATH: nat := 511
  const MAX_COMMAND: nat := 255
  const MAX_PORT: nat := 63
  const MAX_VOLUME: nat := 255
  const ENV_SIZE: nat := 512

  datatype Opt = Name | Port | Volume | Env | Workdir

  /** One option group, or one other argument. */
  datatype Item =
    | Detach | InteractiveTty | Interactive | Tty
    | Set(opt: Opt, value: string)
    | Ignored(text: string)
    | Positional(word: string)

  function FlagOf(arg: string): (r: Option<Item>)
    ensures r.Some? ==> r.value.Detach? || r.value.InteractiveTty? || r.value.Interactive? || r.value.Tty?
  {
    if arg == "-d" || arg == "--detach" then Some(Detach)
    else if arg == "-it" then Some(InteractiveTty)
    else if arg == "-i" || arg == "--interactive" then Some(Interactive)
    else if arg == "-t" || arg == "--tty" then Some(Tty)
    else None
  }

  function OptOf(arg: string): Option<Opt> {
    if arg == "--name" then Some(Name)
    else if arg == "-p" || arg == "--publish" then Some(Port)
    else if arg == "-v" || arg == "--volume" then Some(Volume)
    else if arg == "-e" || arg == "--env" then Some(Env)
    else if arg == "-w" || arg == "--workdir" then Some(Workdir)
    else None
  }

  function Other(arg: string): Item {
    if arg != "" && arg[0] == '-' then Ignored(arg) else Positional(arg)
  }

  /** The arguments as groups. An option without a value at the very end means nothing. */
  function Items(args: seq<string>): seq<Item>
    decreases |args|
  {
    if args == [] then []
    else if FlagOf(args[0]).Some? then [FlagOf(args[0]).value] + Items(args[1..])
    else if OptOf(args[0]).Some? then
      if |args| == 1 then [] else [Set(OptOf(args[0]).value, args[1])] + Items(args[2..])
    else [Other(args[0])] + Items(args[1..])
  }

  datatype Fields = Fields(
    image: string, name: string, workdir: string, command: string,
    detach: bool, interactive: bool, tty: bool, port: string, volume: string, env: string)

  const NO_FIELDS := Fields("", "", "", "", false, false, false, "", "", "")

  function AddEnv(env: string, value: string): string {
    if env != "" then env + ";" + value else value
  }

  /** The effect of one group that is not the command. */
  function Apply(f: Fields, item: Item): Fields {
    match item
    case Detach => f.(detach := true)
    case InteractiveTty => f.(interactive := true, tty := true)
    case Interactive => f.(interactive := true)
    case Tty => f.(tty := true)
    case Set(Name, v) => f.(name := Cut(v, MAX_PATH))
    case Set(Port, v) => f.(port := Cut(v, MAX_PORT))
    case Set(Volume, v) => f.(volume := Cut(v, MAX_VOLUME))
    case Set(Env, v) => f.(env := AddEnv(f.env, v))
    case Set(Workdir, v) => f.(workdir := Cut(v, MAX_PATH))
    case Ignored(_) => f
    case Positional(w) => f.(image := Cut(w, MAX_PATH))
  }

  /** The first word after the image is the command, and nothing after it is read. */
  predicate IsCommand(f: Fields, item: Item) {
    item.Positional? && f.image != ""
  }

  function Fold(f: Fields, items: seq<Item>): Fields
    decreases |items|
  {
    if items == [] then f
    else if IsCommand(f, items[0]) then f.(command := Cut(items[0].word, MAX_COMMAND))
    else Fold(Apply(f, items[0]), items[1..])
  }

  // ----- the loop -----

  class ParsedCommand {
    var image: string
    var name: string
    var workdir: string
    var command: string
    var detach: bool
    var interactive: bool
    var tty: bool
    var port: string
    var volume: string
    var env: string

    function Parsed(): Fields
      reads this
    {
      Fields(image, name, workdir, command, detach, interactive, tty, port, volume, env)
    }

    constructor ()
      ensures Parsed() == NO_FIELDS
    {
      image, name, workdir, command := "", "", "", "";
      detach, interactive, tty := false, false, false;
      port, volume, env := "", "", "";
    }

    method SetOption(opt: Opt, value: string)
      modifies this
      ensures Parsed() == Apply(old(Parsed()), Set(opt, value))
    {
      match opt {
        case Name => name := Cut(value, MAX_PATH);
        case Port => port := Cut(value, MAX_PORT);
        case Volume => volume := Cut(value, MAX_VOLUME);
        case Env =>
          if env != "" {
            env := env + ";";
          }
          env := env + value;
          assert "" + value == value;
        case Workdir => workdir := Cut(value, MAX_PATH);
      }
    }

    method SetFlag(flag: Item)
      requires flag.Detach? || flag.InteractiveTty? || flag.Interactive? || flag.Tty?
      modifies this
      ensures Parsed() == Apply(old(Parsed()), flag)
    {
      match flag {
        case Detach => detach := true;
        case InteractiveTty => interactive, tty := true, true;
        case Interactive => interactive := true;
        case Tty => tty := true;
      }
    }

    /** One turn of the loop at index `i`: where it goes on, and whether it breaks. */
    method Turn(argv: seq<string>, i: nat) returns (next: nat, stop: bool)
      requires i < |argv|
      modifies this
      ensures i < next <= |argv|
      ensures if stop then Parsed() == Fold(old(Parsed()), Items(argv[i..]))
              else Fold(Parsed(), Items(argv[next..])) == Fold(old(Parsed()), Items(argv[i..]))
    {
      ghost var rest := argv[i..];
      assert rest[0] == argv[i] && rest[1..] == argv[i + 1..];
      assert i + 1 < |argv| ==> rest[1] == argv[i + 1] && rest[2..] == argv[i + 2..];
      FoldStep(Parsed(), rest);
      next, stop := i + 1, false;
      var flag, opt := FlagOf(argv[i]), OptOf(argv[i]);
      if flag.Some? {
        SetFlag(flag.value);
      } else if opt.Some? {
        if i + 1 < |argv| {
          SetOption(opt.value, argv[i + 1]);
          next := i + 2;
        }
      } else if argv[i] == "" || argv[i][0] != '-' {
        if image == "" {
          image := Cut(argv[i], MAX_PATH);
        } else {
          command := Cut(argv[i], MAX_COMMAND);
          stop := true;
        }
      }
    }

    /** `parse_run_command`, on a cleared struct whose environment buffer is large enough. */
    method ParseRunCommand(argv: seq<string>)
      requires Parsed() == NO_FIELDS && 2 <= |argv|
      requires |Fold(NO_FIELDS, Items(argv[2..])).env| < ENV_SIZE
      modifies this
      ensures Parsed() == Fold(NO_FIELDS, Items(argv[2..]))
    {
      var i := 2;
      while i < |argv|
        invariant 2 <= i <= |argv|
        invariant Fold(Parsed(), Items(argv[i..])) == Fold(NO_FIELDS, Items(argv[2..]))
      {
        var next, stop := Turn(argv, i);
        if stop {
          return;
        }
        i := next;
      }
    }
  }

  /** One turn of the loop, on the arguments that are left. */
  lemma FoldStep(f: Fields, args: seq<string>)
    requires args != []
    ensures FlagOf(args[0]).Some? ==>
              Fold(f, Items(args)) == Fold(Apply(f, FlagOf(args[0]).value), Items(args[1..]))
    ensures FlagOf(args[0]).None? && OptOf(args[0]).Some? ==>
              Fold(f, Items(args)) == if |args| == 1 then f
                                      else Fold(Apply(f, Set(OptOf(args[0]).value, args[1])), Items(args[2..]))
    ensures FlagOf(args[0]).None? && OptOf(args[0]).None? ==>
              Fold(f, Items(args)) == if IsCommand(f, Other(args[0])) then f.(command := Cut(args[0], MAX_COMMAND))
                                      else Fold(Apply(f, Other(args[0])), Items(args[1..]))
  {
    var items := Items(args);
    if FlagOf(args[0]).Some? {
      assert items[1..] == Items(args[1..]);
    } else if OptOf(args[0]).Some? {
      assert |args| > 1 ==> items[1..] == Items(args[2..]);
    } else {
      assert items[1..] == Items(args[1..]);
    }
  }

  // ----- what the fold means -----

  /** The groups before the command; `imaged` says whether the image is already known. */
  function Scope(items: seq<Item>, imaged: bool): seq<Item>
    decreases |items|
  {
    if items == [] || (imaged && items[0].Positional?) then []
    else [items[0]] + Scope(items[1..], imaged || (items[0].Positional? && items[0].word != ""))
  }

  function CommandOf(items: seq<Item>, imaged: bool): string
    decreases |items|
  {
    if items == [] then ""
    else if imaged && items[0].Positional? then Cut(items[0].word, MAX_COMMAND)
    else CommandOf(items[1..], imaged || (items[0].Positional? && items[0].word != ""))
  }

  /** All values given for one option, in order. */
  function Values(items: seq<Item>, opt: Opt): seq<string> {
    if items == [] then []
    else if items[0].Set? && items[0].opt == opt then [items[0].value] + Values(items[1..], opt)
    else Values(items[1..], opt)
  }

  function ImageOf(items: seq<Item>): string {
    if items == [] then ""
    else if items[0].Positional? && items[0].word != "" then Cut(items[0].word, MAX_PATH)
    else ImageOf(items[1..])
  }

  lemma LastStep(v: string, values: seq<string>, before: string, cap: nat)
    ensures Last([v] + values, before, cap) == Last(values, Cut(v, cap), cap)
  {}

  /** The last value, cut to its buffer, or what was there before. */
  function Last(values: seq<string>, before: string, cap: nat): string {
    if values == [] then before else Cut(values[|values| - 1], cap)
  }

  function JoinOnto(env: string, values: seq<string>): string
    decreases |values|
  {
    if values == [] then env else JoinOnto(AddEnv(env, values[0]), values[1..])
  }

  /** The buffer of a scalar option, and its size. */
  function OptField(f: Fields, opt: Opt): string {
    match opt
    case Name => f.name
    case Port => f.port
    case Volume => f.volume
    case Env => f.env
    case Workdir => f.workdir
  }

  function Cap(opt: Opt): nat {
    match opt
    case Port => MAX_PORT
    case Volume => MAX_VOLUME
    case _ => MAX_PATH
  }

  lemma ScopeStep(f: Fields, items: seq<Item>)
    requires items != [] && !IsCommand(f, items[0])
    ensures Scope(items, f.image != "") == [items[0]] + Scope(items[1..], Apply(f, items[0]).image != "")
    ensures Scope(items, f.image != "")[1..] == Scope(items[1..], Apply(f, items[0]).image != "")
    ensures Fold(f, items) == Fold(Apply(f, items[0]), items[1..])
  {}

  lemma ApplyOpt(f: Fields, item: Item, opt: Opt)
    requires opt != Env
    ensures OptField(Apply(f, item), opt)
            == if item.Set? && item.opt == opt then Cut(item.value, Cap(opt)) else OptField(f, opt)
  {}

  /** Scalar options are last-wins. */
  lemma {:induction false} ScalarsAreLastWins(f: Fields, items: seq<Item>, opt: Opt)
    requires opt != Env
    ensures OptField(Fold(f, items), opt)
            == Last(Values(Scope(items, f.image != ""), opt), OptField(f, opt), Cap(opt))
    decreases |items|
  {
    if items == [] || IsCommand(f, items[0]) {
    } else {
      ScopeStep(f, items);
      ApplyOpt(f, items[0], opt);
      ScalarsAreLastWins(Apply(f, items[0]), items[1..], opt);
      var rest := Values(Scope(items[1..], Apply(f, items[0]).image != ""), opt);
      if items[0].Set? && items[0].opt == opt {
        LastStep(items[0].value, rest, OptField(f, opt), Cap(opt));
      }
    }
  }

  lemma ApplyEnv(f: Fields, item: Item)
    ensures Apply(f, item).env == if item.Set? && item.opt == Env then AddEnv(f.env, item.value) else f.env
  {}

  lemma ValuesStep(item: Item, rest: seq<Item>, opt: Opt)
    ensures Values([item] + rest, opt)
            == if item.Set? && item.opt == opt then [item.value] + Values(rest, opt) else Values(rest, opt)
  {
    assert ([item] + rest)[1..] == rest;
  }

  /** Environment values are appended in order. */
  lemma {:induction false} EnvIsAppended(f: Fields, items: seq<Item>)
    ensures Fold(f, items).env == JoinOnto(f.env, Values(Scope(items, f.image != ""), Env))
    decreases |items|
  {
    if items == [] || IsCommand(f, items[0]) {
    } else {
      ScopeStep(f, items);
      EnvIsAppended(Apply(f, items[0]), items[1..]);
      ApplyEnv(f, items[0]);
      var scope := Scope(items[1..], Apply(f, items[0]).image != "");
      var rest := Values(scope, Env);
      ValuesStep(items[0], scope, Env);
      if items[0].Set? && items[0].opt == Env {
        assert ([items[0].value] + rest)[1..] == rest;
      }
    }
  }

  /** Flags are or-ed. */
  lemma {:induction false} FlagsAreOred(f: Fields, items: seq<Item>)
    ensures var r, scope := Fold(f, items), Scope(items, f.image != "");
            && (r.detach <==> f.detach || Detach in scope)
            && (r.interactive <==> f.interactive || Interactive in scope || InteractiveTty in scope)
            && (r.tty <==> f.tty || Tty in scope || InteractiveTty in scope)
    decreases |items|
  {
    if items == [] || IsCommand(f, items[0]) {
    } else {
      ScopeStep(f, items);
      FlagsAreOred(Apply(f, items[0]), items[1..]);
    }
  }

  predicate HasCommand(items: seq<Item>, imaged: bool)
    decreases |items|
  {
    items != [] &&
    ((imaged && items[0].Positional?) ||
     HasCommand(items[1..], imaged || (items[0].Positional? && items[0].word != "")))
  }

  lemma ApplyWord(f: Fields, item: Item)
    requires !IsCommand(f, item)
    ensures var g := Apply(f, item);
            && g.command == f.command
            && g.image == (if item.Positional? then Cut(item.word, MAX_PATH) else f.image)
            && (g.image != "") == (f.image != "" || (item.Positional? && item.word != ""))
  {}

  lemma WordStep(f: Fields, items: seq<Item>, imaged: bool, known: bool)
    requires items != [] && !(imaged && items[0].Positional?)
    requires known == (imaged || (items[0].Positional? && items[0].word != ""))
    ensures HasCommand(items, imaged) == HasCommand(items[1..], known)
    ensures CommandOf(items, imaged) == CommandOf(items[1..], known)
    ensures !imaged ==> ImageOf(items) == if known then Cut(items[0].word, MAX_PATH) else ImageOf(items[1..])
  {}

  /** The image is the first non-empty word, the command the next word of any kind. */
  lemma {:induction false} WordsAreImageAndCommand(f: Fields, items: seq<Item>)
    ensures var r, imaged := Fold(f, items), f.image != "";
            && r.image == (if imaged then f.image else ImageOf(items))
            && r.command == (if HasCommand(items, imaged) then CommandOf(items, imaged) else f.command)
    decreases |items|
  {
    if items == [] || IsCommand(f, items[0]) {
    } else {
      var g := Apply(f, items[0]);
      ApplyWord(f, items[0]);
      WordStep(f, items, f.image != "", g.image != "");
      WordsAreImageAndCommand(Apply(f, items[0]), items[1..]);
    }
  }

  // ----- the environment string -----

  function Join(values: seq<string>): string {
    if values == [] then ""
    else if |values| == 1 then values[0]
    else values[0] + ";" + Join(values[1..])
  }

  lemma {:induction false} JoinOntoNonEmpty(env: string, values: seq<string>)
    requires env != ""
    ensures JoinOnto(env, values) == if values == [] then env else env + ";" + Join(values)
    decreases |values|
  {
    if values == [] {
    } else {
      var next := env + ";" + values[0];
      JoinOntoNonEmpty(next, values[1..]);
      if |values| > 1 {
        var tail := Join(values[1..]);
        assert next + ";" + tail == env + ";" + (values[0] + ";" + tail);
      }
    }
  }

  lemma {:induction false} JoinOntoNoLonger(values: seq<string>)
    ensures |JoinOnto("", values)| <= |Join(values)|
    decreases |values|
  {
    if values == [] {
    } else {
      if values[0] == "" {
        JoinOntoNoLonger(values[1..]);
      } else {
        JoinOntoNonEmpty(values[0], values[1..]);
      }
    }
  }

  /** The environment is the `;`-join of the values unless the first of several is empty: then a separator is lost. */
  lemma EnvIsJoin(values: seq<string>)
    ensures JoinOnto("", values) == Join(values) <==> |values| <= 1 || values[0] != ""
  {
    if values != [] {
      if values[0] == "" {
        JoinOntoNoLonger(values[1..]);
      } else {
        JoinOntoNonEmpty(values[0], values[1..]);
      }
    }
  }

  /** The environment of a parsed command line, and exactly when it is the plain join. */
  lemma EnvOfRun(items: seq<Item>)
    ensures var values := Values(Scope(items, false), Env);
            Fold(NO_FIELDS, items).env == Join(values) <==> |values| <= 1 || values[0] != ""
  {
    EnvIsAppended(NO_FIELDS, items);
    EnvIsJoin(Values(Scope(items, false), Env));
  }

  // ----- order and trailing arguments -----

  /** Not a word, and not two settings of one option. */
  predicate Independent(a: Item, b: Item) {
    !a.Positional? && !b.Positional? && !(a.Set? && b.Set? && a.opt == b.opt)
  }

  /** A setting writes its own field only. */
  lemma SetThenAny(f: Fields, opt: Opt, v: string, b: Item)
    requires Independent(Set(opt, v), b) && !b.Set?
    ensures Apply(Apply(f, Set(opt, v)), b) == Apply(Apply(f, b), Set(opt, v))
  {}

  lemma SetThenSet(f: Fields, o1: Opt, v1: string, o2: Opt, v2: string)
    requires o1 != o2
    ensures Apply(Apply(f, Set(o1, v1)), Set(o2, v2)) == Apply(Apply(f, Set(o2, v2)), Set(o1, v1))
  {
    match o1 {
      case Name =>
      case Port =>
      case Volume =>
      case Env =>
      case Workdir =>
    }
  }

  lemma ApplyCommutes(f: Fields, a: Item, b: Item)
    requires Independent(a, b)
    ensures Apply(Apply(f, a), b) == Apply(Apply(f, b), a)
  {
    if a.Set? && b.Set? {
      SetThenSet(f, a.opt, a.value, b.opt, b.value);
    } else if a.Set? {
      SetThenAny(f, a.opt, a.value, b);
    } else if b.Set? {
      SetThenAny(f, b.opt, b.value, a);
    }
  }

  /** Swapping neighbouring groups of different options changes nothing. */
  lemma {:induction false} SwapChangesNothing(f: Fields, pre: seq<Item>, a: Item, b: Item, post: seq<Item>)
    requires Independent(a, b)
    ensures Fold(f, pre + [a, b] + post) == Fold(f, pre + [b, a] + post)
    decreases |pre|
  {
    var s, t := pre + [a, b] + post, pre + [b, a] + post;
    if pre == [] {
      assert s[1..][1..] == post && t[1..][1..] == post && s[1..][0] == b && t[1..][0] == a;
      ApplyCommutes(f, a, b);
    } else {
      assert s[1..] == pre[1..] + [a, b] + post && t[1..] == pre[1..] + [b, a] + post;
      if !IsCommand(f, pre[0]) {
        SwapChangesNothing(Apply(f, pre[0]), pre[1..], a, b, post);
      }
    }
  }

  /** Whatever follows the command is ignored. */
  lemma {:induction false} AfterCommandIgnored(f: Fields, items: seq<Item>, rest: seq<Item>)
    requires HasCommand(items, f.image != "")
    ensures Fold(f, items + rest) == Fold(f, items)
    decreases |items|
  {
    assert (items + rest)[1..] == items[1..] + rest;
    if IsCommand(f, items[0]) {
    } else {
      AfterCommandIgnored(Apply(f, items[0]), items[1..], rest);
    }
  }

  /** The arguments that spell one group. */
  predicate Spells(group: seq<string>, item: Item) {
    (|group| == 1 && FlagOf(group[0]) == Some(item)) ||
    (|group| == 2 && FlagOf(group[0]).None? && OptOf(group[0]).Some? && item == Set(OptOf(group[0]).value, group[1])) ||
    (|group| == 1 && FlagOf(group[0]).None? && OptOf(group[0]).None? && item == Other(group[0]))
  }

  function Concat(groups: seq<seq<string>>): seq<string> {
    if groups == [] then [] else groups[0] + Concat(groups[1..])
  }

  lemma GroupFirst(group: seq<string>, item: Item, rest: seq<string>)
    requires Spells(group, item)
    ensures Items(group + rest) == [item] + Items(rest)
  {
    assert (group + rest)[|group|..] == rest && (group + rest)[0] == group[0];
  }

  predicate SpellAll(groups: seq<seq<string>>, items: seq<Item>) {
    |groups| == |items| && forall i :: 0 <= i < |groups| ==> Spells(groups[i], items[i])
  }

  /** Groups written one after the other are read as those groups, whatever follows. */
  lemma {:induction false} ItemsOfGroups(groups: seq<seq<string>>, items: seq<Item>, rest: seq<string>)
    requires SpellAll(groups, items)
    ensures Items(Concat(groups) + rest) == items + Items(rest)
    decreases |groups|
  {
    if groups == [] {
      assert Concat(groups) + rest == rest && items + Items(rest) == Items(rest);
    } else {
      assert SpellAll(groups[1..], items[1..]);
      ItemsOfGroups(groups[1..], items[1..], rest);
      Regroup(groups[0], Concat(groups[1..]), rest);
      GroupFirst(groups[0], items[0], Concat(groups[1..]) + rest);
      assert items == [items[0]] + items[1..];
      Regroup([items[0]], items[1..], Items(rest));
    }
  }

  /** Any arguments after a command leave the result of parsing as it is. */
  lemma TrailingArgumentsIgnored(groups: seq<seq<string>>, items: seq<Item>, rest: seq<string>)
    requires SpellAll(groups, items) && HasCommand(items, false)
    ensures Fold(NO_FIELDS, Items(Concat(groups) + rest)) == Fold(NO_FIELDS, items)
  {
    ItemsOfGroups(groups, items, rest);
    AfterCommandIgnored(NO_FIELDS, items, Items(rest));
  }
}
