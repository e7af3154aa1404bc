/** The options of `run` spelled out, and what a command line with one of them comes to. */
module RunOptions {
  import opened CText
  import opened CliParser

  /** Which argument spells which option. */
  lemma OptionsSpelled(a: string)
    ensures OptOf(a) == Some(Name) <==> a == "--name"
    ensures OptOf(a) == Some(Port) <==> a == "-p" || a == "--publish"
    ensures OptOf(a) == Some(Volume) <==> a == "-v" || a == "--volume"
    ensures OptOf(a) == Some(Env) <==> a == "-e" || a == "--env"
    ensures OptOf(a) == Some(Workdir) <==> a == "-w" || a == "--workdir"
  {}

  lemma FlagsSpelled(a: string)
    ensures FlagOf(a) == Some(Detach) <==> a == "-d" || a == "--detach"
    ensures FlagOf(a) == Some(InteractiveTty) <==> a == "-it"
    ensures FlagOf(a) == Some(Interactive) <==> a == "-i" || a == "--interactive"
    ensures FlagOf(a) == Some(Tty) <==> a == "-t" || a == "--tty"
  {}

  /** Not an option: the image or the command. */
  predicate IsWord(a: string) {
    a != "" && a[0] != '-'
  }

  lemma WordIsOther(a: string)
    requires IsWord(a)
    ensures FlagOf(a).None? && OptOf(a).None? && Other(a) == Positional(a)
  {}

  lemma OneOption(a: string, v: string, image: string, opt: Opt)
    requires FlagOf(a).None? && OptOf(a) == Some(opt) && IsWord(image)
    ensures Items([a, v, image]) == [Set(opt, v), Positional(image)]
  {
    WordIsOther(image);
    var args := [a, v, image];
    assert args[2..] == [image] && [image][1..] == [];
    assert Items([image]) == [Positional(image)];
  }

  lemma FoldTwo(f: Fields, a: Item, b: Item)
    requires !a.Positional? && Apply(f, a).image == ""
    ensures Fold(f, [a, b]) == Apply(Apply(f, a), b)
  {
    assert [a, b][1..] == [b] && [b][1..] == [];
    assert Fold(Apply(Apply(f, a), b), []) == Apply(Apply(f, a), b);
  }

  /** What `run` parses of these arguments. */
  function Run(args: seq<string>): Fields {
    Fold(NO_FIELDS, Items(args))
  }

  lemma RunWithOption(a: string, v: string, image: string, opt: Opt)
    requires FlagOf(a).None? && OptOf(a) == Some(opt) && IsWord(image)
    ensures Run([a, v, image]) == Apply(Apply(NO_FIELDS, Set(opt, v)), Positional(image))
  {
    OneOption(a, v, image, opt);
    FoldTwo(NO_FIELDS, Set(opt, v), Positional(image));
  }

  /** One option and an image: the value lands, cut to its buffer, in the field of the option, and in no other. */
  lemma OptionLands(a: string, v: string, image: string)
    requires IsWord(image)
    ensures a == "--name" ==>
              Run([a, v, image]) == Fields(Cut(image, 511), Cut(v, 511), "", "", false, false, false, "", "", "")
    ensures a == "-w" || a == "--workdir" ==>
              Run([a, v, image]) == Fields(Cut(image, 511), "", Cut(v, 511), "", false, false, false, "", "", "")
    ensures a == "-p" || a == "--publish" ==>
              Run([a, v, image]) == Fields(Cut(image, 511), "", "", "", false, false, false, Cut(v, 63), "", "")
    ensures a == "-v" || a == "--volume" ==>
              Run([a, v, image]) == Fields(Cut(image, 511), "", "", "", false, false, false, "", Cut(v, 255), "")
    ensures a == "-e" || a == "--env" ==>
              Run([a, v, image]) == Fields(Cut(image, 511), "", "", "", false, false, false, "", "", v)
  {
    OptionsSpelled(a);
    FlagsSpelled(a);
    if OptOf(a).Some? {
      NoFlag(a);
      RunWithOption(a, v, image, OptOf(a).value);
    }
  }

  lemma NoFlag(a: string)
    requires OptOf(a).Some?
    ensures FlagOf(a).None?
  {}

  lemma FoldWords(f: Fields, image: string, command: string)
    requires f.image == "" && image != ""
    ensures Fold(f, [Positional(image), Positional(command)])
            == f.(image := Cut(image, MAX_PATH), command := Cut(command, MAX_COMMAND))
  {
    assert [Positional(image), Positional(command)][1..] == [Positional(command)];
    assert Cut(image, MAX_PATH) != "";
  }

  lemma RunWithFlag(a: string, image: string, command: string, flag: Item)
    requires FlagOf(a) == Some(flag) && IsWord(image) && IsWord(command)
    ensures Run([a, image, command])
            == Apply(NO_FIELDS, flag).(image := Cut(image, MAX_PATH), command := Cut(command, MAX_COMMAND))
  {
    WordIsOther(image);
    WordIsOther(command);
    var args, items := [a, image, command], [flag, Positional(image), Positional(command)];
    assert args[1..] == [image, command] && [image, command][1..] == [command] && [command][1..] == [];
    assert Items([command]) == [Positional(command)];
    assert Items([image, command]) == [Positional(image)] + [Positional(command)];
    assert Items(args) == items;
    assert items[1..] == [Positional(image), Positional(command)];
    FoldWords(Apply(NO_FIELDS, flag), image, command);
  }

  /** One flag, an image and a command. */
  lemma FlagLands(a: string, image: string, command: string)
    requires IsWord(image) && IsWord(command)
    ensures var i, c := Cut(image, 511), Cut(command, 255);
            && (a == "-d" || a == "--detach" ==>
                Run([a, image, command]) == Fields(i, "", "", c, true, false, false, "", "", ""))
            && (a == "-i" || a == "--interactive" ==>
                Run([a, image, command]) == Fields(i, "", "", c, false, true, false, "", "", ""))
            && (a == "-t" || a == "--tty" ==>
                Run([a, image, command]) == Fields(i, "", "", c, false, false, true, "", "", ""))
            && (a == "-it" ==>
                Run([a, image, command]) == Fields(i, "", "", c, false, true, true, "", "", ""))
  {
    FlagsSpelled(a);
    if FlagOf(a).Some? {
      RunWithFlag(a, image, command, FlagOf(a).value);
    }
  }

  /** Any other argument that begins with a dash is passed over. */
  lemma UnknownOptionIgnored(a: string, rest: seq<string>)
    requires a != "" && a[0] == '-'
    requires a !in {"-d", "--detach", "-it", "-i", "--interactive", "-t", "--tty", "--name", "-p", "--publish"}
    requires a !in {"-v", "--volume", "-e", "--env", "-w", "--workdir"}
    ensures Run([a] + rest) == Run(rest)
  {
    assert ([a] + rest)[1..] == rest;
    assert Items([a] + rest) == [Ignored(a)] + Items(rest);
    assert ([Ignored(a)] + Items(rest))[1..] == Items(rest);
  }

  /** An option at the very end, without its value, changes nothing. */
  lemma OptionAtEnd(a: string)
    requires a in {"--name", "-p", "--publish", "-v", "--volume", "-e", "--env", "-w", "--workdir"}
    ensures Run([a]) == NO_FIELDS
  {
    OptionsSpelled(a);
    NoFlag(a);
  }

  /** Two environment values are joined with a semicolon, unless the first is empty. */
  lemma TwoValues(a: string, v: string, b: string, w: string)
    requires (a == "-e" || a == "--env") && (b == "-e" || b == "--env")
    ensures Run([a, v, b, w]).env == if v == "" then w else v + ";" + w
  {
    OptionsSpelled(a);
    OptionsSpelled(b);
    NoFlag(a);
    NoFlag(b);
    assert [a, v, b, w][2..] == [b, w] && [b, w][2..] == [];
    assert Items([b, w]) == [Set(Env, w)];
    assert Items([a, v, b, w]) == [Set(Env, v), Set(Env, w)];
    FoldTwo(NO_FIELDS, Set(Env, v), Set(Env, w));
  }
}
