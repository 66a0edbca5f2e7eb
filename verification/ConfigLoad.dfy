/** Loading the configuration: the file, then the environment, then the command line. */
module ConfigLoad {
  import opened Common
  import opened ConfigMerge
  import opened EnvTree
  import opened EnvNames

  // The path meets no variable's: none is the path itself, above it or below it.
  ghost predicate Untouched(items: seq<Var>, p: Path) {
    forall x :: x in items ==> !(x.path <= p) && !(p <= x.path)
  }

  lemma Given(items: seq<Var>, x: Var)
    requires Consistent(items) && x in items
    ensures Assembled(items).Ok? && KindAt(Assembled(items).value, x.path) == Plain(x.value)
  {
    AssembledShows(items, x.path);
    LastAtIn(items, x.path);
  }

  lemma NotGiven(items: seq<Var>, p: Path)
    requires Consistent(items) && Untouched(items, p) && p != []
    ensures Assembled(items).Ok? && !Settles(Assembled(items).value, p)
  {
    AssembledShows(items, p);
    LastAtIn(items, p);
    if Covers(Assembled(items).value, p) {
      var q := CoveredBy(Assembled(items).value, p);
      AssembledShows(items, q);
      LastAtIn(items, q);
      assert false;
    }
  }

  /** Where the command line is silent, every variable's value is read back at its path, whatever the
      file says there, above it or below it. */
  lemma VariableWins(yaml: Value, items: seq<Var>, cli: Value, x: Var)
    requires yaml.Dict? && cli.Dict? && Consistent(items) && x in items && !Settles(cli, x.path)
    ensures Assembled(items).Ok?
    ensures Setting(Loaded(yaml, Assembled(items).value, cli), x.path) == Some(x.value)
  {
    Given(items, x);
    SettingPriority(yaml, Assembled(items).value, cli, x.path);
    hide Loaded, Assembled;
  }

  /** A path that neither the command line settles nor a variable meets is read from the file. */
  lemma FileRemains(yaml: Value, items: seq<Var>, cli: Value, p: Path)
    requires yaml.Dict? && cli.Dict? && Consistent(items) && p != [] && Untouched(items, p) && !Settles(cli, p)
    ensures Assembled(items).Ok?
    ensures Setting(Loaded(yaml, Assembled(items).value, cli), p) == Setting(yaml, p)
  {
    NotGiven(items, p);
    SettingPriority(yaml, Assembled(items).value, cli, p);
    hide Loaded, Assembled;
  }

  /** The same in terms of the names: a variable's value is read back at the path its name stands for. */
  lemma NamedWins(yaml: Value, environ: seq<(string, string)>, parse: string -> Scalar, cli: Value, i: nat, p: Path)
    requires yaml.Dict? && cli.Dict? && NamesApart(environ, parse)
    requires i < |environ| && Names(environ[i].0, p) && !Settles(cli, p)
    ensures var env := Assembled(Vars(environ, parse));
            env.Ok? && Setting(Loaded(yaml, env.value, cli), p) == Some(parse(environ[i].1))
  {
    var x := Var(p, parse(environ[i].1));
    ApartConsistent(environ, parse);
    VarsListed(environ, parse, x);
    hide Names, Vars, Consistent, Assembled, Loaded, Settles, Setting, NamesApart;
    VariableWins(yaml, Vars(environ, parse), cli, x);
  }

  // What load_config hands to the settings model; a variable that cannot be set fails the whole load.
  method LoadConfig(yaml: Value, environ: seq<(string, string)>, parse: string -> Scalar, cli: Option<Value>)
    returns (raw: Result<Value, Fault>)
    requires yaml.Dict? && (cli.Some? ==> cli.value.Dict?)
    ensures var env := Assembled(Vars(environ, parse));
            raw == if env.Err? then env else Ok(Loaded(yaml, env.value, if cli.Some? then cli.value else EMPTY))
    ensures NamesApart(environ, parse) ==>
              raw.Ok? && forall i, p :: 0 <= i < |environ| && Names(environ[i].0, p) &&
                                        (cli.Some? ==> !Settles(cli.value, p)) ==>
                                        Setting(raw.value, p) == Some(parse(environ[i].1))
  {
    hide Names, NamesApart, Vars, Assembled, Loaded, Settles, Setting;
    assert NamesApart(environ, parse) ==> Assembled(Vars(environ, parse)).Ok? by {
      if NamesApart(environ, parse) {
        ApartConsistent(environ, parse);
        AssembledShows(Vars(environ, parse), []);
      }
    }
    var env := LoadEnvOverrides(environ, parse);
    if env.Err? {
      return env;
    }
    var layers := LoadLayers(yaml, env.value, cli);
    raw := Ok(layers);
    ghost var over := if cli.Some? then cli.value else EMPTY;
    if NamesApart(environ, parse) {
      forall i, p | 0 <= i < |environ| && Names(environ[i].0, p) && (cli.Some? ==> !Settles(cli.value, p))
        ensures Setting(raw.value, p) == Some(parse(environ[i].1))
      {
        NothingSettled(environ[i].0, p);
        NamedWins(yaml, environ, parse, over, i, p);
      }
    }
  }

  lemma NothingSettled(name: string, p: Path)
    requires Names(name, p)
    ensures !Settles(EMPTY, p)
  {
    NothingInEmpty(p);
  }
}
