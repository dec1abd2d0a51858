/** The places configuration values are read from: environment variables,
    and files whose paths environment variables name. One model serves
    cfig/sources.py and its split successors cfig/sources/env.py and
    cfig/sources/envfile.py, which differ only in how the default
    environment is bound. */
module Sources {
  import opened Wrappers

  /** The part of the outside world a source can observe at the moment it
      is asked: the process environment and the readable files (path to
      whole contents). A path absent from `files` names no file. */
  datatype World = World(environ: map<string, string>, files: map<string, string>)

  /** The environment a source reads: the live process environment (the
      default, `os.environ`), or a mapping given at construction. */
  datatype Environment = ProcessEnvironment | Mapping(vars: map<string, string>)

  /** A source. Both kinds carry the prefix and suffix that turn a key into
      the name of an environment variable. */
  datatype Source =
    | EnvironmentSource(prefix: string := "", suffix: string := "", environment: Environment := ProcessEnvironment)
    | EnvironmentFileSource(prefix: string := "", suffix: string := "_FILE", environment: Environment := ProcessEnvironment)

  /** The variables visible to a source in a given world. */
  function Variables(env: Environment, w: World): (vars: map<string, string>)
  {
    match env
    case ProcessEnvironment => w.environ
    case Mapping(vars) => vars
  }

  /** `_process_key`: the name of the variable that holds `key`. */
  function ProcessKey(s: Source, key: string): (name: string)
    ensures |name| == |s.prefix| + |key| + |s.suffix|
    ensures name[..|s.prefix|] == s.prefix
    ensures name[|s.prefix|..|s.prefix| + |key|] == key
    ensures name[|s.prefix| + |key|..] == s.suffix
  {
    s.prefix + key + s.suffix
  }

  /** `EnvironmentSource.get`, which `EnvironmentFileSource.get` also
      reaches through `super()`: the variable's value, or None. An empty
      value is an answer: `""` is returned, and only the registry's lookup
      skips it. */
  function Lookup(s: Source, key: string, w: World): (r: Option<string>)
    ensures r.Some? <==> ProcessKey(s, key) in Variables(s.environment, w)
    ensures r.Some? ==> r.value == Variables(s.environment, w)[ProcessKey(s, key)]
  {
    var vars := Variables(s.environment, w);
    var name := ProcessKey(s, key);
    if name in vars then Some(vars[name]) else None
  }

  /** Opening and reading a whole file; a missing file is None
      (`FileNotFoundError` is caught). The empty path never names a file:
      `open("")` raises `FileNotFoundError`. */
  function ReadFile(files: map<string, string>, path: string): (r: Option<string>)
  {
    if path != "" && path in files then Some(files[path]) else None
  }

  /** `Source.get`: total; absence is None, never an error. */
  function Get(s: Source, key: string, w: World): (r: Option<string>)
    ensures r.Some? ==> Lookup(s, key, w).Some?
    ensures s.EnvironmentSource? ==> r == Lookup(s, key, w)
    ensures s.EnvironmentFileSource? && r.Some? ==>
              && Lookup(s, key, w).value != "" && Lookup(s, key, w).value in w.files
              && r.value == w.files[Lookup(s, key, w).value]
  {
    match s
    case EnvironmentSource(_, _, _) => Lookup(s, key, w)
    case EnvironmentFileSource(_, _, _) =>
      match Lookup(s, key, w)
      case None => None
      case Some(path) => ReadFile(w.files, path)
  }

  // ---------------------------------------------------------------------
  // Properties
  // ---------------------------------------------------------------------

  /** Two different keys never share a variable name: prefix and suffix
      are fixed per source. */
  lemma ProcessKeyInjective(s: Source, k1: string, k2: string)
    requires ProcessKey(s, k1) == ProcessKey(s, k2)
    ensures k1 == k2
  {
    assert |k1| == |k2|;
  }

  /** With the default prefix and suffix the key is looked up unchanged in
      the process environment. */
  lemma DefaultEnvironmentGet(key: string, w: World)
    ensures EnvironmentSource().prefix == "" && EnvironmentSource().suffix == ""
    ensures Get(EnvironmentSource(), key, w) == if key in w.environ then Some(w.environ[key]) else None
  {
    assert ProcessKey(EnvironmentSource(), key) == key;
  }

  /** The file source reads by default the variable `prefix + key + "_FILE"`. */
  lemma DefaultFileSourceVariable(prefix: string, key: string)
    ensures EnvironmentFileSource(prefix := prefix).suffix == "_FILE"
    ensures ProcessKey(EnvironmentFileSource(prefix := prefix), key) == prefix + key + "_FILE"
  {
  }

  /** The file source, in full: no variable, no value, whatever files exist;
      an empty path or a path naming no file, no value; otherwise the
      file's whole contents. */
  lemma FileSourceGet(prefix: string, suffix: string, env: Environment, key: string, w: World)
    ensures var s := EnvironmentFileSource(prefix, suffix, env);
            var vars, name := Variables(env, w), prefix + key + suffix;
      && (name !in vars ==> Get(s, key, w) == None)
      && (name in vars && (vars[name] == "" || vars[name] !in w.files) ==> Get(s, key, w) == None)
      && (name in vars && vars[name] != "" && vars[name] in w.files ==> Get(s, key, w) == Some(w.files[vars[name]]))
  {
  }

  /** When the path variable is unset the filesystem is not consulted:
      the answer is the same for every set of files. */
  lemma FileSourceIgnoresFilesWhenUnset(s: Source, key: string, w: World, files: map<string, string>)
    requires s.EnvironmentFileSource?
    requires Lookup(s, key, w).None?
    ensures Get(s, key, w) == Get(s, key, w.(files := files)) == None
  {
  }

  /** A path variable naming a missing file behaves exactly as an unset
      one: removing the variable from the environment the source reads (the
      process environment, or the source's own mapping) changes nothing. */
  lemma MissingFileIsAbsence(s: Source, key: string, w: World)
    requires s.EnvironmentFileSource?
    requires Lookup(s, key, w).Some?
    requires Lookup(s, key, w).value == "" || Lookup(s, key, w).value !in w.files
    ensures s.environment.ProcessEnvironment? ==>
              Get(s, key, w) == Get(s, key, w.(environ := w.environ - {ProcessKey(s, key)})) == None
    ensures s.environment.Mapping? ==>
              Get(s, key, w) == Get(s.(environment := Mapping(s.environment.vars - {ProcessKey(s, key)})), key, w) == None
  {
    var name := ProcessKey(s, key);
    if s.environment.ProcessEnvironment? {
      assert Lookup(s, key, w.(environ := w.environ - {name})) == None;
    } else {
      var unset := s.(environment := Mapping(s.environment.vars - {name}));
      assert ProcessKey(unset, key) == name;
      assert Lookup(unset, key, w) == None;
    }
  }

  /** A source's answer depends only on the variable its key maps to (and,
      for the file source, on the file that variable names): `get` has no
      memory and no other input. */
  lemma GetDependsOnlyOnItsVariable(s: Source, key: string, w1: World, w2: World)
    requires Lookup(s, key, w1) == Lookup(s, key, w2)
    requires s.EnvironmentFileSource? && Lookup(s, key, w1).Some? ==>
               ReadFile(w1.files, Lookup(s, key, w1).value) == ReadFile(w2.files, Lookup(s, key, w1).value)
    ensures Get(s, key, w1) == Get(s, key, w2)
  {
  }
}
