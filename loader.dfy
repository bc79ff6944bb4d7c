/** The loader of pkg/appsettings/load.go: the builder object that holds the
    four optional inputs, the in-place stages that fill the shared overlay,
    and `Load`, which runs them in a fixed order and stops at the first
    error. */
module Loader {
  import opened Wrappers
  import opened Values
  import opened Overlays
  import opened Sources

  /** Which stage of `Load` failed; the wrapped message text is not modelled. */
  datatype LoadError =
    | DirectoryError
    | BaseConfigError(cause: FileError)
    | EnvConfigError(cause: FileError)
    | UnmarshalError

  /** What the loader asks of the process and the file system:
      `executableDir` is the directory of the running executable
      (`os.Executable` then `filepath.Dir`; None when that fails), and
      `readFile(dir, name)` is the outcome of reading and decoding the file
      `name` in directory `dir`. */
  datatype Host = Host(executableDir: Option<string>, readFile: (string, string) -> FileOutcome)

  const BaseFileName: string := "config.json"

  /** `fmt.Sprintf("config.%s.json", environment)`. */
  function EnvFileName(environment: string): string
  {
    "config." + environment + ".json"
  }

  /** `getConfigDirectory`: the override verbatim when one is set, else the
      executable's directory, which may be unavailable. */
  function ResolveDirectory(configDirectory: Option<string>, executableDir: Option<string>): (r: Option<string>)
    ensures configDirectory.Some? ==> r == configDirectory
    ensures configDirectory.None? ==> r == executableDir
  {
    if configDirectory.Some? then configDirectory else executableDir
  }

  /** The overlay the file stages leave behind: the base file's members, then
      those of the environment file when an environment is set. */
  function FileStages(dir: string, environment: Option<string>, readFile: (string, string) -> FileOutcome)
    : (r: Result<map<string, Value>, LoadError>)
    ensures var base := readFile(dir, BaseFileName);
            r.Success? <==>
              && (base.NotFound? || base.Parsed?)
              && (environment.Some? ==>
                    var envFile := readFile(dir, EnvFileName(environment.value));
                    envFile.NotFound? || envFile.Parsed?)
    ensures r.Success? ==>
              r.value == Members(readFile(dir, BaseFileName)) +
                         if environment.Some? then Members(readFile(dir, EnvFileName(environment.value))) else map[]
    ensures r.Failure? ==> r.error.BaseConfigError? || r.error.EnvConfigError?
  {
    match MergeFile(map[], readFile(dir, BaseFileName))
    case Failure(e) => Failure(BaseConfigError(e))
    case Success(base) =>
      if environment.None? then Success(base)
      else
        match MergeFile(base, readFile(dir, EnvFileName(environment.value)))
        case Failure(e) => Failure(EnvConfigError(e))
        case Success(merged) => Success(merged)
  }

  /** The overlay after all four stages, once the directory is known. */
  function Stages(dir: string, environment: Option<string>, envVars: Option<seq<string>>, args: Option<seq<string>>,
                  readFile: (string, string) -> FileOutcome, isFloat: string -> bool)
    : (r: Result<map<string, Value>, LoadError>)
    ensures r.Success? <==> FileStages(dir, environment, readFile).Success?
    ensures r.Failure? ==> r.error == FileStages(dir, environment, readFile).error
    ensures r.Success? ==> FileStages(dir, environment, readFile).value.Keys <= r.value.Keys
    ensures r.Success? ==> forall k :: k in r.value && k !in FileStages(dir, environment, readFile).value ==> IsLowerCase(k)
  {
    match FileStages(dir, environment, readFile)
    case Failure(e) => Failure(e)
    case Success(files) => Success(ArgsOverlay(EnvVarsOverlay(files, envVars, isFloat), args, isFloat))
  }

  /** What `Load` returns for the given settings: the directory is resolved,
      the stages run, and the overlay is projected by `unmarshal`
      (`unmarshalToType`, None when encoding/json rejects it). */
  function Pipeline<T>(configDirectory: Option<string>, environment: Option<string>,
                       envVars: Option<seq<string>>, args: Option<seq<string>>,
                       host: Host, isFloat: string -> bool, unmarshal: map<string, Value> -> Option<T>)
    : (r: Result<T, LoadError>)
    ensures r == Failure(DirectoryError) <==> ResolveDirectory(configDirectory, host.executableDir).None?
    ensures r.Success? ==>
              var dir := ResolveDirectory(configDirectory, host.executableDir);
              && dir.Some?
              && Stages(dir.value, environment, envVars, args, host.readFile, isFloat).Success?
              && unmarshal(Stages(dir.value, environment, envVars, args, host.readFile, isFloat).value) == Some(r.value)
  {
    match ResolveDirectory(configDirectory, host.executableDir)
    case None => Failure(DirectoryError)
    case Some(d) =>
      match Stages(d, environment, envVars, args, host.readFile, isFloat)
      case Failure(e) => Failure(e)
      case Success(overlay) =>
        match unmarshal(overlay)
        case None => Failure(UnmarshalError)
        case Some(result) => Success(result)
  }

  /** The members a file outcome contributes when it is merged successfully. */
  function Members(file: FileOutcome): map<string, Value>
  {
    if file.Parsed? then file.members else map[]
  }

  // ---------------------------------------------------------------------
  // Properties of the pipeline

  /** When every stage succeeds, the overlay is the right-biased union of the
      four sources, each taken on its own: arguments override environment
      variables, which override the environment file, which overrides the
      base file; no stage removes a key an earlier stage set. */
  lemma StagesPriority(dir: string, environment: Option<string>, envVars: Option<seq<string>>,
                       args: Option<seq<string>>, readFile: (string, string) -> FileOutcome, isFloat: string -> bool)
    requires Stages(dir, environment, envVars, args, readFile, isFloat).Success?
    ensures var base := Members(readFile(dir, BaseFileName));
            var envFile := if environment.Some? then Members(readFile(dir, EnvFileName(environment.value))) else map[];
            var fromVars := EnvVarsOverlay(map[], envVars, isFloat);
            var fromArgs := ArgsOverlay(map[], args, isFloat);
            var overlay := Stages(dir, environment, envVars, args, readFile, isFloat).value;
            && overlay == base + envFile + fromVars + fromArgs
            && base.Keys <= overlay.Keys && envFile.Keys <= overlay.Keys
            && fromVars.Keys <= overlay.Keys && fromArgs.Keys <= overlay.Keys
  {
    var base := Members(readFile(dir, BaseFileName));
    var envFile := if environment.Some? then Members(readFile(dir, EnvFileName(environment.value))) else map[];
    var files := FileStages(dir, environment, readFile).value;
    assert files == base + envFile;
    var withVars := EnvVarsOverlay(files, envVars, isFloat);
    assert withVars == files + EnvVarsOverlay(map[], envVars, isFloat) by {
      if envVars.Some? {
        ApplyEffectsUnion(files, EnvEffects(envVars.value, isFloat));
      }
    }
    assert ArgsOverlay(withVars, args, isFloat) == withVars + ArgsOverlay(map[], args, isFloat) by {
      if args.Some? {
        ApplyEffectsUnion(withVars, ArgEffects(args.value, isFloat));
      }
    }
  }

  /** The layering scenario of `TestLoad_FullIntegration` in
      pkg/appsettings/load_test.go, for one variable `NAME=RAW` and the
      arguments `--FLAG VALUE`: the environment file overrides the base
      file, the variable overrides both for the lower-cased NAME, and the
      argument overrides everything for the lower-cased FLAG. */
  lemma PriorityScenario(dir: string, environment: string, base: map<string, Value>, envFile: map<string, Value>,
                         name: string, raw: string, flag: string, value: string,
                         readFile: (string, string) -> FileOutcome, isFloat: string -> bool)
    requires readFile(dir, BaseFileName) == Parsed(base)
    requires readFile(dir, EnvFileName(environment)) == Parsed(envFile)
    requires '=' !in name && !IsFlag(value)
    ensures Stages(dir, Some(environment), Some([name + "=" + raw]), Some(["--" + flag, value]), readFile, isFloat) ==
              Success((base + envFile)[Lower(name) := ParseValue(raw, isFloat)][Lower(flag) := ParseValue(value, isFloat)])
  {
    assert FileStages(dir, Some(environment), readFile) == Success(base + envFile) by {
      assert map[] + base == base;
    }
    SingleEnvVar(base + envFile, name, raw, isFloat);
    var withVars := (base + envFile)[Lower(name) := ParseValue(raw, isFloat)];
    FlagWithValue(withVars, flag, value, isFloat);
  }

  /** The first failing stage decides the error, whatever the later stages
      would have read: an unresolvable directory, then the base file, then
      the environment file, then the projection. */
  lemma PipelineFailsFast<T>(configDirectory: Option<string>, environment: Option<string>,
                             envVars: Option<seq<string>>, args: Option<seq<string>>,
                             host: Host, isFloat: string -> bool, unmarshal: map<string, Value> -> Option<T>)
    ensures var r := Pipeline(configDirectory, environment, envVars, args, host, isFloat, unmarshal);
            var dir := ResolveDirectory(configDirectory, host.executableDir);
            && (dir.None? ==> r == Failure(DirectoryError))
            && (dir.Some? && host.readFile(dir.value, BaseFileName).ReadFailed? ==>
                  r == Failure(BaseConfigError(ReadError)))
            && (dir.Some? && host.readFile(dir.value, BaseFileName).ParseFailed? ==>
                  r == Failure(BaseConfigError(ParseError)))
            && (dir.Some? && environment.Some? ==>
                  var base := host.readFile(dir.value, BaseFileName);
                  var envFile := host.readFile(dir.value, EnvFileName(environment.value));
                  && ((base.NotFound? || base.Parsed?) && envFile.ReadFailed? ==>
                        r == Failure(EnvConfigError(ReadError)))
                  && ((base.NotFound? || base.Parsed?) && envFile.ParseFailed? ==>
                        r == Failure(EnvConfigError(ParseError))))
            && (dir.Some? && FileStages(dir.value, environment, host.readFile).Success? ==>
                  (r == Failure(UnmarshalError) <==>
                     unmarshal(Stages(dir.value, environment, envVars, args, host.readFile, isFloat).value).None?))
  {
  }

  /** `Load` succeeds exactly when the directory resolves, neither config
      file fails to read or decode, and the projection accepts the overlay;
      a missing file is never an error. */
  lemma PipelineSucceedsIff<T>(configDirectory: Option<string>, environment: Option<string>,
                               envVars: Option<seq<string>>, args: Option<seq<string>>,
                               host: Host, isFloat: string -> bool, unmarshal: map<string, Value> -> Option<T>)
    ensures var dir := ResolveDirectory(configDirectory, host.executableDir);
            Pipeline(configDirectory, environment, envVars, args, host, isFloat, unmarshal).Success? <==>
              && dir.Some?
              && (host.readFile(dir.value, BaseFileName).NotFound? || host.readFile(dir.value, BaseFileName).Parsed?)
              && (environment.Some? ==>
                    var file := host.readFile(dir.value, EnvFileName(environment.value));
                    file.NotFound? || file.Parsed?)
              && unmarshal(Stages(dir.value, environment, envVars, args, host.readFile, isFloat).value).Some?
  {
  }

  /** With no file in the directory (which need not exist), `Load` projects
      what the variables and the arguments write onto an empty overlay; with
      neither, that is the empty overlay, the schema's zero value. */
  lemma PipelineWithoutFiles<T>(configDirectory: string, environment: Option<string>,
                                envVars: Option<seq<string>>, args: Option<seq<string>>,
                                host: Host, isFloat: string -> bool, unmarshal: map<string, Value> -> Option<T>)
    requires forall name :: host.readFile(configDirectory, name).NotFound?
    ensures var overlay := ArgsOverlay(EnvVarsOverlay(map[], envVars, isFloat), args, isFloat);
            Pipeline(Some(configDirectory), environment, envVars, args, host, isFloat, unmarshal) ==
              if unmarshal(overlay).Some? then Success(unmarshal(overlay).value) else Failure(UnmarshalError)
    ensures envVars.None? && args.None? ==>
              ArgsOverlay(EnvVarsOverlay(map[], envVars, isFloat), args, isFloat) == map[]
  {
    assert FileStages(configDirectory, environment, host.readFile) == Success(map[]);
  }

  // ---------------------------------------------------------------------
  // The builder and its stages

  class AppSettings<T> {
    var args: Option<seq<string>>
    var envVars: Option<seq<string>>
    var environment: Option<string>
    var configDirectory: Option<string>

    /** `New`: every input unset. */
    constructor New()
      ensures args.None? && envVars.None? && environment.None? && configDirectory.None?
    {
      args := None;
      envVars := None;
      environment := None;
      configDirectory := None;
    }

    method WithArgs(tokens: seq<string>) returns (r: AppSettings<T>)
      modifies this
      ensures r == this && args == Some(tokens)
      ensures envVars == old(envVars) && environment == old(environment) && configDirectory == old(configDirectory)
    {
      args := Some(tokens);
      r := this;
    }

    method WithEnvVars(entries: seq<string>) returns (r: AppSettings<T>)
      modifies this
      ensures r == this && envVars == Some(entries)
      ensures args == old(args) && environment == old(environment) && configDirectory == old(configDirectory)
    {
      envVars := Some(entries);
      r := this;
    }

    method WithEnvironment(name: string) returns (r: AppSettings<T>)
      modifies this
      ensures r == this && environment == Some(name)
      ensures args == old(args) && envVars == old(envVars) && configDirectory == old(configDirectory)
    {
      environment := Some(name);
      r := this;
    }

    method WithConfigDirectory(dir: string) returns (r: AppSettings<T>)
      modifies this
      ensures r == this && configDirectory == Some(dir)
      ensures args == old(args) && envVars == old(envVars) && environment == old(environment)
    {
      configDirectory := Some(dir);
      r := this;
    }

    /** `loadConfigFile`: reads `name` in `dir` and merges its top-level
        members into the overlay, one key at a time. */
    method LoadConfigFile(readFile: (string, string) -> FileOutcome, dir: string, name: string, overlay: Overlay)
      returns (err: Option<FileError>)
      modifies overlay
      ensures var merged := MergeFile(old(overlay.entries), readFile(dir, name));
              && (merged.Failure? ==> err == Some(merged.error) && overlay.entries == old(overlay.entries))
              && (merged.Success? ==> err == None && overlay.entries == merged.value)
    {
      match readFile(dir, name)
      case NotFound =>
        return None;
      case ReadFailed =>
        return Some(ReadError);
      case ParseFailed =>
        return Some(ParseError);
      case Parsed(members) =>
        var pending := members.Keys;
        while pending != {}
          invariant pending <= members.Keys
          invariant overlay.entries == old(overlay.entries) + map k | k in members.Keys - pending :: members[k]
          decreases pending
        {
          var key :| key in pending;
          overlay.entries := overlay.entries[key := members[key]];
          pending := pending - {key};
        }
        assert members.Keys - pending == members.Keys;
        return None;
    }

    /** `loadEnvVars`. */
    method LoadEnvVars(overlay: Overlay, isFloat: string -> bool)
      modifies overlay
      ensures overlay.entries == EnvVarsOverlay(old(overlay.entries), envVars, isFloat)
    {
      if envVars.None? {
        return;
      }
      var entries := envVars.value;
      ghost var effects := EnvEffects(entries, isFloat);
      var i := 0;
      while i < |entries|
        invariant 0 <= i <= |entries|
        invariant overlay.entries == ApplyEffects(old(overlay.entries), effects[..i])
      {
        ghost var before := overlay.entries;
        var parts := SplitAtFirst(entries[i], '=');
        if parts.Some? {
          var key := Lower(parts.value.0);
          overlay.entries := overlay.entries[key := ParseValue(parts.value.1, isFloat)];
        }
        assert overlay.entries == Apply(before, effects[i]);
        assert effects[..i + 1][..i] == effects[..i];
        i := i + 1;
      }
      assert effects[..|entries|] == effects;
    }

    /** `loadArgs`. */
    method LoadArgs(overlay: Overlay, isFloat: string -> bool)
      modifies overlay
      ensures overlay.entries == ArgsOverlay(old(overlay.entries), args, isFloat)
    {
      if args.None? {
        return;
      }
      var tokens := args.value;
      ghost var effects := ArgEffects(tokens, isFloat);
      var i := 0;
      while i < |tokens|
        invariant 0 <= i <= |tokens|
        invariant overlay.entries == ApplyEffects(old(overlay.entries), effects[..i])
      {
        ghost var before := overlay.entries;
        var token := tokens[i];
        if IsFlag(token) {
          var key := Lower(token[2..]);
          if i + 1 < |tokens| && !IsFlag(tokens[i + 1]) {
            overlay.entries := overlay.entries[key := ParseValue(tokens[i + 1], isFloat)];
          } else {
            overlay.entries := overlay.entries[key := Bool(true)];
          }
        }
        assert overlay.entries == Apply(before, effects[i]);
        assert effects[..i + 1][..i] == effects[..i];
        i := i + 1;
      }
      assert effects[..|tokens|] == effects;
    }

    /** `Load`: builds a fresh overlay stage by stage and projects it,
        returning at the first error. */
    method Load(host: Host, isFloat: string -> bool, unmarshal: map<string, Value> -> Option<T>)
      returns (r: Result<T, LoadError>)
      ensures r == Pipeline(configDirectory, environment, envVars, args, host, isFloat, unmarshal)
    {
      var overlay := new Overlay();
      var dir := ResolveDirectory(configDirectory, host.executableDir);
      if dir.None? {
        return Failure(DirectoryError);
      }
      var err := LoadConfigFile(host.readFile, dir.value, BaseFileName, overlay);
      if err.Some? {
        return Failure(BaseConfigError(err.value));
      }
      if environment.Some? {
        err := LoadConfigFile(host.readFile, dir.value, EnvFileName(environment.value), overlay);
        if err.Some? {
          return Failure(EnvConfigError(err.value));
        }
      }
      LoadEnvVars(overlay, isFloat);
      LoadArgs(overlay, isFloat);
      var result := unmarshal(overlay.entries);
      if result.None? {
        return Failure(UnmarshalError);
      }
      return Success(result.value);
    }
  }

  /** A client in the style of `TestChaining` in
      pkg/appsettings/load_test.go: the setters chain on one instance. */
  method ChainingClient()
  {
    var a := new AppSettings<int>.New();
    var b := a.WithArgs(["--test"]);
    var c := b.WithEnvVars(["TEST=value"]);
    var d := c.WithEnvironment("test");
    var e := d.WithConfigDirectory("/tmp");
    assert e == a;
    assert a.args == Some(["--test"]) && a.envVars == Some(["TEST=value"]);
    assert a.environment == Some("test") && a.configDirectory == Some("/tmp");
    assert ResolveDirectory(a.configDirectory, None) == Some("/tmp");
  }
}
