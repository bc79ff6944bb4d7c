/** The three kinds of overlay stage in pkg/appsettings/load.go, as
    functions of the map before the stage: a config file (`loadConfigFile`),
    the environment variables (`loadEnvVars`) and the command-line
    arguments (`loadArgs`). The methods of `Loader.AppSettings` that run
    these stages in place are proved equal to them. */
module Sources {
  import opened Wrappers
  import opened Values
  import opened Overlays

  // ---------------------------------------------------------------------
  // Config files

  /** What reading one config file and decoding it as a JSON object gave:
      `os.ReadFile` reported that the file does not exist, failed in another
      way, or returned bytes that `json.Unmarshal` rejected, or accepted as a
      top-level object with the given members. */
  datatype FileOutcome =
    | NotFound
    | ReadFailed
    | ParseFailed
    | Parsed(members: map<string, Value>)

  /** The error `loadConfigFile` returns. */
  datatype FileError = ReadError | ParseError

  /** `loadConfigFile`: a missing file is no error and changes nothing; a
      read or decode error is returned before the map is touched; otherwise
      every top-level key of the file overrides the map. */
  function MergeFile(m: map<string, Value>, file: FileOutcome): (r: Result<map<string, Value>, FileError>)
    ensures file.NotFound? ==> r == Success(m)
    ensures file.ReadFailed? ==> r == Failure(ReadError)
    ensures file.ParseFailed? ==> r == Failure(ParseError)
    ensures file.Parsed? ==> r.Success? && r.value.Keys == m.Keys + file.members.Keys
    ensures file.Parsed? ==> forall k :: k in file.members ==> r.value[k] == file.members[k]
    ensures file.Parsed? ==> forall k :: k in m && k !in file.members ==> r.value[k] == m[k]
  {
    match file
    case NotFound => Success(m)
    case ReadFailed => Failure(ReadError)
    case ParseFailed => Failure(ParseError)
    case Parsed(members) => Success(m + members)
  }

  // ---------------------------------------------------------------------
  // Environment variables

  /** `strings.SplitN(s, string(sep), 2)` when it yields two parts: the text
      before the first `sep`, and everything after it. */
  function SplitAtFirst(s: string, sep: char): (r: Option<(string, string)>)
    ensures r.None? <==> sep !in s
    ensures r.Some? ==> s == r.value.0 + [sep] + r.value.1 && sep !in r.value.0
  {
    if s == [] then None
    else if s[0] == sep then Some(([], s[1..]))
    else
      match SplitAtFirst(s[1..], sep)
      case None => None
      case Some(parts) => Some(([s[0]] + parts.0, parts.1))
  }

  /** The split at the first separator is the only way to write `s` as a
      separator-free prefix, the separator, and the rest. */
  lemma {:induction false} SplitAtFirstUnique(s: string, sep: char, before: string, after: string)
    requires s == before + [sep] + after && sep !in before
    ensures SplitAtFirst(s, sep) == Some((before, after))
  {
    if before != [] {
      assert s[0] == before[0] != sep;
      assert s[1..] == before[1..] + [sep] + after;
      assert [s[0]] + before[1..] == before;
      SplitAtFirstUnique(s[1..], sep, before[1..], after);
    } else {
      assert s[1..] == after;
    }
  }

  /** The write one `NAME=VALUE` entry performs, if any. */
  function EnvEntry(entry: string, isFloat: string -> bool): (r: Option<Assign>)
    ensures r.None? <==> '=' !in entry
    ensures r.Some? ==> IsLowerCase(r.value.key)
  {
    match SplitAtFirst(entry, '=')
    case None => None
    case Some(parts) => Some(Assign(Lower(parts.0), ParseValue(parts.1, isFloat)))
  }

  /** An entry `NAME=VALUE` whose NAME has no `=` writes the lower-cased NAME
      with the value inferred from VALUE, which may itself contain `=`. */
  lemma EnvEntrySplitsAtFirstEquals(name: string, raw: string, isFloat: string -> bool)
    requires '=' !in name
    ensures EnvEntry(name + "=" + raw, isFloat) == Some(Assign(Lower(name), ParseValue(raw, isFloat)))
  {
    SplitAtFirstUnique(name + "=" + raw, '=', name, raw);
  }

  function EnvEffects(entries: seq<string>, isFloat: string -> bool): seq<Option<Assign>>
  {
    seq(|entries|, j requires 0 <= j < |entries| => EnvEntry(entries[j], isFloat))
  }

  /** `loadEnvVars`: nothing for a nil list, otherwise the writes of the
      entries in order. */
  function EnvVarsOverlay(m: map<string, Value>, envVars: Option<seq<string>>, isFloat: string -> bool)
    : (r: map<string, Value>)
    ensures m.Keys <= r.Keys
    ensures forall k :: k in r && k !in m ==> IsLowerCase(k)
  {
    match envVars
    case None => m
    case Some(entries) =>
      var effects := EnvEffects(entries, isFloat);
      ApplyEffectsNewKeys(m, effects);
      ApplyEffects(m, effects)
  }

  /** The environment-variable stage, key by key: it removes nothing; a key
      is present afterwards exactly when it was before or some entry with an
      `=` names it; the last such entry decides its value; every other key
      keeps its value. */
  lemma EnvVarsOverlayAt(m: map<string, Value>, entries: seq<string>, isFloat: string -> bool, k: string)
    ensures k in EnvVarsOverlay(m, Some(entries), isFloat) <==>
              k in m || exists j :: 0 <= j < |entries| && Writes(EnvEntry(entries[j], isFloat), k)
    ensures forall j :: 0 <= j < |entries| && Writes(EnvEntry(entries[j], isFloat), k) &&
                        (forall j' :: j < j' < |entries| ==> !Writes(EnvEntry(entries[j'], isFloat), k)) ==>
              EnvVarsOverlay(m, Some(entries), isFloat)[k] == EnvEntry(entries[j], isFloat).value.value
    ensures k in m && (forall j :: 0 <= j < |entries| ==> !Writes(EnvEntry(entries[j], isFloat), k)) ==>
              EnvVarsOverlay(m, Some(entries), isFloat)[k] == m[k]
  {
    var effects := EnvEffects(entries, isFloat);
    assert EnvVarsOverlay(m, Some(entries), isFloat) == ApplyEffects(m, effects);
    assert |effects| == |entries|;
    assert forall j :: 0 <= j < |entries| ==> effects[j] == EnvEntry(entries[j], isFloat);
    ApplyEffectsAt(m, effects, k);
    forall j | 0 <= j < |entries| && Writes(EnvEntry(entries[j], isFloat), k) &&
               (forall j' :: j < j' < |entries| ==> !Writes(EnvEntry(entries[j'], isFloat), k))
      ensures LastWriter(effects, j, k)
    {
    }
  }

  /** A single entry `NAME=RAW` sets just the lower-cased NAME, to the value
      inferred from RAW. */
  lemma SingleEnvVar(m: map<string, Value>, name: string, raw: string, isFloat: string -> bool)
    requires '=' !in name
    ensures EnvVarsOverlay(m, Some([name + "=" + raw]), isFloat) == m[Lower(name) := ParseValue(raw, isFloat)]
  {
    EnvEntrySplitsAtFirstEquals(name, raw, isFloat);
    var effects := EnvEffects([name + "=" + raw], isFloat);
    assert effects[0] == Some(Assign(Lower(name), ParseValue(raw, isFloat)));
    assert effects[..0] == [];
    assert ApplyEffects(m, effects) == m[Lower(name) := ParseValue(raw, isFloat)];
  }

  // ---------------------------------------------------------------------
  // Command-line arguments

  /** `strings.HasPrefix(token, "--")`. */
  function IsFlag(token: string): (r: bool)
    ensures r <==> "--" <= token
  {
    |token| >= 2 && token[0] == '-' && token[1] == '-'
  }

  /** The write performed at token `i`: a flag token sets its lower-cased name
      to the inferred next token when that one exists and is not a flag,
      and to `true` otherwise; any other token writes nothing. */
  function ArgEffect(args: seq<string>, i: nat, isFloat: string -> bool): (r: Option<Assign>)
    requires i < |args|
    ensures r.Some? <==> IsFlag(args[i])
    ensures r.Some? ==> IsLowerCase(r.value.key)
  {
    if IsFlag(args[i]) then
      var key := Lower(args[i][2..]);
      if i + 1 < |args| && !IsFlag(args[i + 1]) then Some(Assign(key, ParseValue(args[i + 1], isFloat)))
      else Some(Assign(key, Bool(true)))
    else None
  }

  function ArgEffects(args: seq<string>, isFloat: string -> bool): seq<Option<Assign>>
  {
    seq(|args|, j requires 0 <= j < |args| => ArgEffect(args, j, isFloat))
  }

  /** `loadArgs`: nothing for a nil list, otherwise the writes of the tokens
      in order. */
  function ArgsOverlay(m: map<string, Value>, args: Option<seq<string>>, isFloat: string -> bool)
    : (r: map<string, Value>)
    ensures m.Keys <= r.Keys
    ensures forall k :: k in r && k !in m ==> IsLowerCase(k)
  {
    match args
    case None => m
    case Some(tokens) =>
      var effects := ArgEffects(tokens, isFloat);
      ApplyEffectsNewKeys(m, effects);
      ApplyEffects(m, effects)
  }

  /** Flag token `j` names key `k`. */
  predicate FlagFor(args: seq<string>, j: int, k: string)
  {
    0 <= j < |args| && IsFlag(args[j]) && Lower(args[j][2..]) == k
  }

  /** The argument stage, key by key: it removes nothing; a key is present
      afterwards exactly when it was before or some `--` token names it
      (so a token without `--` never creates a key by itself); the last
      such token decides the value, which is the inferred next token when
      there is one that does not start with `--`, and `true` otherwise;
      every other key keeps its value. */
  lemma ArgsOverlayAt(m: map<string, Value>, args: seq<string>, isFloat: string -> bool, k: string)
    ensures k in ArgsOverlay(m, Some(args), isFloat) <==>
              k in m || exists j :: FlagFor(args, j, k)
    ensures forall j :: FlagFor(args, j, k) && (forall j' :: j < j' < |args| ==> !FlagFor(args, j', k)) ==>
              ArgsOverlay(m, Some(args), isFloat)[k] ==
                if j + 1 < |args| && !IsFlag(args[j + 1]) then ParseValue(args[j + 1], isFloat) else Bool(true)
    ensures k in m && (forall j :: !FlagFor(args, j, k)) ==>
              ArgsOverlay(m, Some(args), isFloat)[k] == m[k]
  {
    var effects := ArgEffects(args, isFloat);
    ApplyEffectsAt(m, effects, k);
    assert forall j :: 0 <= j < |args| ==> (Writes(effects[j], k) <==> FlagFor(args, j, k));
    forall j | FlagFor(args, j, k) && (forall j' :: j < j' < |args| ==> !FlagFor(args, j', k))
      ensures LastWriter(effects, j, k)
    {
    }
  }

  /** `--FLAG VALUE`, with VALUE not a flag, sets just the lower-cased FLAG,
      to the value inferred from VALUE. */
  lemma FlagWithValue(m: map<string, Value>, flag: string, value: string, isFloat: string -> bool)
    requires !IsFlag(value)
    ensures ArgsOverlay(m, Some(["--" + flag, value]), isFloat) == m[Lower(flag) := ParseValue(value, isFloat)]
  {
    var tokens := ["--" + flag, value];
    var effects := ArgEffects(tokens, isFloat);
    assert tokens[0][2..] == flag;
    assert effects[0] == Some(Assign(Lower(flag), ParseValue(value, isFloat)));
    assert effects[..1][..0] == [];
    assert ApplyEffects(m, effects[..1]) == m[Lower(flag) := ParseValue(value, isFloat)];
  }

  /** A flag with nothing after it is the boolean `true`. */
  lemma FlagAtEnd(m: map<string, Value>, flag: string, isFloat: string -> bool)
    ensures ArgsOverlay(m, Some(["--" + flag]), isFloat) == m[Lower(flag) := Bool(true)]
  {
    var tokens := ["--" + flag];
    var effects := ArgEffects(tokens, isFloat);
    assert tokens[0][2..] == flag;
    assert effects[0] == Some(Assign(Lower(flag), Bool(true)));
    assert effects[..0] == [];
    assert ApplyEffects(m, effects) == m[Lower(flag) := Bool(true)];
  }

  /** A flag followed by another flag is the boolean `true`, and so is the
      second one. */
  lemma FlagBeforeFlag(m: map<string, Value>, flag: string, next: string, isFloat: string -> bool)
    ensures ArgsOverlay(m, Some(["--" + flag, "--" + next]), isFloat) ==
              m[Lower(flag) := Bool(true)][Lower(next) := Bool(true)]
  {
    var tokens := ["--" + flag, "--" + next];
    var effects := ArgEffects(tokens, isFloat);
    assert tokens[0][2..] == flag && tokens[1][2..] == next;
    assert effects[0] == Some(Assign(Lower(flag), Bool(true)));
    assert effects[1] == Some(Assign(Lower(next), Bool(true)));
    assert effects[..1][..0] == [];
    assert ApplyEffects(m, effects[..1]) == m[Lower(flag) := Bool(true)];
  }

  /** A nil list and an empty list leave the map alike untouched. */
  lemma NilAndEmptyListsAgree(m: map<string, Value>, isFloat: string -> bool)
    ensures EnvVarsOverlay(m, None, isFloat) == EnvVarsOverlay(m, Some([]), isFloat) == m
    ensures ArgsOverlay(m, None, isFloat) == ArgsOverlay(m, Some([]), isFloat) == m
  {
  }
}
