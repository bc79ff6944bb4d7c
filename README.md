# Layered configuration overlay (appsettings) in Dafny

This project models the merge engine of the Go package `appsettings`
(`pkg/appsettings/load.go`). A loader object holds four optional inputs:
the argument list, the environment-variable list, an environment name and a
config-directory override. `Load` builds one untyped overlay,
`map[string]interface{}`, in a fixed order: the base file `config.json`,
then `config.<env>.json` when an environment is set, then the environment
variables, then the arguments. Each stage may overwrite keys set by an
earlier one. The result is projected into the caller's schema. The first
stage that fails ends the load with an error and no result.

Layout:

- `wrappers.dfy` (module `Wrappers`): `Option` and `Result`.
- `values.dfy` (module `Values`): the overlay's value type; `parseValue`
  with its three recognisers (`strconv.ParseBool`, `strconv.Atoi`, and
  `strconv.ParseFloat` as a parameter `isFloat`); ASCII `strings.ToLower`;
  and decimal rendering, used as the inverse of the integer branch.
- `overlays.dfy` (module `Overlays`): the shared map as a class `Overlay`,
  and the fold of single-key writes that both string sources perform.
- `sources.dfy` (module `Sources`): the file merge, `loadEnvVars` and
  `loadArgs` as functions of the map before the stage, with their
  key-by-key lemmas.
- `loader.dfy` (module `Loader`): the builder class `AppSettings<T>` with
  its setters and in-place stage methods, `Load`, the pipeline it is
  proved equal to, and the priority and fail-fast lemmas.

Inputs from outside the program are parameters:

- `Host.executableDir` stands for `os.Executable` followed by
  `filepath.Dir`. It is None when the executable cannot be found.
- `Host.readFile(dir, name)` stands for `filepath.Join`, `os.ReadFile`
  and `json.Unmarshal` together. It yields `NotFound`, `ReadFailed`,
  `ParseFailed` or `Parsed(members)`.
- `isFloat` is the set of strings `strconv.ParseFloat(_, 64)` accepts.
- `unmarshal` stands for `unmarshalToType`, the JSON round trip into the
  schema. It yields None when encoding/json rejects the overlay.

Three behaviours of the code worth stating:

- Boolean inference accepts exactly the twelve spellings of
  `strconv.ParseBool`, not any case of `true`/`false`. So `"tRUE"` stays
  text, and `"0"`/`"1"` are booleans.
- `loadArgs` does not skip the token it used as a flag's value. That token
  is never a flag, so it writes nothing either way, and the overlay is the
  same.
- A file holding JSON `null` decodes without error to a nil map in Go and
  changes nothing. It is a `Parsed` outcome with no members, not a parse
  error.

## Model

| member | source | states |
|---|---|---|
| Values.ParseValue | pkg/appsettings/load.go:192-210 | an inferred integer lies within Go's 64-bit `int`; a float or string result carries the input text unchanged; inference never yields a JSON value |
| Values.ParseValueOrder | pkg/appsettings/load.go:193-209 | the result is `true` exactly for the six true spellings and `false` exactly for the six false ones; an integer exactly when the text is no boolean spelling and `Atoi` accepts it; a float exactly when neither applies and `ParseFloat` accepts it; text in every other case |
| Values.ParseBool | pkg/appsettings/load.go:194-196 | exactly the six true spellings give true and exactly the six false spellings give false; every other text is rejected |
| Values.ParseInt | pkg/appsettings/load.go:199 | `Atoi` accepts a text exactly when it is an optional sign followed by one or more decimal digits whose signed value fits in 64 bits, and then returns that signed value |
| Values.ParseIntPlusAndLeadingZero | pkg/appsettings/load.go:199 | a leading `+`, or a leading zero after the sign, does not change what `Atoi` reads |
| Values.ParseValueOutOfRange | pkg/appsettings/load.go:199-209 | a sign and digits outside the 64-bit range are no integer: they become a float when `ParseFloat` accepts them, else text |
| Values.ParseIntFormatInt | pkg/appsettings/load.go:199-201 | reading back the decimal rendering of any 64-bit integer gives that integer |
| Values.FormatIntNotBool | pkg/appsettings/load.go:194-196 | no decimal rendering other than "0" and "1" is a boolean spelling |
| Values.ParseValueFormatInt | pkg/appsettings/load.go:194-201 | every 64-bit integer written in decimal is inferred as itself, except 0 and 1, which come out as `false` and `true` |
| Values.ParseValueMixedCase | pkg/appsettings/load.go:194-196 | "tRUE" and "true123" stay strings |
| Values.ParseValueBoolRows | pkg/appsettings/load_test.go:385-391 | "true", "True" give true; "false", "FALSE" and "0" give false |
| Values.ParseValueIntRows | pkg/appsettings/load_test.go:389-390 | "123" and "-456" give those integers |
| Values.ParseValueFloatRows | pkg/appsettings/load_test.go:392-394 | "123.45", "-67.89", "0.0" give floats when `ParseFloat` accepts them |
| Values.ParseValueStringRows | pkg/appsettings/load_test.go:395-398 | "hello", "", "123abc" and "true123" come back unchanged as text |
| Values.Lower | pkg/appsettings/load.go:156 | lower-casing keeps the length, lowers each ASCII letter in place, and leaves no upper-case letter |
| Values.LowerIdempotent | pkg/appsettings/load.go:176 | lowering a lowered key again changes nothing |
| Values.LowerFixesExactlyLowerCase | pkg/appsettings/load.go:156 | lowering leaves a string unchanged exactly when it has no upper-case letter |
| Overlays.ApplyEffectsAt | pkg/appsettings/load.go:150-161 | a sequence of writes never removes a key; a key is present afterwards exactly when it was before or is written; its last write decides its value; an unwritten key keeps its value |
| Overlays.ApplyEffectsNewKeys | pkg/appsettings/load.go:150-161 | a sequence of writes removes no key and adds only keys it writes |
| Overlays.ApplyEffectsUnion | pkg/appsettings/load.go:173-186 | applying a source's writes to a map equals the right-biased union of that map with the same writes applied to an empty map |
| Overlays.Overlay.constructor | pkg/appsettings/load.go:36 | the overlay starts empty |
| Sources.MergeFile | pkg/appsettings/load.go:121-142 | a missing file changes nothing and is no error; a read or decode error is returned without touching the map; a parsed object yields the old map overridden by every top-level key of the file |
| Sources.SplitAtFirst | pkg/appsettings/load.go:151-154 | there is no split exactly when the entry has no `=`; otherwise the entry is the `=`-free prefix, one `=`, and the rest |
| Sources.SplitAtFirstUnique | pkg/appsettings/load.go:151 | any way of writing the entry as an `=`-free prefix, `=`, and a rest is the split that is returned |
| Sources.EnvEntry | pkg/appsettings/load.go:151-160 | an entry writes nothing exactly when it has no `=`; the key it writes is lower-case |
| Sources.EnvEntrySplitsAtFirstEquals | pkg/appsettings/load.go:151-160 | `NAME=RAW`, with no `=` in NAME, writes lower-case NAME with the value inferred from RAW, which may itself contain `=` |
| Sources.EnvVarsOverlay | pkg/appsettings/load.go:145-164 | the environment-variable stage removes no key, and every key it adds is lower-case; the value of each key is given by Sources.EnvVarsOverlayAt |
| Sources.EnvVarsOverlayAt | pkg/appsettings/load.go:145-164 | the environment-variable stage removes nothing; a key is present afterwards exactly when it was before or some entry with `=` names it; the last such entry decides its value; other keys keep their values |
| Sources.SingleEnvVar | pkg/appsettings/load.go:150-161 | one entry `NAME=RAW` sets lower-case NAME to the inferred RAW and leaves all else unchanged |
| Sources.IsFlag | pkg/appsettings/load.go:174 | a token is a flag exactly when `--` is a prefix of it |
| Sources.ArgEffect | pkg/appsettings/load.go:174-185 | a token writes a key exactly when it starts with `--`; the key it writes is lower-case |
| Sources.ArgsOverlay | pkg/appsettings/load.go:168-189 | the argument stage removes no key, and every key it adds is lower-case; the value of each key is given by Sources.ArgsOverlayAt |
| Sources.ArgsOverlayAt | pkg/appsettings/load.go:168-189 | the argument stage removes nothing; a key is present afterwards exactly when it was before or some `--` token names it, so a plain token never creates a key; the last such token decides the value: the inferred next token when one exists without `--`, else `true` |
| Sources.FlagWithValue | pkg/appsettings/load.go:179-181 | `--FLAG VALUE`, where VALUE has no `--`, sets lower-case FLAG to the inferred VALUE and leaves all else unchanged |
| Sources.FlagAtEnd | pkg/appsettings/load.go:182-183 | a final `--FLAG` sets lower-case FLAG to `true` |
| Sources.FlagBeforeFlag | pkg/appsettings/load.go:179-183 | a flag followed by another flag is `true`, and so is the second |
| Sources.NilAndEmptyListsAgree | pkg/appsettings/load.go:146-148 | a nil list and an empty list both leave the map as it was |
| Loader.ResolveDirectory | pkg/appsettings/load.go:112-117 | an override is returned verbatim; without one, the executable's directory, or failure when that is unavailable |
| Loader.FileStages | pkg/appsettings/load.go:44-56 | the file stages succeed exactly when the base file, and the environment file when an environment is set, is missing or parsed; the overlay is then the base file's members overridden by the environment file's; a failure is always a config-file error |
| Loader.Stages | pkg/appsettings/load.go:44-66 | all stages succeed exactly when the file stages do, with the same error otherwise; the string stages keep every key of the files and add only lower-case keys; the union itself is Loader.StagesPriority |
| Loader.Pipeline | pkg/appsettings/load.go:35-75 | a load fails with the directory error exactly when no directory resolves; a success is the projection of the overlay of successful stages; Loader.PipelineFailsFast and Loader.PipelineSucceedsIff give the other cases |
| Loader.StagesPriority | pkg/appsettings/load.go:44-66 | when every stage succeeds, the overlay is the right-biased union of base file, environment file, variables and arguments, each taken on its own (args > env vars > env file > base), and every source's keys survive |
| Loader.PriorityScenario | pkg/appsettings/load_test.go:450-512 | with base and environment files, one variable and `--FLAG VALUE`: the env file overrides the base, the variable overrides both for its key, the argument overrides everything for its key |
| Loader.PipelineFailsFast | pkg/appsettings/load.go:38-72 | an unresolvable directory, a base file that fails to read or decode, an environment file that fails to read or decode after a usable base file, and a rejected projection each end the load with that stage's own error, whatever later stages would have read |
| Loader.PipelineSucceedsIff | pkg/appsettings/load.go:35-75 | a load succeeds exactly when the directory resolves, neither config file fails to read or decode, and the projection accepts the overlay |
| Loader.PipelineWithoutFiles | pkg/appsettings/load_test.go:514-556 | with no file in the (possibly non-existent) directory, the result is the projection of what the variables and then the arguments write onto an empty overlay; with neither, of the empty overlay |
| Loader.AppSettings.New | pkg/appsettings/load.go:23-30 | all four inputs start unset |
| Loader.AppSettings.WithArgs | pkg/appsettings/load.go:88-91 | sets only the argument list and returns the same instance |
| Loader.AppSettings.WithEnvVars | pkg/appsettings/load.go:94-97 | sets only the environment-variable list and returns the same instance |
| Loader.AppSettings.WithEnvironment | pkg/appsettings/load.go:100-103 | sets only the environment name and returns the same instance |
| Loader.AppSettings.WithConfigDirectory | pkg/appsettings/load.go:106-109 | sets only the directory override and returns the same instance |
| Loader.AppSettings.LoadConfigFile | pkg/appsettings/load.go:121-142 | the in-place key-by-key merge leaves the shared map equal to the file merge, and returns its error when there is one |
| Loader.AppSettings.LoadEnvVars | pkg/appsettings/load.go:145-164 | the in-place loop leaves the shared map equal to the environment-variable overlay of the old map |
| Loader.AppSettings.LoadArgs | pkg/appsettings/load.go:168-189 | the in-place loop leaves the shared map equal to the argument overlay of the old map |
| Loader.AppSettings.Load | pkg/appsettings/load.go:35-75 | the result is the pipeline's: directory, base file, environment file, variables, arguments, projection, ending at the first error |

## Left out

- File system and process: `os.ReadFile`, `os.Executable`, `filepath.Dir` and `filepath.Join` path cleaning are abstracted in `Host`.
- JSON: `json.Unmarshal` of the config files and all of `unmarshalToType` are opaque. This includes encoding/json's case-insensitive field matching, which lets the key `databaseurl` fill the schema field tagged `databaseURL`. The projection is the parameter `unmarshal`.
- Floating point: `strconv.ParseFloat` is the parameter `isFloat`. A float value keeps its source text, so two spellings of the same number are different values here.
- Values.Lower: models ASCII lower-casing only. Go's `strings.ToLower` also folds non-ASCII letters, which is Unicode case mapping outside this model.
- Error messages: only which stage failed, and for a file whether reading or decoding failed, is modelled. The `fmt.Errorf` text is not.
- The `error` results of `loadEnvVars` and `loadArgs`: they are always nil, so the branches of `Load` that test them cannot be taken and are not modelled.
- Loader.AppSettings.WithArgs: takes a list and stores it as set. A nil slice passed in from Go is modelled as the empty list, which `Sources.NilAndEmptyListsAgree` shows behaves the same. The same holds for `WithEnvVars`.
- Loader.EnvFileName: builds the name handed to `filepath.Join`. Join cleans the path, so an environment name such as `/../config` resolves to the base file `config.json`; path cleaning is not modelled, so that collision is not either.
- Loader.AppSettings.WithArgs: Go keeps the caller's slice by reference, so a later change to its elements by the caller is seen by `Load`. The model stores a copy of the list. The same holds for `WithEnvVars`.
- `getWD` is not a member of its own. It is the `executableDir` input.
