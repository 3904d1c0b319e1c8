# Bash builder: configuration to environment

This project models the part of the Vercel builder for Bash functions
(`src/index.ts`) that computes something: how `build` turns the user's
configuration into `IMPORT_*` environment variables (`configEnv`), and how it
layers those variables into two environments. The first is the environment of
the build step that runs `builder.sh`. The second is the runtime environment of
the deployed function.

- `js_value.dfy` (module `JsValue`): configuration values (strings, arrays,
  objects, and other primitives known only by their truthiness). It also has
  property lookup, truthiness and `Object.keys` paired with the property values.
- `config_import.dfy` (module `ConfigImport`): the five-name allow-list, and the
  two loops of `build` as the method `TranslateConfig`. That method is proved
  against `ConfigEnv`, which is the same assignments read as a sequence of
  writes. The properties are lemmas about `ConfigEnv`: which keys exist, which
  entry wins, what is dropped, and when the result is empty.
- `build_env.dfy` (module `BuildEnv`): the build-step environment, the function
  environment, and `Build`, which is `build` without its I/O.

The name conversion `snakeCase(key).toUpperCase()` comes from a library that is
not part of this model. It is the parameter `name: string -> string`, and
nothing is assumed about it. Every property holds for any such function.

`process.env`, the distribution directory `distPath`, the builder's directory
`__dirname` (`builderDir`) and the entrypoint are inputs.

## Model

| member | source | states |
|---|---|---|
| `JsValue.Get` | src/index.ts:49-52 | Looking up `config.import` finds nothing exactly when no field has that key. Otherwise the result is the value of a field with that key. |
| `JsValue.Truthy` | src/index.ts:49 | The `config.import` test: a value is falsy exactly when it is the empty string or a falsy primitive (`null`, `false`, `0`). Every array and object is truthy. |
| `JsValue.Members` | src/index.ts:50-52 | `Object.keys(config.import)` with `config.import[key]`: an object gives its fields. An array gives decimal indices with its elements, and a string gives decimal indices with its one-character strings. Numbers, booleans, `null` and every falsy value give nothing. |
| `ConfigImport.ImportVar` | src/index.ts:45 | `IMPORT_${name}` starts with `IMPORT_`, and what follows the prefix is exactly the converted name. |
| `ConfigImport.LastWrite` | src/index.ts:42-54 | The last value assigned to a variable is absent exactly when no assignment targets that variable. |
| `ConfigImport.TranslateConfig` | src/index.ts:38-54 | The two loops that assign into `configEnv` in place give exactly `ConfigEnv(config, name)`: the top-level assignments first, then the `import` assignments. Every key starts with `IMPORT_`. |
| `ConfigImport.LemmaApplyLastWrite` | src/index.ts:45-52 | After a series of `configEnv[k] = v` assignments, a key holds the last value assigned to it. A key never assigned keeps its earlier value, and a key is present only if it was present before or was assigned. |
| `ConfigImport.LemmaTopLevelLastWrite` | src/index.ts:42-47 | The first loop assigns a variable exactly when some top-level entry has a string value and a converted name on the allow-list, and that name maps to the variable. The value assigned last is that of the last such entry, so later entries overwrite earlier ones. |
| `ConfigImport.LemmaImportLastWrite` | src/index.ts:49-54 | The second loop assigns a variable exactly when some member of `config.import` maps to it. There is no allow-list and no type check. The value assigned last is that of the last such member. |
| `ConfigImport.LemmaConfigEnvKeys` | src/index.ts:42-54 | A key is in `configEnv` exactly when it is the variable of a kept top-level entry or of a member of the `import` table. |
| `ConfigImport.ConfigEnv` | src/index.ts:42-54 | The `configEnv` built by the two loops (top-level assignments, then `import` assignments): every key it gains starts with `IMPORT_`. |
| `ConfigImport.LemmaImportEntryWins` | src/index.ts:49-54 | A member of `config.import` that no later member shadows lands in `configEnv` with its value unchanged, whatever its type. This holds whatever the top-level entries assigned to the same variable, because the import loop runs second. |
| `ConfigImport.LemmaTopLevelEntryKept` | src/index.ts:42-47 | A kept top-level entry lands in `configEnv` with its string value when no later kept entry and no `import` member maps to the same variable. |
| `ConfigImport.LemmaUnkeptEntryAddsNothing` | src/index.ts:15-21 | A top-level entry that is not a string, or whose converted name is not one of CACHE, CURL_OPTS, DEBUG, RELOAD or SERVER, contributes nothing. Removing it, unless it is the `import` table, leaves `configEnv` unchanged. |
| `ConfigImport.LemmaNothingToImport` | src/index.ts:36-54 | With no allowed string entry and no truthy `import` table, `configEnv` is empty. This covers the default configuration `{}`. |
| `ConfigImport.LemmaNothingToImportKeys` | src/index.ts:38-54 | When no top-level entry is kept and the `import` table has no members, `configEnv` is empty. |
| `BuildEnv.Lift` | src/index.ts:58 | `...process.env` contributes every process variable with its string value, and nothing else. |
| `BuildEnv.ProcessPath` | src/index.ts:60 | `${process.env.PATH}` is the inherited `PATH` when it is set, and the text `undefined` when it is not. |
| `BuildEnv.BuildStepEnv` | src/index.ts:56-65 | `IMPORT_CACHE` is always `distPath + "/.import-cache"`. `PATH` is that directory's `bin` followed by `:` and the inherited `PATH`, or `undefined` when that is unset. `DIST`, `BUILDER` and `ENTRYPOINT` are the inputs. Every other key comes from `configEnv` if present there, else from `process.env`. The key set is the union of the three layers. |
| `BuildEnv.LambdaEnv` | src/index.ts:79-82 | The function environment has exactly the keys of `configEnv` plus `SCRIPT_FILENAME`. `SCRIPT_FILENAME` is the entrypoint, and every other entry is unchanged. |
| `BuildEnv.LemmaLambdaEnvOfConfig` | src/index.ts:79-82 | For a translated configuration, the function environment is `configEnv` with every value unchanged, plus `SCRIPT_FILENAME`. Every key other than `SCRIPT_FILENAME` starts with `IMPORT_`. No `process.env` variable reaches it, because `LambdaEnv` is not given the process environment (see `BuildEnv.Build`). |
| `BuildEnv.LemmaCacheOptionOnlyInLambda` | src/index.ts:56-82 | A `cache` string option that ends up as `IMPORT_CACHE` in `configEnv` reaches the function environment unchanged. In the build step, `IMPORT_CACHE` is still the fixed cache directory. |
| `BuildEnv.LemmaConfigOverridesProcessEnv` | src/index.ts:57-65 | A variable set by the `import` table overrides the same variable inherited from `process.env` in the build step, unless the build step sets that variable itself. |
| `BuildEnv.Build` | src/index.ts:31-88 | `build` without its I/O gives the build-step environment and the function environment of the translated configuration. The function environment is computed from `configEnv` and the entrypoint alone, never from `process.env`. When no configuration is given (default `{}`), it is only `SCRIPT_FILENAME`. |

## Left out

- `download`, running `builder.sh` through `execa`, `glob` and `createLambda`
  (src/index.ts:40, 69-83) are I/O and calls into other packages. The model
  computes the environments they receive and stops there.
- `snakeCase` and `toUpperCase` (src/index.ts:43, 51) belong to libraries that
  are not part of this model. They are the uninterpreted parameter `name`.
- `path.join` for `distPath` and `builderPath` (src/index.ts:39, 67): `distPath`
  and the builder directory are given strings, and path normalisation is not
  modelled.
- `analyze`, `version` and the re-exported `shouldServe` (src/index.ts:23-29)
  compute nothing worth stating.
- The `async`/`await` sequencing: the model is one sequential computation.
- How `execa` and the platform turn a non-string environment value into text is
  not modelled. `import` members are copied unchanged, so `configEnv` holds
  configuration values, not only strings.
- Numbers, booleans and `null` are known only by their truthiness, because
  nothing in `build` looks further into them.
- Enumeration order: an object's fields are given in the order JavaScript
  enumerates them. JavaScript's placing of integer-like keys first is taken as
  already applied.
- Object keys are unique in JavaScript. The model does not require this: lookup
  takes the first field with a key, and enumeration visits every field.
- When `import` is a non-empty string, `Object.keys` gives its UTF-16 code-unit
  indices. The model indexes Unicode characters instead.
- A `null` configuration, on which `Object.entries` throws, is not modelled. An
  absent configuration is, as the default `{}`.
