/**
 The two environments `build` assembles from `configEnv`: the one the build
 script runs in, and the one the deployed function runs with. Spreads in an
 object literal are last-writer-wins, which is map union `+` here.

 `process.env`, the distribution directory, the builder's own directory
 (`__dirname`) and the entrypoint are inputs.
 */
module BuildEnv {
  import opened JsValue
  import opened ConfigImport

  /** The variables the build step sets itself, overriding every other layer. */
  const BuildStepVars: set<string> := {"PATH", "IMPORT_CACHE", "DIST", "BUILDER", "ENTRYPOINT"}

  const ScriptFilename: string := "SCRIPT_FILENAME"

  /** `${distPath}/.import-cache` */
  function ImportCacheDir(distPath: string): string
  {
    distPath + "/.import-cache"
  }

  /** `${process.env.PATH}`: an unset variable reads as the text "undefined". */
  function ProcessPath(processEnv: map<string, string>): (r: string)
    ensures "PATH" in processEnv ==> r == processEnv["PATH"]
    ensures "PATH" !in processEnv ==> r == "undefined"
  {
    if "PATH" in processEnv then processEnv["PATH"] else "undefined"
  }

  /** `process.env`, whose values are all strings. */
  function Lift(processEnv: map<string, string>): (r: Env)
    ensures r.Keys == processEnv.Keys
    ensures forall k :: k in r ==> r[k] == Str(processEnv[k])
  {
    map k | k in processEnv :: Str(processEnv[k])
  }

  /** The environment of the build step. */
  function BuildStepEnv(processEnv: map<string, string>, configEnv: Env, distPath: string,
                        builderDir: string, entrypoint: string): (env: Env)
    ensures env.Keys == processEnv.Keys + configEnv.Keys + BuildStepVars
    ensures env["IMPORT_CACHE"] == Str(ImportCacheDir(distPath))
    ensures env["PATH"] == Str(ImportCacheDir(distPath) + "/bin:" + ProcessPath(processEnv))
    ensures env["DIST"] == Str(distPath)
    ensures env["BUILDER"] == Str(builderDir)
    ensures env["ENTRYPOINT"] == Str(entrypoint)
    ensures forall k :: k in env && k !in BuildStepVars ==>
      env[k] == if k in configEnv then configEnv[k] else Str(processEnv[k])
  {
    var cache := ImportCacheDir(distPath);
    Lift(processEnv) + configEnv + map[
      "PATH" := Str(cache + "/bin:" + ProcessPath(processEnv)),
      "IMPORT_CACHE" := Str(cache),
      "DIST" := Str(distPath),
      "BUILDER" := Str(builderDir),
      "ENTRYPOINT" := Str(entrypoint)]
  }

  /** The environment of the deployed function. */
  function LambdaEnv(configEnv: Env, entrypoint: string): (env: Env)
    ensures env.Keys == configEnv.Keys + {ScriptFilename}
    ensures env[ScriptFilename] == Str(entrypoint)
    ensures forall k :: k in configEnv && k != ScriptFilename ==> env[k] == configEnv[k]
  {
    configEnv[ScriptFilename := Str(entrypoint)]
  }

  /** The function's environment is `configEnv`, every entry unchanged, plus
      `SCRIPT_FILENAME`, whose name no `IMPORT_` variable can take. */
  lemma LemmaLambdaEnvOfConfig(config: seq<Field>, name: NameFn, entrypoint: string)
    ensures LambdaEnv(ConfigEnv(config, name), entrypoint).Keys == ConfigEnv(config, name).Keys + {ScriptFilename}
    ensures forall k :: k in ConfigEnv(config, name) ==>
      LambdaEnv(ConfigEnv(config, name), entrypoint)[k] == ConfigEnv(config, name)[k]
    ensures forall k :: k in LambdaEnv(ConfigEnv(config, name), entrypoint) ==>
      k == ScriptFilename || ImportPrefix <= k
  {
    assert !(ImportPrefix <= ScriptFilename) by {
      assert ScriptFilename[0] != ImportPrefix[0];
    }
  }

  /** A `cache` option that reaches `configEnv` as `IMPORT_CACHE` is passed
      to the deployed function, while the build step always gets its own
      cache directory instead. */
  lemma LemmaCacheOptionOnlyInLambda(config: seq<Field>, name: NameFn, i: nat,
                                     processEnv: map<string, string>, distPath: string,
                                     builderDir: string, entrypoint: string)
    requires LastTopLevelWriter(config, name, i, "IMPORT_CACHE")
    requires forall j :: 0 <= j < |ImportMembers(config)| ==> VarOf(ImportMembers(config)[j], name) != "IMPORT_CACHE"
    ensures "IMPORT_CACHE" in LambdaEnv(ConfigEnv(config, name), entrypoint)
    ensures LambdaEnv(ConfigEnv(config, name), entrypoint)["IMPORT_CACHE"] == config[i].val
    ensures BuildStepEnv(processEnv, ConfigEnv(config, name), distPath, builderDir, entrypoint)["IMPORT_CACHE"]
      == Str(ImportCacheDir(distPath))
  {
    LemmaTopLevelEntryKept(config, name, i);
  }

  /** An option the configuration sets (here through the `import` table)
      overrides the same variable inherited from `process.env` in the build
      step, unless it is one of the variables the build step sets itself. */
  lemma LemmaConfigOverridesProcessEnv(config: seq<Field>, name: NameFn, j: nat, k: string,
                                       processEnv: map<string, string>, distPath: string,
                                       builderDir: string, entrypoint: string)
    requires LastImportWriter(ImportMembers(config), name, j, k)
    requires k !in BuildStepVars
    ensures k in BuildStepEnv(processEnv, ConfigEnv(config, name), distPath, builderDir, entrypoint)
    ensures BuildStepEnv(processEnv, ConfigEnv(config, name), distPath, builderDir, entrypoint)[k]
      == ImportMembers(config)[j].val
  {
    LemmaImportEntryWins(config, name, j);
  }

  /** `build`, without its I/O: translate the configuration (the default is
      `{}`), then assemble the build-step and function environments. */
  method Build(config: Option<seq<Field>>, name: NameFn, processEnv: map<string, string>,
               distPath: string, builderDir: string, entrypoint: string)
    returns (env: Env, environment: Env)
    ensures var cfg := if config.Some? then config.value else [];
      && env == BuildStepEnv(processEnv, ConfigEnv(cfg, name), distPath, builderDir, entrypoint)
      && environment == LambdaEnv(ConfigEnv(cfg, name), entrypoint)
    ensures config.None? ==> environment == map[ScriptFilename := Str(entrypoint)]
  {
    var cfg := if config.Some? then config.value else [];
    var configEnv := TranslateConfig(cfg, name);
    env := BuildStepEnv(processEnv, configEnv, distPath, builderDir, entrypoint);
    environment := LambdaEnv(configEnv, entrypoint);
  }
}
