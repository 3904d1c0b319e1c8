/**
 Translation of the builder's configuration into `IMPORT_*` environment
 variables (`configEnv`). Top-level string options whose converted name is on
 a fixed allow-list become `IMPORT_<NAME>`; then every member of the nested
 `import` table becomes `IMPORT_<NAME>` unconditionally, overwriting.

 The name conversion (`snakeCase(key).toUpperCase()`) belongs to a library
 that is not part of this model: it is the parameter `name`, about which
 nothing is assumed.
 */
module ConfigImport {
  import opened JsValue

  type Env = map<string, Value>
  type NameFn = string -> string

  /** The recognised top-level options. */
  const AllowedConfigImports: set<string> := {"CACHE", "CURL_OPTS", "DEBUG", "RELOAD", "SERVER"}

  const ImportPrefix: string := "IMPORT_"

  function ImportVar(n: string): (r: string)
    ensures ImportPrefix <= r && r[|ImportPrefix|..] == n
  {
    ImportPrefix + n
  }

  /** The variable an entry is assigned to. */
  function VarOf(f: Field, name: NameFn): string
  {
    ImportVar(name(f.key))
  }

  /** The assignment `configEnv[VarOf(f)] = f.val`. */
  function Write(f: Field, name: NameFn): Field
  {
    Field(VarOf(f, name), f.val)
  }

  /** Does the top-level loop keep this entry? */
  predicate Kept(f: Field, name: NameFn)
  {
    f.val.Str? && name(f.key) in AllowedConfigImports
  }

  /** Does the top-level loop assign this entry to variable `k`? */
  predicate WritesTo(f: Field, name: NameFn, k: string)
  {
    Kept(f, name) && VarOf(f, name) == k
  }

  /** Entry `i` is the last top-level entry the first loop assigns to `k`. */
  predicate LastTopLevelWriter(config: seq<Field>, name: NameFn, i: nat, k: string)
  {
    i < |config| && WritesTo(config[i], name, k) &&
    forall j :: i < j < |config| ==> !WritesTo(config[j], name, k)
  }

  /** Member `j` is the last member the second loop assigns to `k`. */
  predicate LastImportWriter(members: seq<Field>, name: NameFn, j: nat, k: string)
  {
    j < |members| && VarOf(members[j], name) == k &&
    forall l :: j < l < |members| ==> VarOf(members[l], name) != k
  }

  /** The assignments the first loop performs, in order. */
  function TopLevelWrites(config: seq<Field>, name: NameFn): seq<Field>
  {
    if config == [] then []
    else
      var f := config[|config| - 1];
      TopLevelWrites(config[..|config| - 1], name) + (if Kept(f, name) then [Write(f, name)] else [])
  }

  /** The members of `config.import` the second loop visits: none when the
      table is absent or falsy. */
  function ImportMembers(config: seq<Field>): seq<Field>
  {
    match Get(config, "import")
    case Some(v) => if Truthy(v) then Members(v) else []
    case None => []
  }

  /** The assignments the second loop performs, in order. */
  function ImportWrites(members: seq<Field>, name: NameFn): seq<Field>
  {
    if members == [] then []
    else ImportWrites(members[..|members| - 1], name) + [Write(members[|members| - 1], name)]
  }

  /** Performing assignments `env[w.key] = w.val` one after the other. */
  function Apply(env: Env, writes: seq<Field>): Env
  {
    if writes == [] then env
    else
      var w := writes[|writes| - 1];
      Apply(env, writes[..|writes| - 1])[w.key := w.val]
  }

  /** The last value assigned to `k`, read backwards from the end. */
  function LastWrite(writes: seq<Field>, k: string): (r: Option<Value>)
    ensures r.None? <==> forall j :: 0 <= j < |writes| ==> writes[j].key != k
  {
    if writes == [] then None
    else if writes[|writes| - 1].key == k then Some(writes[|writes| - 1].val)
    else LastWrite(writes[..|writes| - 1], k)
  }

  /** The `configEnv` the two loops of `build` produce. */
  function ConfigEnv(config: seq<Field>, name: NameFn): (r: Env)
    ensures forall k :: k in r ==> ImportPrefix <= k
  {
    var r := Apply(Apply(map[], TopLevelWrites(config, name)), ImportWrites(ImportMembers(config), name));
    assert forall k :: k in r ==> ImportPrefix <= k by {
      forall k | k in r
        ensures ImportPrefix <= k
      {
        LemmaAssignedKeyPrefixed(config, name, k);
      }
    }
    r
  }

  /** The two loops of `build`, assigning into `configEnv` in place. */
  method TranslateConfig(config: seq<Field>, name: NameFn) returns (configEnv: Env)
    ensures configEnv == ConfigEnv(config, name)
    ensures forall k :: k in configEnv ==> ImportPrefix <= k
  {
    configEnv := map[];
    var i := 0;
    while i < |config|
      invariant 0 <= i <= |config|
      invariant configEnv == Apply(map[], TopLevelWrites(config[..i], name))
    {
      var f := config[i];
      var n := name(f.key);
      ghost var done := TopLevelWrites(config[..i], name);
      assert config[..i + 1] == config[..i] + [f];
      LemmaTopLevelWritesSnoc(config[..i], f, name);
      if f.val.Str? && n in AllowedConfigImports {
        configEnv := configEnv[ImportVar(n) := f.val];
        LemmaApplySnoc(map[], done, Write(f, name));
      } else {
        assert done + [] == done;
      }
      i := i + 1;
    }
    assert config[..i] == config;
    ghost var top := configEnv;
    var imp := Get(config, "import");
    if imp.Some? && Truthy(imp.value) {
      var members := Members(imp.value);
      var j := 0;
      while j < |members|
        invariant 0 <= j <= |members|
        invariant configEnv == Apply(top, ImportWrites(members[..j], name))
      {
        var n := name(members[j].key);
        configEnv := configEnv[ImportVar(n) := members[j].val];
        assert members[..j + 1][..j] == members[..j];
        LemmaApplySnoc(top, ImportWrites(members[..j], name), Write(members[j], name));
        j := j + 1;
      }
      assert members[..j] == members;
    }
  }

  lemma LemmaTopLevelWritesSnoc(p: seq<Field>, f: Field, name: NameFn)
    ensures TopLevelWrites(p + [f], name) ==
      TopLevelWrites(p, name) + (if Kept(f, name) then [Write(f, name)] else [])
  {
  }

  lemma LemmaApplySnoc(env: Env, writes: seq<Field>, w: Field)
    ensures Apply(env, writes + [w]) == Apply(env, writes)[w.key := w.val]
  {
  }

  /** Reference reading of `Apply`: a key holds the last value assigned to
      it, or its initial value when nothing assigned it. */
  lemma {:induction false} LemmaApplyLastWrite(env: Env, writes: seq<Field>, k: string)
    ensures k in Apply(env, writes) <==> LastWrite(writes, k).Some? || k in env
    ensures k in Apply(env, writes) ==>
      Apply(env, writes)[k] == if LastWrite(writes, k).Some? then LastWrite(writes, k).value else env[k]
  {
    if writes != [] {
      LemmaApplyLastWrite(env, writes[..|writes| - 1], k);
    }
  }

  /** The last assignment to `k` in the first loop comes from the last kept
      top-level entry that maps to `k`; there is none exactly when no kept
      entry maps to `k`. */
  lemma {:induction false} LemmaTopLevelLastWrite(config: seq<Field>, name: NameFn, k: string)
    ensures LastWrite(TopLevelWrites(config, name), k).None? <==>
      forall i :: 0 <= i < |config| ==> !WritesTo(config[i], name, k)
    ensures forall i: nat :: LastTopLevelWriter(config, name, i, k) ==>
      LastWrite(TopLevelWrites(config, name), k) == Some(config[i].val)
  {
    if config != [] {
      var n := |config| - 1;
      var p, f := config[..n], config[n];
      assert config == p + [f];
      LemmaTopLevelLastWrite(p, name, k);
      LemmaTopLevelWritesSnoc(p, f, name);
      var wp := TopLevelWrites(p, name);
      if Kept(f, name) {
        LemmaLastWriteSnoc(wp, Write(f, name), k);
      } else {
        assert wp + [] == wp;
      }
      if WritesTo(f, name, k) {
        forall i: nat | LastTopLevelWriter(config, name, i, k)
          ensures i == n
        {
        }
      } else {
        forall i: nat | LastTopLevelWriter(config, name, i, k)
          ensures LastTopLevelWriter(p, name, i, k)
        {
        }
      }
    }
  }

  /** The last assignment to `k` in the second loop comes from the last
      member that maps to `k`. */
  lemma {:induction false} LemmaImportLastWrite(members: seq<Field>, name: NameFn, k: string)
    ensures LastWrite(ImportWrites(members, name), k).None? <==>
      forall j :: 0 <= j < |members| ==> VarOf(members[j], name) != k
    ensures forall j: nat :: LastImportWriter(members, name, j, k) ==>
      LastWrite(ImportWrites(members, name), k) == Some(members[j].val)
  {
    if members != [] {
      var n := |members| - 1;
      var p, m := members[..n], members[n];
      assert members == p + [m];
      LemmaImportLastWrite(p, name, k);
      var wp := ImportWrites(p, name);
      assert ImportWrites(members, name) == wp + [Write(m, name)];
      LemmaLastWriteSnoc(wp, Write(m, name), k);
      if VarOf(m, name) == k {
        forall j: nat | LastImportWriter(members, name, j, k)
          ensures j == n
        {
        }
      } else {
        forall j: nat | LastImportWriter(members, name, j, k)
          ensures LastImportWriter(p, name, j, k)
        {
        }
      }
    }
  }

  lemma LemmaLastWriteSnoc(writes: seq<Field>, w: Field, k: string)
    ensures LastWrite(writes + [w], k) == if w.key == k then Some(w.val) else LastWrite(writes, k)
  {
  }

  /** The keys of `configEnv` are exactly the variables of the kept
      top-level entries and of the `import` members. */
  lemma LemmaConfigEnvKeys(config: seq<Field>, name: NameFn, k: string)
    ensures k in ConfigEnv(config, name) <==>
      (exists i :: 0 <= i < |config| && WritesTo(config[i], name, k)) ||
      (exists j :: 0 <= j < |ImportMembers(config)| && VarOf(ImportMembers(config)[j], name) == k)
  {
    var top := Apply(map[], TopLevelWrites(config, name));
    LemmaApplyLastWrite(top, ImportWrites(ImportMembers(config), name), k);
    LemmaApplyLastWrite(map[], TopLevelWrites(config, name), k);
    LemmaTopLevelLastWrite(config, name, k);
    LemmaImportLastWrite(ImportMembers(config), name, k);
  }

  /** Every variable the two loops assign is named `IMPORT_...`. */
  lemma LemmaAssignedKeyPrefixed(config: seq<Field>, name: NameFn, k: string)
    requires k in Apply(Apply(map[], TopLevelWrites(config, name)), ImportWrites(ImportMembers(config), name))
    ensures ImportPrefix <= k
  {
    var top := Apply(map[], TopLevelWrites(config, name));
    var m := ImportMembers(config);
    LemmaApplyLastWrite(top, ImportWrites(m, name), k);
    LemmaApplyLastWrite(map[], TopLevelWrites(config, name), k);
    LemmaTopLevelLastWrite(config, name, k);
    LemmaImportLastWrite(m, name, k);
    if LastWrite(ImportWrites(m, name), k).Some? {
      var j :| 0 <= j < |m| && VarOf(m[j], name) == k;
    } else {
      var i :| 0 <= i < |config| && WritesTo(config[i], name, k);
    }
  }

  /** A member of `config.import` lands in `configEnv` unchanged, whatever
      its name and type, unless a later member maps to the same variable;
      this holds whatever the top-level entries say about that variable. */
  lemma LemmaImportEntryWins(config: seq<Field>, name: NameFn, j: nat)
    requires j < |ImportMembers(config)|
    requires forall l :: j < l < |ImportMembers(config)| ==>
      VarOf(ImportMembers(config)[l], name) != VarOf(ImportMembers(config)[j], name)
    ensures VarOf(ImportMembers(config)[j], name) in ConfigEnv(config, name)
    ensures ConfigEnv(config, name)[VarOf(ImportMembers(config)[j], name)] == ImportMembers(config)[j].val
  {
    var m := ImportMembers(config);
    var k := VarOf(m[j], name);
    LemmaImportLastWrite(m, name, k);
    LemmaApplyLastWrite(Apply(map[], TopLevelWrites(config, name)), ImportWrites(m, name), k);
  }

  /** A kept top-level entry lands in `configEnv` unchanged when no later
      kept entry and no `import` member maps to the same variable. */
  lemma LemmaTopLevelEntryKept(config: seq<Field>, name: NameFn, i: nat)
    requires i < |config| && Kept(config[i], name)
    requires forall j :: i < j < |config| ==> !WritesTo(config[j], name, VarOf(config[i], name))
    requires forall j :: 0 <= j < |ImportMembers(config)| ==>
      VarOf(ImportMembers(config)[j], name) != VarOf(config[i], name)
    ensures VarOf(config[i], name) in ConfigEnv(config, name)
    ensures ConfigEnv(config, name)[VarOf(config[i], name)] == config[i].val
  {
    var k := VarOf(config[i], name);
    LemmaTopLevelLastWrite(config, name, k);
    LemmaImportLastWrite(ImportMembers(config), name, k);
    LemmaApplyLastWrite(map[], TopLevelWrites(config, name), k);
    LemmaApplyLastWrite(Apply(map[], TopLevelWrites(config, name)), ImportWrites(ImportMembers(config), name), k);
  }

  lemma {:induction false} LemmaTopLevelWritesConcat(a: seq<Field>, b: seq<Field>, name: NameFn)
    ensures TopLevelWrites(a + b, name) == TopLevelWrites(a, name) + TopLevelWrites(b, name)
  {
    if b != [] {
      var n := |b| - 1;
      assert (a + b)[..|a + b| - 1] == a + b[..n];
      LemmaTopLevelWritesConcat(a, b[..n], name);
    } else {
      assert a + b == a;
    }
  }

  /** A top-level entry that is not kept (not a string, or not an allowed
      name) and is not the `import` table adds nothing: removing it leaves
      `configEnv` as it was. */
  lemma LemmaUnkeptEntryAddsNothing(config: seq<Field>, name: NameFn, i: nat)
    requires i < |config| && !Kept(config[i], name) && config[i].key != "import"
    ensures ConfigEnv(config[..i] + config[i + 1..], name) == ConfigEnv(config, name)
  {
    var a, x, b := config[..i], config[i], config[i + 1..];
    assert config == a + ([x] + b);
    LemmaUnkeptWrites(a, x, b, name);
    LemmaGetConcat(a, [x] + b, "import");
    LemmaGetConcat([x], b, "import");
    LemmaGetConcat(a, b, "import");
    assert ImportMembers(a + ([x] + b)) == ImportMembers(a + b);
  }

  lemma LemmaUnkeptWrites(a: seq<Field>, x: Field, b: seq<Field>, name: NameFn)
    requires !Kept(x, name)
    ensures TopLevelWrites(a + ([x] + b), name) == TopLevelWrites(a + b, name)
  {
    LemmaTopLevelWritesConcat(a, [x] + b, name);
    LemmaTopLevelWritesConcat([x], b, name);
    LemmaTopLevelWritesConcat(a, b, name);
    assert TopLevelWrites([x], name) == [] by {
      assert [x][..0] == [];
    }
  }

  /** When no top-level entry is kept and the `import` table has no members,
      `configEnv` is empty. */
  lemma LemmaNothingToImportKeys(config: seq<Field>, name: NameFn)
    requires forall i :: 0 <= i < |config| ==> !Kept(config[i], name)
    requires ImportMembers(config) == []
    ensures ConfigEnv(config, name) == map[]
  {
    var e := ConfigEnv(config, name);
    forall k | k in e
      ensures false
    {
      LemmaConfigEnvKeys(config, name, k);
    }
    assert e.Keys == {};
  }

  lemma LemmaNoImportMembers(config: seq<Field>)
    requires Get(config, "import").None? || !Truthy(Get(config, "import").value)
    ensures ImportMembers(config) == []
  {
  }

  /** With no allowed string option and no truthy `import` table,
      `configEnv` is empty; so it is for the default configuration `{}`. */
  lemma LemmaNothingToImport(config: seq<Field>, name: NameFn)
    requires forall i :: 0 <= i < |config| ==> !Kept(config[i], name)
    requires Get(config, "import").None? || !Truthy(Get(config, "import").value)
    ensures ConfigEnv(config, name) == map[]
  {
    LemmaNoImportMembers(config);
    LemmaNothingToImportKeys(config, name);
  }
}
