/** Requirements a project declares on environment variables, the status a
    check of one produces, and the user's command-line overrides
    (`conda_kapsel/plugins/requirement.py`). */
module Requirements {
  import opened Wrappers
  import opened Strings

  /** A value found under a requirement's options in the manifest. */
  datatype OptionValue = BoolValue(b: bool) | StringValue(s: string)

  type Options = map<string, OptionValue>

  /** Python truthiness of an option value. */
  predicate Truthy(v: OptionValue)
  {
    match v
    case BoolValue(b) => b
    case StringValue(s) => s != ""
  }

  /** The generic requirement, or one specialised for a registered service type
      (whose Python class name the catalog supplies). */
  datatype RequirementKind = EnvVarKind | ServiceKind(serviceType: string, className: string)

  datatype Requirement = Requirement(kind: RequirementKind, envVar: string, options: Options)

  /** Options given as `None` are stored as an empty mapping. */
  function NormalizeOptions(options: Option<Options>): (r: Options)
    ensures options.None? ==> r == map[]
    ensures options.Some? ==> r == options.value
  {
    if options.Some? then options.value else map[]
  }

  /** `EnvVarRequirement(registry, env_var, options)` */
  function EnvVarRequirement(envVar: string, options: Option<Options>): (r: Requirement)
    ensures r.kind == EnvVarKind && r.envVar == envVar
    ensures "encrypted" in r.options <==> options.Some? && "encrypted" in options.value
  {
    Requirement(EnvVarKind, envVar, NormalizeOptions(options))
  }

  // ---------------------------------------------------------------------
  // The `encrypted` property

  const SecretSuffixes: seq<string> := ["_PASSWORD", "_SECRET_KEY", "_SECRET"]

  /** The naming convention for secrets. */
  predicate HasSecretSuffix(name: string)
  {
    exists i :: 0 <= i < |SecretSuffixes| && EndsWith(name, SecretSuffixes[i])
  }

  lemma SecretSuffixIff(name: string)
    ensures HasSecretSuffix(name) <==>
      EndsWith(name, "_PASSWORD") || EndsWith(name, "_SECRET") || EndsWith(name, "_SECRET_KEY")
  {
    if EndsWith(name, "_PASSWORD") {
      assert EndsWith(name, SecretSuffixes[0]);
    } else if EndsWith(name, "_SECRET_KEY") {
      assert EndsWith(name, SecretSuffixes[1]);
    } else if EndsWith(name, "_SECRET") {
      assert EndsWith(name, SecretSuffixes[2]);
    }
  }

  /** `EnvVarRequirement.encrypted`: an explicit `encrypted` option decides; otherwise
      the requirement is a secret exactly when its name ends in one of the suffixes. */
  function Encrypted(r: Requirement): (e: bool)
    ensures "encrypted" in r.options ==> e == Truthy(r.options["encrypted"])
    ensures "encrypted" !in r.options ==>
      (e <==> EndsWith(r.envVar, "_PASSWORD") || EndsWith(r.envVar, "_SECRET") || EndsWith(r.envVar, "_SECRET_KEY"))
  {
    SecretSuffixIff(r.envVar);
    if "encrypted" in r.options then Truthy(r.options["encrypted"]) else HasSecretSuffix(r.envVar)
  }

  /** Without an `encrypted` option, a requirement is encrypted exactly when its name
      ends in `_PASSWORD`, `_SECRET` or `_SECRET_KEY`. */
  lemma EncryptedByDefaultIff(envVar: string)
    ensures Encrypted(EnvVarRequirement(envVar, None)) <==>
      EndsWith(envVar, "_PASSWORD") || EndsWith(envVar, "_SECRET") || EndsWith(envVar, "_SECRET_KEY")
  {
  }

  /** Every name built on a secret suffix defaults to encrypted, and an explicit
      `encrypted=False` turns that default off. */
  lemma {:induction false} SecretSuffixDefaultsEncrypted(prefix: string, i: nat)
    requires i < |SecretSuffixes|
    ensures Encrypted(EnvVarRequirement(prefix + SecretSuffixes[i], None))
    ensures !Encrypted(EnvVarRequirement(prefix + SecretSuffixes[i], Some(map["encrypted" := BoolValue(false)])))
  {
    EndsWithAppended(prefix, SecretSuffixes[i]);
  }

  /** An explicit `encrypted` option always wins over the naming convention. */
  lemma ExplicitEncryptedWins(envVar: string, options: Options)
    requires "encrypted" in options
    ensures Encrypted(EnvVarRequirement(envVar, Some(options))) == Truthy(options["encrypted"])
  {
  }

  /** `FOO` is not a secret by default; `encrypted=True` makes it one. */
  lemma PlainNameNotEncrypted()
    ensures !Encrypted(EnvVarRequirement("FOO", None))
    ensures Encrypted(EnvVarRequirement("FOO", Some(map["encrypted" := BoolValue(true)])))
  {
    EncryptedByDefaultIff("FOO");
    EndsWithTooLong("FOO", "_PASSWORD");
    EndsWithTooLong("FOO", "_SECRET");
    EndsWithTooLong("FOO", "_SECRET_KEY");
  }

  // ---------------------------------------------------------------------
  // Overrides and status

  /** `UserConfigOverrides(env_spec_name=...)` */
  datatype UserConfigOverrides = UserConfigOverrides(envSpecName: Option<string>)

  /** `UserConfigOverrides()` pins no environment spec. */
  function DefaultOverrides(): (o: UserConfigOverrides)
    ensures o.envSpecName.None?
  {
    UserConfigOverrides(None)
  }

  /** The persisted per-project local state a check may consult. */
  type LocalState = map<string, string>

  /** `RequirementStatus`: `hasBeenProvided` is the value its truthiness stands for. */
  datatype RequirementStatus = RequirementStatus(
    hasBeenProvided: bool,
    description: string,
    logs: seq<string>,
    errors: seq<string>,
    requirement: Requirement)

  /** A status is never satisfied while it carries errors, and always describes itself. */
  predicate StatusWellFormed(s: RequirementStatus)
  {
    (s.errors != [] ==> !s.hasBeenProvided) && s.description != ""
  }

  /** The variable's value, with the empty string read as "not set". */
  function ValueOf(envVar: string, environ: map<string, string>): (v: Option<string>)
    ensures v.Some? <==> envVar in environ && environ[envVar] != ""
    ensures v.Some? ==> v.value == environ[envVar]
  {
    if envVar in environ && environ[envVar] != "" then Some(environ[envVar]) else None
  }

  function UnsetMessage(envVar: string): string
  {
    "Environment variable " + envVar + " is not set."
  }

  function SetMessage(r: Requirement, value: string): string
  {
    if Encrypted(r) then "Environment variable " + r.envVar + " is set."
    else "Environment variable " + r.envVar + " set to '" + value + "'"
  }

  /** `EnvVarRequirement.check_status(environ, local_state, env_spec_name, overrides)`:
      satisfied exactly when the variable holds a non-empty value; no provider has run,
      so logs and errors are empty. */
  function CheckStatus(r: Requirement, environ: map<string, string>, localState: LocalState,
                       envSpecName: string, overrides: UserConfigOverrides): (s: RequirementStatus)
    requires r.kind == EnvVarKind
    ensures s.requirement == r
    ensures s.hasBeenProvided <==> r.envVar in environ && environ[r.envVar] != ""
    ensures !s.hasBeenProvided ==> s.description == "Environment variable " + r.envVar + " is not set."
    ensures s.logs == [] && s.errors == []
    ensures StatusWellFormed(s)
  {
    match ValueOf(r.envVar, environ)
    case None => RequirementStatus(false, UnsetMessage(r.envVar), [], [], r)
    case Some(value) => RequirementStatus(true, SetMessage(r, value), [], [], r)
  }

  /** A variable bound to `''` gives exactly the status of an unset one. */
  lemma EmptyTreatedAsUnset(r: Requirement, environ: map<string, string>, localState: LocalState,
                            envSpecName: string, overrides: UserConfigOverrides)
    requires r.kind == EnvVarKind
    ensures CheckStatus(r, environ[r.envVar := ""], localState, envSpecName, overrides)
         == CheckStatus(r, environ - {r.envVar}, localState, envSpecName, overrides)
    ensures !CheckStatus(r, environ[r.envVar := ""], localState, envSpecName, overrides).hasBeenProvided
  {
  }

  // ---------------------------------------------------------------------
  // The `repr` forms

  function ClassName(r: Requirement): string
  {
    match r.kind
    case EnvVarKind => "EnvVarRequirement"
    case ServiceKind(_, className) => className
  }

  /** `"%s(env_var='%s')" % (class name, env_var)`: the class name, then the variable
      name between fixed delimiters, so that the name can be read back. */
  function RequirementRepr(r: Requirement): (text: string)
    ensures ReprEnvVar(text, ClassName(r)) == Some(r.envVar)
  {
    var prefix := ClassName(r) + "(env_var='";
    var text := prefix + r.envVar + "')";
    assert text[..|prefix|] == prefix;
    assert text[|prefix|..|text| - 2] == r.envVar;
    assert ClassName(r) + "(env_var='" + r.envVar + "')" == text;
    text
  }

  /** Reads the variable name back out of a requirement's `repr`. */
  function ReprEnvVar(text: string, className: string): (r: Option<string>)
  {
    var prefix := className + "(env_var='";
    if |prefix| + 2 <= |text| && text[..|prefix|] == prefix && text[|text| - 2..] == "')"
    then Some(text[|prefix|..|text| - 2])
    else None
  }

  function PythonBoolRepr(b: bool): string
  {
    if b then "True" else "False"
  }

  lemma PlainStatusText(d: string, rr: string)
    ensures AllPlain(d) ==>
      "RequirementStatus(" + "False" + "," + PythonRepr(d) + "," + rr + ")"
        == "RequirementStatus(False,'" + d + "'," + rr + ")"
  {
    if AllPlain(d) {
      calc {
        "RequirementStatus(" + "False" + "," + PythonRepr(d) + "," + rr + ")";
        "RequirementStatus(" + "False" + "," + ("'" + d + "'") + "," + rr + ")";
        { ReprPieces(); }
        "RequirementStatus(False,'" + d + "'," + rr + ")";
      }
    }
  }

  /** `"RequirementStatus(%r,%r,%r)" % (has_been_provided, status_description, requirement)`;
      an unsatisfied status whose description needs no escaping shows it verbatim. */
  function StatusRepr(s: RequirementStatus): (text: string)
    ensures !s.hasBeenProvided && AllPlain(s.description) ==>
      text == "RequirementStatus(False,'" + s.description + "'," + RequirementRepr(s.requirement) + ")"
  {
    PlainStatusText(s.description, RequirementRepr(s.requirement));
    "RequirementStatus(" + PythonBoolRepr(s.hasBeenProvided) + "," + PythonRepr(s.description) + ","
      + RequirementRepr(s.requirement) + ")"
  }

  lemma UnsetMessagePlain(envVar: string)
    requires AllPlain(envVar)
    ensures AllPlain(UnsetMessage(envVar))
  {
    var pre, post := "Environment variable ", " is not set.";
    assert AllPlain(pre) && AllPlain(post);
    AllPlainConcat(pre, envVar);
    AllPlainConcat(pre + envVar, post);
  }

  lemma ReprPieces()
    ensures "RequirementStatus(" + "False" + "," + "'" == "RequirementStatus(False,'"
    ensures "'" + "," == "',"
    ensures "EnvVarRequirement" + "(env_var='" == "EnvVarRequirement(env_var='"
  {
  }

  /** For any variable whose name needs no escaping and that is unset or empty, both
      `repr` forms are the fixed texts built around its name. */
  lemma UnsetStatusRepr(envVar: string, environ: map<string, string>, localState: LocalState,
                        envSpecName: string, overrides: UserConfigOverrides)
    requires AllPlain(envVar)
    requires envVar !in environ || environ[envVar] == ""
    ensures RequirementRepr(EnvVarRequirement(envVar, None)) == "EnvVarRequirement(env_var='" + envVar + "')"
    ensures StatusRepr(CheckStatus(EnvVarRequirement(envVar, None), environ, localState, envSpecName, overrides))
         == "RequirementStatus(False,'" + UnsetMessage(envVar) + "'," + RequirementRepr(EnvVarRequirement(envVar, None)) + ")"
  {
    var r := EnvVarRequirement(envVar, None);
    var s := CheckStatus(r, environ, localState, envSpecName, overrides);
    assert s == RequirementStatus(false, UnsetMessage(envVar), [], [], r);
    UnsetMessagePlain(envVar);
    ReprPieces();
  }

  lemma FooTexts()
    ensures UnsetMessage("FOO") == "Environment variable FOO is not set."
    ensures RequirementRepr(EnvVarRequirement("FOO", None)) == "EnvVarRequirement(env_var='FOO')"
  {
  }

  /** The status of `FOO=''` and both `repr` forms. */
  lemma FooEmptyStatus()
    ensures var s := CheckStatus(EnvVarRequirement("FOO", None), map["FOO" := ""], map[], "default", DefaultOverrides());
      !s.hasBeenProvided && s.description == "Environment variable FOO is not set." && s.logs == [] && s.errors == []
      && RequirementRepr(s.requirement) == "EnvVarRequirement(env_var='FOO')"
      && StatusRepr(s) == "RequirementStatus(False,'" + "Environment variable FOO is not set." + "',"
                          + "EnvVarRequirement(env_var='FOO')" + ")"
  {
    assert AllPlain("FOO");
    UnsetStatusRepr("FOO", map["FOO" := ""], map[], "default", DefaultOverrides());
    FooTexts();
  }
}
