/** The kinds of command a project declares and the checks a project load applies
    to each entry of the manifest's `commands` section (`conda_kapsel/project.py`). */
module CommandTypes {

  /** `ALL_COMMAND_TYPES`, in declaration order. */
  datatype CommandType = CondaAppEntry | Unix | Windows | BokehApp | Notebook

  const AllCommandTypes: seq<CommandType> := [CondaAppEntry, Unix, Windows, BokehApp, Notebook]

  /** The manifest key that holds a command of this type. */
  function Key(t: CommandType): (k: string)
    ensures k != "env_spec" && k != "description"
  {
    match t
    case CondaAppEntry => "conda_app_entry"
    case Unix => "unix"
    case Windows => "windows"
    case BokehApp => "bokeh_app"
    case Notebook => "notebook"
  }

  lemma KeyInjective(t: CommandType, u: CommandType)
    requires Key(t) == Key(u)
    ensures t == u
  {
  }

  /** A Bokeh app and a notebook stand alone; shell command lines may share an entry. */
  predicate IsApp(t: CommandType)
  {
    t == BokehApp || t == Notebook
  }

  /** One entry of the `commands` section: its keys and (string) values. */
  type Attrs = map<string, string>

  predicate Distinct(ts: seq<CommandType>)
  {
    forall i, j :: 0 <= i < j < |ts| ==> ts[i] != ts[j]
  }

  /** The candidates, in order, whose key the entry holds. */
  function TypesAmong(candidates: seq<CommandType>, attrs: Attrs): (r: seq<CommandType>)
    ensures forall t :: t in r <==> t in candidates && Key(t) in attrs
    ensures Distinct(candidates) ==> Distinct(r)
  {
    if candidates == [] then []
    else if Key(candidates[0]) in attrs then [candidates[0]] + TypesAmong(candidates[1..], attrs)
    else TypesAmong(candidates[1..], attrs)
  }

  /** The command types an entry declares, in declaration order, each once. */
  function TypesIn(attrs: Attrs): (r: seq<CommandType>)
    ensures forall t :: t in r <==> Key(t) in attrs
    ensures Distinct(r)
  {
    TypesAmong(AllCommandTypes, attrs)
  }

  function Without(ts: seq<CommandType>, t: CommandType): (r: seq<CommandType>)
    ensures forall u :: u in r <==> u in ts && u != t
  {
    if ts == [] then []
    else if ts[0] == t then Without(ts[1..], t)
    else [ts[0]] + Without(ts[1..], t)
  }

  /** `", ".join("'%s'" % key for each type)` */
  function QuotedKeys(ts: seq<CommandType>): string
  {
    if ts == [] then ""
    else if |ts| == 1 then "'" + Key(ts[0]) + "'"
    else "'" + Key(ts[0]) + "', " + QuotedKeys(ts[1..])
  }

  /** An entry is well formed when it declares at least one command type and a
      Bokeh app or notebook is the only type it declares. */
  predicate WellFormed(attrs: Attrs)
  {
    (exists t :: Key(t) in attrs)
    && forall t, u :: Key(t) in attrs && Key(u) in attrs && t != u ==> !IsApp(t)
  }

  lemma NoTypesIllFormed(attrs: Attrs)
    requires TypesIn(attrs) == []
    ensures !WellFormed(attrs)
  {
  }

  lemma AppWithOtherIllFormed(attrs: Attrs, app: CommandType)
    requires app in TypesIn(attrs) && IsApp(app) && |TypesIn(attrs)| > 1
    ensures !WellFormed(attrs)
  {
    var types := TypesIn(attrs);
    var other := if types[0] != app then types[0] else types[1];
    assert other in types && other != app;
    assert Key(app) in attrs && Key(other) in attrs;
  }

  lemma LoneOrShellWellFormed(attrs: Attrs)
    requires |TypesIn(attrs)| > 0
    requires !(BokehApp in TypesIn(attrs) || Notebook in TypesIn(attrs)) || |TypesIn(attrs)| == 1
    ensures WellFormed(attrs)
  {
    var types := TypesIn(attrs);
    assert Key(types[0]) in attrs;
    assert |types| == 1 ==> forall x :: x in types ==> x == types[0];
    forall t, u | Key(t) in attrs && Key(u) in attrs && t != u
      ensures !IsApp(t)
    {
      assert t in types && u in types;
    }
  }

  /** The problems a project load reports for the command `name`. */
  function CommandProblems(name: string, attrs: Attrs): (r: seq<string>)
    ensures |r| <= 1
    ensures r == [] <==> WellFormed(attrs)
  {
    var types := TypesIn(attrs);
    if |types| == 0 then
      NoTypesIllFormed(attrs);
      ["command '" + name + "' does not have a command line in it"]
    else if (BokehApp in types || Notebook in types) && |types| > 1 then
      var app := if BokehApp in types then BokehApp else Notebook;
      AppWithOtherIllFormed(attrs, app);
      ["command '" + name + "' has multiple commands in it, '" + Key(app) + "' can't go with "
         + QuotedKeys(Without(types, app))]
    else
      LoneOrShellWellFormed(attrs);
      []
  }

  /** The multiple-commands message for an entry holding a Unix command line and
      a notebook. */
  lemma NotebookWithUnixProblem(name: string, attrs: Attrs)
    requires "unix" in attrs && "notebook" in attrs
    requires "conda_app_entry" !in attrs && "windows" !in attrs && "bokeh_app" !in attrs
    ensures CommandProblems(name, attrs)
         == ["command '" + name + "' has multiple commands in it, '" + "notebook" + "' can't go with " + "'unix'"]
  {
    var all := AllCommandTypes;
    assert TypesAmong(all[4..], attrs) == [Notebook] + TypesAmong(all[5..], attrs);
    assert TypesAmong(all[3..], attrs) == TypesAmong(all[4..], attrs);
    assert TypesAmong(all[2..], attrs) == TypesAmong(all[3..], attrs);
    assert TypesAmong(all[1..], attrs) == [Unix] + TypesAmong(all[2..], attrs);
    assert TypesIn(attrs) == [Unix, Notebook];
    assert Without([Unix, Notebook], Notebook) == [Unix];
    assert QuotedKeys([Unix]) == "'unix'";
  }

  /** The shell command type of the platform: `windows` on Windows, `unix` elsewhere. */
  function ShellType(system: string): (t: CommandType)
    ensures t == Windows <==> system == "Windows"
    ensures t == Unix <==> system != "Windows"
  {
    if system == "Windows" then Windows else Unix
  }

  /** Which command keys an entry declaring a single command type holds. */
  lemma LoneTypeKeys(attrs: Attrs)
    ensures |TypesIn(attrs)| == 1 ==>
      var t := TypesIn(attrs)[0];
      ("conda_app_entry" in attrs <==> t == CondaAppEntry) && ("unix" in attrs <==> t == Unix)
      && ("windows" in attrs <==> t == Windows) && ("bokeh_app" in attrs <==> t == BokehApp)
      && ("notebook" in attrs <==> t == Notebook)
  {
    if |TypesIn(attrs)| == 1 {
      var types := TypesIn(attrs);
      assert forall x :: x in types <==> x == types[0];
      assert Key(CondaAppEntry) == "conda_app_entry" && Key(Unix) == "unix" && Key(Windows) == "windows";
      assert Key(BokehApp) == "bokeh_app" && Key(Notebook) == "notebook";
    }
  }

  /** `Command.description`: the entry's own description, else one derived from its
      type. */
  function Description(attrs: Attrs, system: string): (d: string)
    ensures "description" in attrs ==> d == attrs["description"]
    ensures "description" !in attrs && "bokeh_app" in attrs ==> d == "Bokeh app " + attrs["bokeh_app"]
    ensures "description" !in attrs && "bokeh_app" !in attrs && "notebook" in attrs
            ==> d == "Notebook " + attrs["notebook"]
  {
    var shell := Key(ShellType(system));
    if "description" in attrs then attrs["description"]
    else if "bokeh_app" in attrs then "Bokeh app " + attrs["bokeh_app"]
    else if "notebook" in attrs then "Notebook " + attrs["notebook"]
    else if shell in attrs then attrs[shell]
    else if "conda_app_entry" in attrs then attrs["conda_app_entry"]
    else if "unix" in attrs then attrs["unix"]
    else if "windows" in attrs then attrs["windows"]
    else ""
  }

  /** A command holding a single shell command line and no description is described
      by that line, whatever the platform. */
  lemma LoneShellDescribesItself(attrs: Attrs, system: string)
    requires "description" !in attrs && |TypesIn(attrs)| == 1 && !IsApp(TypesIn(attrs)[0])
    ensures Description(attrs, system) == attrs[Key(TypesIn(attrs)[0])]
  {
    LoneTypeKeys(attrs);
  }
}
