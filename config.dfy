/**
 * Configuration (utils/config.py): the check for the required environment
 * variables, and the normalisation of the MongoDB connection string. The
 * environment is a map parameter: a missing key is an unset variable.
 */
module Config {
  import opened Wrappers
  import opened PyStrings

  /** The variables that must be set, in the order a missing one is reported. */
  const RequiredVars: seq<string> :=
    ["OPENAI_API_KEY", "ASSEMBLYAI_API_KEY", "COMPOSIO_API_KEY", "MONGODB_URI", "QDRANT_URI"]

  const MissingPrefix := "Missing required environment variables: "
  const MissingSuffix := ". Please check your .env file."

  /** `not os.getenv(name)`: unset, or set to the empty string. */
  predicate IsMissing(env: map<string, string>, name: string) {
    name !in env || env[name] == ""
  }

  /** `[var for var in names if not os.getenv(var)]` */
  function MissingVars(env: map<string, string>, names: seq<string>): (r: seq<string>)
    ensures |r| <= |names|
  {
    if names == [] then []
    else
      var last := names[|names| - 1];
      MissingVars(env, names[..|names| - 1]) + (if IsMissing(env, last) then [last] else [])
  }

  /** The missing list holds exactly the names that are unset or empty. */
  lemma {:induction false} MissingVarsExact(env: map<string, string>, names: seq<string>)
    ensures forall v :: v in MissingVars(env, names) <==> v in names && IsMissing(env, v)
    decreases |names|
  {
    if names != [] {
      var init := names[..|names| - 1];
      MissingVarsExact(env, init);
      assert names == init + [names[|names| - 1]];
    }
  }

  /** The `EnvironmentError` raised, with the names it lists. */
  datatype EnvError = EnvironmentError(missing: seq<string>, message: string)

  /** `load_environment`, after the `.env` file has been merged into `env`. */
  function LoadEnvironment(env: map<string, string>): (r: Result<map<string, string>, EnvError>)
    ensures r.Failure? ==> r.error.missing == MissingVars(env, RequiredVars) && r.error.missing != []
    ensures r.Failure? ==> r.error.message == MissingPrefix + Join(r.error.missing, ", ") + MissingSuffix
  {
    var missing := MissingVars(env, RequiredVars);
    if missing != [] then
      Failure(EnvironmentError(missing, MissingPrefix + Join(missing, ", ") + MissingSuffix))
    else
      Success(map v | v in RequiredVars :: if v in env then env[v] else "")
  }

  /**
   * Loading fails exactly when a required variable is unset or empty; otherwise
   * the result has exactly the five required names, with their values.
   */
  lemma LoadEnvironmentOutcome(env: map<string, string>)
    ensures LoadEnvironment(env).Failure? <==> exists v :: v in RequiredVars && IsMissing(env, v)
    ensures LoadEnvironment(env).Success? ==>
              var vars := LoadEnvironment(env).value;
              vars.Keys == set v | v in RequiredVars &&
              forall v :: v in RequiredVars ==> v in env && vars[v] == env[v] && vars[v] != ""
  {
    MissingVarsExact(env, RequiredVars);
    if MissingVars(env, RequiredVars) != [] {
      var v := MissingVars(env, RequiredVars)[0];
      assert v in MissingVars(env, RequiredVars);
    }
  }

  /** With nothing set, every required name is listed, in the fixed order. */
  lemma EmptyEnvironmentListsAll()
    ensures LoadEnvironment(map[]).Failure?
    ensures LoadEnvironment(map[]).error.missing == RequiredVars
  {
    var env: map<string, string> := map[];
    var names := RequiredVars;
    assert names[..1][..0] == [];
    assert MissingVars(env, names[..1]) == names[..1];
    assert names[..2][..1] == names[..1];
    assert MissingVars(env, names[..2]) == names[..2];
    assert names[..3][..2] == names[..2];
    assert MissingVars(env, names[..3]) == names[..3];
    assert names[..4][..3] == names[..3];
    assert MissingVars(env, names[..4]) == names[..4];
    assert names[..4] == names[..|names| - 1];
  }

  // ---------------------------------------------------------------------
  // get_mongodb_uri

  const DatabaseName := "podcast_analytics"

  /** `uri.replace('"', '').replace("'", '')` */
  function Unquote(uri: string): string {
    RemoveChar(RemoveChar(uri, '"'), '\'')
  }

  /** Some '/'-separated segment of the host part starts with the database name. */
  predicate NamesDatabase(host: string) {
    exists part :: part in Split(host, "/") && StartsWith(part, DatabaseName)
  }

  /** `uri.split('?')[0].split('@')[-1]`: what follows the last '@' before the first '?'. */
  function HostBeforeQuery(uri: string): string {
    var parts := Split(Split(uri, "?")[0], "@");
    parts[|parts| - 1]
  }

  /** The rewriting of a non-empty URI: quotes removed, then the database name added. */
  function NormalizeUri(uri: string): string {
    AddDatabase(Unquote(uri))
  }

  /** The database-name step on an unquoted URI. */
  function AddDatabase(u: string): string {
    if Contains(u, "/?") then
      var i := FindFrom(u, "/?", 0);
      var hostPart := u[..i];
      var optionsPart := u[i + 2..];
      if !NamesDatabase(hostPart) then hostPart + "/" + DatabaseName + "?" + optionsPart else u
    else if Contains(u, "?") && '/' !in HostBeforeQuery(u) then
      var i := FindFrom(u, "?", 0);
      u[..i] + "/" + DatabaseName + "?" + u[i + 1..]
    else u
  }

  /** `get_mongodb_uri`: an unset or empty `MONGODB_URI` comes back as it is. */
  function GetMongodbUri(env: map<string, string>): (r: Option<string>)
    ensures "MONGODB_URI" !in env <==> r.None?
    ensures "MONGODB_URI" in env && env["MONGODB_URI"] == "" ==> r == Some("")
  {
    if "MONGODB_URI" !in env then None
    else
      var uri := env["MONGODB_URI"];
      if uri == "" then Some(uri) else Some(NormalizeUri(uri))
  }

  lemma RemoveCharKeepsOut(s: string, c: char, d: char)
    requires c !in s
    ensures c !in RemoveChar(s, d)
  {
    if c in RemoveChar(s, d) {
      RemoveCharSubset(s, d, c);
    }
  }

  lemma {:induction false} RemoveCharSubset(s: string, d: char, c: char)
    requires c in RemoveChar(s, d)
    ensures c in s
    decreases |s|
  {
    var head := if s[0] == d then [] else [s[0]];
    if c !in head {
      RemoveCharSubset(s[1..], d, c);
    }
  }

  lemma SliceKeepsOut(s: string, c: char, i: nat, j: nat)
    requires c !in s && i <= j <= |s|
    ensures c !in s[i..j]
  {
  }

  /** Adding the database name brings in no character other than those of the name. */
  lemma AddDatabaseKeepsOut(u: string, c: char)
    requires c !in u && c !in "/" + DatabaseName + "?"
    ensures c !in AddDatabase(u)
  {
    if Contains(u, "/?") {
      var i := FindFrom(u, "/?", 0);
      SliceKeepsOut(u, c, 0, i);
      SliceKeepsOut(u, c, i + 2, |u|);
    } else if Contains(u, "?") {
      var i := FindFrom(u, "?", 0);
      SliceKeepsOut(u, c, 0, i);
      SliceKeepsOut(u, c, i + 1, |u|);
    }
  }

  /** No quote character is left in a normalised URI. */
  lemma NormalizeUnquotes(uri: string)
    ensures '"' !in NormalizeUri(uri) && '\'' !in NormalizeUri(uri)
  {
    var once := RemoveChar(uri, '"');
    RemoveCharRemoves(uri, '"');
    RemoveCharKeepsOut(once, '"', '\'');
    RemoveCharRemoves(once, '\'');
    AddDatabaseKeepsOut(Unquote(uri), '"');
    AddDatabaseKeepsOut(Unquote(uri), '\'');
  }

  /**
   * Normalisation only removes quotes and inserts the database name. With a
   * "/?" whose host part names no database, the name goes right after that '/'.
   */
  lemma AddDatabaseAfterSlash(u: string)
    requires Contains(u, "/?") && !NamesDatabase(u[..FindFrom(u, "/?", 0)])
    ensures var i := FindFrom(u, "/?", 0);
            AddDatabase(u) == u[..i + 1] + DatabaseName + u[i + 1..]
  {
    InsertAfterSlash(u, FindFrom(u, "/?", 0));
  }

  /** With a '?' but no "/?", and no '/' in the host part, "/podcast_analytics" goes before the first '?'. */
  lemma AddDatabaseBeforeQuery(u: string)
    requires !Contains(u, "/?") && Contains(u, "?") && '/' !in HostBeforeQuery(u)
    ensures var q := FindFrom(u, "?", 0);
            AddDatabase(u) == u[..q] + "/" + DatabaseName + u[q..]
  {
    InsertBeforeQuery(u, FindFrom(u, "?", 0));
  }

  /** In every other case the URI is left as it is. */
  lemma AddDatabaseOtherwise(u: string)
    requires Contains(u, "/?") ==> NamesDatabase(u[..FindFrom(u, "/?", 0)])
    requires !Contains(u, "/?") ==> !Contains(u, "?") || '/' in HostBeforeQuery(u)
    ensures AddDatabase(u) == u
  {
  }

  lemma InsertAfterSlash(u: string, i: nat)
    requires OccursAt(u, "/?", i)
    ensures u[..i] + "/" + DatabaseName + "?" + u[i + 2..] == u[..i + 1] + DatabaseName + u[i + 1..]
  {
    assert u[i] == u[i..i + 2][0] && u[i + 1] == u[i..i + 2][1];
    assert u[..i + 1] == u[..i] + "/";
    assert u[i + 1..] == "?" + u[i + 2..];
  }

  lemma InsertBeforeQuery(u: string, q: nat)
    requires OccursAt(u, "?", q)
    ensures u[..q] + "/" + DatabaseName + "?" + u[q + 1..] == u[..q] + "/" + DatabaseName + u[q..]
  {
    assert u[q] == u[q..q + 1][0];
    assert u[q..] == "?" + u[q + 1..];
  }

  /**
   * A URI with options names a database once the step is done: the options
   * follow "/podcast_analytics", or a host segment already starts with the
   * name, or (the '?' case left alone) a '/' already precedes the options.
   */
  lemma AddDatabaseNamesDatabase(u: string)
    requires Contains(u, "?")
    ensures var r := AddDatabase(u);
            Contains(r, "/" + DatabaseName + "?") ||
            (Contains(u, "/?") && NamesDatabase(u[..FindFrom(u, "/?", 0)])) ||
            (!Contains(u, "/?") && '/' in HostBeforeQuery(u))
  {
    if Contains(u, "/?") {
      var i := FindFrom(u, "/?", 0);
      if !NamesDatabase(u[..i]) {
        TagBetween(u[..i], u[i + 2..]);
      }
    } else if '/' !in HostBeforeQuery(u) {
      var q := FindFrom(u, "?", 0);
      TagBetween(u[..q], u[q + 1..]);
    }
  }

  lemma TagBetween(a: string, b: string)
    ensures Contains(a + "/" + DatabaseName + "?" + b, "/" + DatabaseName + "?")
  {
    var tag := "/" + DatabaseName + "?";
    var r := a + "/" + DatabaseName + "?" + b;
    assert r == a + tag + b;
    assert r[|a|..|a| + |tag|] == tag;
    ContainsAt(r, tag, |a|);
  }
}
