/**
 * The `Settings` of backend/app/core/config.py: the defaults of the string and
 * number fields, the four fields without a default, and the validator that
 * assembles the database URI.  The environment (process variables merged
 * with `.env`) is a map from exact, case-sensitive names to values.
 */
module Config {
  import opened Text

  datatype Settings = Settings(
    apiV1Str: string,
    projectName: string,
    secretKey: string,
    accessTokenExpireMinutes: int,
    backendCorsOrigins: seq<string>,
    postgresServer: string,
    postgresUser: string,
    postgresPassword: string,
    postgresDb: string,
    sqlalchemyDatabaseUri: string,
    redisHost: string,
    redisPort: int,
    redisPassword: Option<string>,
    openaiApiKey: string,
    geminiApiKey: string,
    primaryModelProvider: string,
    fallbackModelProvider: string)

  type Environment = map<string, string>

  const DefaultTokenMinutes: int := 60 * 24 * 8
  const DefaultRedisPort: int := 6379

  /** The fields that have no default, in declaration order. */
  const RequiredFields: seq<string> := ["SECRET_KEY", "POSTGRES_PASSWORD", "OPENAI_API_KEY", "GEMINI_API_KEY"]

  const UriScheme: string := "postgresql://"

  /** `Settings.assemble_db_connection`: a URI given as a string is kept,
      otherwise it is built from the database fields. */
  function AssembleDbConnection(v: Option<string>, user: string, password: string,
                                server: string, db: string): (uri: string)
    ensures v.Some? ==> uri == v.value
    ensures v.None? ==> UriScheme <= uri
  {
    match v
    case Some(given) => given
    case None => UriScheme + user + ":" + password + "@" + server + "/" + db
  }

  /** A string field: the environment's value, or the default. */
  function Field(env: Environment, name: string, default: string): string {
    if name in env then env[name] else default
  }

  /** Every field without a default is set. */
  predicate HasRequired(env: Environment) {
    "SECRET_KEY" in env && "POSTGRES_PASSWORD" in env && "OPENAI_API_KEY" in env && "GEMINI_API_KEY" in env
  }

  /** The names among `names` the environment does not define, in order. */
  function Missing(env: Environment, names: seq<string>): (r: seq<string>)
    ensures forall k :: 0 <= k < |r| ==> r[k] in names && r[k] !in env
    ensures forall k :: 0 <= k < |names| && names[k] !in env ==> names[k] in r
  {
    if names == [] then []
    else Missing(env, names[..|names| - 1]) + (if names[|names| - 1] in env then [] else [names[|names| - 1]])
  }

  /** Why `Settings()` fails: a validation error naming the absent fields
      without a default, or the exception the URI validator raises when it
      has to assemble a URI but the password failed validation (it then reads
      `values.get('POSTGRES_PASSWORD')` as `None`, and the `AttributeError`
      of `.get_secret_value()` is not turned into a validation error). */
  datatype LoadError = MissingFields(names: seq<string>) | NoPasswordForUri

  /** `Settings()` over an environment.  `BaseSettings` validates defaults,
      so the `pre=True` validator also runs when SQLALCHEMY_DATABASE_URI is
      absent and then assembles the URI from the database fields.  Otherwise
      every absent field takes its default. */
  function LoadSettings(env: Environment): Result<Settings, LoadError>
  {
    if "SQLALCHEMY_DATABASE_URI" !in env && "POSTGRES_PASSWORD" !in env then Err(NoPasswordForUri)
    else if !HasRequired(env) then Err(MissingFields(Missing(env, RequiredFields)))
    else
      var server := Field(env, "POSTGRES_SERVER", "localhost");
      var user := Field(env, "POSTGRES_USER", "postgres");
      var password := env["POSTGRES_PASSWORD"];
      var db := Field(env, "POSTGRES_DB", "ai_tutor");
      var given := if "SQLALCHEMY_DATABASE_URI" in env then Some(env["SQLALCHEMY_DATABASE_URI"]) else None;
      Ok(Settings(
        Field(env, "API_V1_STR", "/api/v1"),
        Field(env, "PROJECT_NAME", "AI Tutor"),
        env["SECRET_KEY"],
        DefaultTokenMinutes,
        ["http://localhost:3000"],
        server, user, password, db,
        AssembleDbConnection(given, user, password, server, db),
        Field(env, "REDIS_HOST", "localhost"),
        DefaultRedisPort,
        if "REDIS_PASSWORD" in env then Some(env["REDIS_PASSWORD"]) else None,
        env["OPENAI_API_KEY"],
        env["GEMINI_API_KEY"],
        Field(env, "PRIMARY_MODEL_PROVIDER", "openai"),
        Field(env, "FALLBACK_MODEL_PROVIDER", "gemini")))
  }

  /** Loading fails exactly when a required field is absent; unless the
      validator crashed first, the error names every absent one. */
  lemma LoadFailsIffRequiredMissing(env: Environment)
    ensures LoadSettings(env).Err? <==> exists k :: 0 <= k < |RequiredFields| && RequiredFields[k] !in env
    ensures LoadSettings(env).Err? && LoadSettings(env).error.MissingFields? ==>
              && LoadSettings(env).error.names != []
              && forall name :: name in LoadSettings(env).error.names <==> name in RequiredFields && name !in env
  {
    var missing := Missing(env, RequiredFields);
    if !HasRequired(env) {
      var k := if "SECRET_KEY" !in env then 0 else if "POSTGRES_PASSWORD" !in env then 1
               else if "OPENAI_API_KEY" !in env then 2 else 3;
      assert RequiredFields[k] !in env;
      assert RequiredFields[k] in missing;
    } else {
      assert forall k :: 0 <= k < |RequiredFields| ==> RequiredFields[k] in env;
    }
  }

  /** Without a password and without a URI, the validator's exception is what
      `Settings()` raises, whatever else is missing; with a URI, an absent
      password is reported like any other missing field. */
  lemma MissingPasswordWithoutUriCrashes(env: Environment)
    ensures LoadSettings(env) == Err(NoPasswordForUri)
            <==> "POSTGRES_PASSWORD" !in env && "SQLALCHEMY_DATABASE_URI" !in env
    ensures "POSTGRES_PASSWORD" !in env && "SQLALCHEMY_DATABASE_URI" in env ==>
              LoadSettings(env).Err? && LoadSettings(env).error.MissingFields?
              && "POSTGRES_PASSWORD" in LoadSettings(env).error.names
  {
    if "POSTGRES_PASSWORD" !in env && "SQLALCHEMY_DATABASE_URI" in env {
      assert RequiredFields[1] == "POSTGRES_PASSWORD";
    }
  }

  /** A URI set in the environment is used as it is. */
  lemma GivenUriKept(env: Environment)
    requires LoadSettings(env).Ok? && "SQLALCHEMY_DATABASE_URI" in env
    ensures LoadSettings(env).value.sqlalchemyDatabaseUri == env["SQLALCHEMY_DATABASE_URI"]
  {
  }

  /** The names of the string fields that have a default, and of the
      optional ones. */
  const DefaultedFields: seq<string> := ["API_V1_STR", "PROJECT_NAME", "POSTGRES_SERVER", "POSTGRES_USER",
    "POSTGRES_DB", "SQLALCHEMY_DATABASE_URI", "REDIS_HOST", "REDIS_PASSWORD",
    "PRIMARY_MODEL_PROVIDER", "FALLBACK_MODEL_PROVIDER"]

  /** With the required fields set and none of the defaulted ones, the
      settings are the documented defaults and the URI is
      postgresql://postgres:<password>@localhost/ai_tutor. */
  lemma DefaultSettings(env: Environment)
    requires HasRequired(env)
    requires forall k :: 0 <= k < |DefaultedFields| ==> DefaultedFields[k] !in env
    ensures LoadSettings(env).Ok?
    ensures var s := LoadSettings(env).value;
            && s.sqlalchemyDatabaseUri == "postgresql://postgres:" + env["POSTGRES_PASSWORD"] + "@localhost/ai_tutor"
            && s.postgresUser == "postgres" && s.postgresServer == "localhost" && s.postgresDb == "ai_tutor"
            && s.accessTokenExpireMinutes == 11520
            && s.primaryModelProvider == "openai" && s.fallbackModelProvider == "gemini"
            && s.apiV1Str == "/api/v1" && s.projectName == "AI Tutor"
            && s.redisHost == "localhost" && s.redisPort == 6379 && s.redisPassword == None
            && s.backendCorsOrigins == ["http://localhost:3000"]
  {
    assert DefaultedFields[0] !in env && DefaultedFields[1] !in env && DefaultedFields[2] !in env;
    assert DefaultedFields[3] !in env && DefaultedFields[4] !in env && DefaultedFields[5] !in env;
    assert DefaultedFields[6] !in env && DefaultedFields[7] !in env && DefaultedFields[8] !in env;
    assert DefaultedFields[9] !in env;
    DefaultUri(env["POSTGRES_PASSWORD"]);
  }

  lemma DefaultUri(password: string)
    ensures AssembleDbConnection(None, "postgres", password, "localhost", "ai_tutor")
            == "postgresql://postgres:" + password + "@localhost/ai_tutor"
  {
    assert UriScheme + "postgres" + ":" == "postgresql://postgres:";
    assert "@" + "localhost" + "/" + "ai_tutor" == "@localhost/ai_tutor";
  }

  // ---- reading the assembled URI back ----

  /** The index of the first occurrence of c in s, or |s|. */
  function FindFirst(s: string, c: char): (i: nat)
    ensures i <= |s|
    ensures c !in s[..i]
    ensures i < |s| ==> s[i] == c
  {
    if s == [] then 0
    else if s[0] == c then 0
    else
      var i := FindFirst(s[1..], c);
      assert s[..i + 1] == [s[0]] + s[1..][..i];
      i + 1
  }

  /** The fields of an assembled URI: user up to the first ':', password up to
      the next '@', server up to the next '/', database the rest. */
  function ParseDbUri(uri: string): Option<(string, string, string, string)>
  {
    if !(UriScheme <= uri) then None
    else
      var rest := uri[|UriScheme|..];
      var i := FindFirst(rest, ':');
      if i == |rest| then None
      else
        var afterUser := rest[i + 1..];
        var j := FindFirst(afterUser, '@');
        if j == |afterUser| then None
        else
          var afterPassword := afterUser[j + 1..];
          var k := FindFirst(afterPassword, '/');
          if k == |afterPassword| then None
          else Some((rest[..i], afterUser[..j], afterPassword[..k], afterPassword[k + 1..]))
  }

  /** Splitting a + [c] + b at its first c, when a holds no c, gives a and b back. */
  lemma SplitAtFirst(a: string, c: char, b: string)
    requires c !in a
    ensures var s := a + [c] + b;
            && FindFirst(s, c) == |a| && s[..|a|] == a && s[|a| + 1..] == b
  {
    var s := a + [c] + b;
    assert s[|a|] == c;
    assert s[..|a|] == a;
    assert s[|a| + 1..] == b;
  }

  /** The assembled URI is the scheme followed by the fields, nested to the right. */
  lemma AssembledUriShape(user: string, password: string, server: string, db: string)
    ensures AssembleDbConnection(None, user, password, server, db)
            == UriScheme + (user + [':'] + (password + ['@'] + (server + ['/'] + db)))
  {
    var tail := server + ['/'] + db;
    assert UriScheme + user + ":" + password + "@" + server + "/" + db
           == UriScheme + user + ":" + password + "@" + tail;
    assert UriScheme + user + ":" + password + "@" + tail
           == UriScheme + user + ":" + (password + ['@'] + tail);
  }

  /** The assembled URI reads back as the fields it was built from, when the
      user has no ':', the password no '@' and the server no '/'. */
  lemma AssembledUriRoundTrip(user: string, password: string, server: string, db: string)
    requires ':' !in user && '@' !in password && '/' !in server
    ensures ParseDbUri(AssembleDbConnection(None, user, password, server, db)) == Some((user, password, server, db))
  {
    var afterPassword := server + ['/'] + db;
    var afterUser := password + ['@'] + afterPassword;
    var rest := user + [':'] + afterUser;
    var uri := AssembleDbConnection(None, user, password, server, db);
    AssembledUriShape(user, password, server, db);
    assert uri[|UriScheme|..] == rest;
    SplitAtFirst(user, ':', afterUser);
    SplitAtFirst(password, '@', afterPassword);
    SplitAtFirst(server, '/', db);
  }
}
