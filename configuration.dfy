/** The `Config` class of config.py: settings read from the process
    environment, the parser of the `EXEMPT_USERS` comma list, and
    `validate_config`, which refuses a configuration with a required setting
    unset or empty. The environment is an input map (after `.env` loading). */
module Configuration {
  import opened Wrappers
  import opened Strings

  /** The process environment: variable name to value. */
  type Env = map<string, string>

  /** `os.getenv(key)`: the value when the variable is set, `None` otherwise. */
  function GetEnv(env: Env, key: string): (r: Option<string>)
    ensures r.Some? <==> key in env
    ensures r.Some? ==> r.value == env[key]
  {
    if key in env then Some(env[key]) else None
  }

  /** `os.getenv(key, default)`. */
  function GetEnvOr(env: Env, key: string, default: string): (r: string)
    ensures key in env ==> r == env[key]
    ensures key !in env ==> r == default
  {
    if key in env then env[key] else default
  }

  /** `f` applied to every element, in order. */
  function MapSeq<A, B>(f: A -> B, xs: seq<A>): (r: seq<B>)
    ensures |r| == |xs|
    ensures forall i :: 0 <= i < |xs| ==> r[i] == f(xs[i])
  {
    seq(|xs|, i requires 0 <= i < |xs| => f(xs[i]))
  }

  /** Mapping commutes with concatenation. */
  lemma MapSeqConcat<A, B>(f: A -> B, xs: seq<A>, ys: seq<A>)
    ensures MapSeq(f, xs + ys) == MapSeq(f, xs) + MapSeq(f, ys)
  {
    var l, r := MapSeq(f, xs + ys), MapSeq(f, xs) + MapSeq(f, ys);
    forall i | 0 <= i < |l|
      ensures l[i] == r[i]
    {
      if i < |xs| {
        assert (xs + ys)[i] == xs[i];
      } else {
        assert (xs + ys)[i] == ys[i - |xs|];
      }
    }
  }

  /** `email.strip()` applied to every comma-separated field. */
  function StripAll(fields: seq<string>): (r: seq<string>)
    ensures |r| == |fields|
    ensures forall i :: 0 <= i < |fields| ==> r[i] == Strip(fields[i])
  {
    MapSeq(Strip, fields)
  }

  /** The comprehension's `if email.strip()` filter: the non-empty strings, in
      their original order. */
  function DropEmpty(xs: seq<string>): (r: seq<string>)
    ensures |r| <= |xs|
    ensures forall x :: x in r <==> x in xs && x != ""
  {
    if |xs| == 0 then []
    else
      var rest := DropEmpty(xs[1..]);
      assert forall x :: x in xs <==> x == xs[0] || x in xs[1..];
      if xs[0] == "" then rest else [xs[0]] + rest
  }

  /** `EXEMPT_USERS`: the raw variable split on `,`, each field stripped of
      surrounding whitespace, empty fields dropped. Every entry is a non-empty,
      comma-free string without surrounding whitespace. */
  function ParseExemptUsers(raw: string): (users: seq<string>)
    ensures forall u :: u in users ==> u != "" && !IsSpace(u[0]) && !IsSpace(u[|u| - 1])
    ensures forall u :: u in users ==> ',' !in u
    ensures raw == "" ==> users == []
  {
    var fields := Split(raw, ',');
    var users := DropEmpty(StripAll(fields));
    SplitFieldsAvoidSep(raw, ',');
    EntriesAreStrippedFields(fields);
    users
  }

  /** What the comprehension keeps is the stripped fields that are not blank;
      a character absent from every field is absent from every entry. */
  lemma EntriesAreStrippedFields(fields: seq<string>)
    ensures forall u :: u in DropEmpty(StripAll(fields)) ==>
      u != "" && !IsSpace(u[0]) && !IsSpace(u[|u| - 1]) &&
      forall c :: c in u ==> exists f :: f in fields && c in f
  {
    var stripped := StripAll(fields);
    forall u | u in DropEmpty(stripped)
      ensures u != "" && !IsSpace(u[0]) && !IsSpace(u[|u| - 1])
      ensures forall c :: c in u ==> exists f :: f in fields && c in f
    {
      var i :| 0 <= i < |stripped| && stripped[i] == u;
      StripKeepsChars(fields[i]);
      assert fields[i] in fields;
    }
  }

  /** Every field that is not blank contributes its stripped text. */
  lemma ParseExemptUsersKeepsFields(raw: string)
    ensures forall f :: f in Split(raw, ',') && Strip(f) != "" ==> Strip(f) in ParseExemptUsers(raw)
  {
    var fields := Split(raw, ',');
    var stripped := StripAll(fields);
    forall f | f in fields && Strip(f) != ""
      ensures Strip(f) in DropEmpty(stripped)
    {
      var i :| 0 <= i < |fields| && fields[i] == f;
      assert stripped[i] == Strip(f);
    }
  }

  /** Filtering out empty strings commutes with concatenation. */
  lemma {:induction false} DropEmptyConcat(xs: seq<string>, ys: seq<string>)
    ensures DropEmpty(xs + ys) == DropEmpty(xs) + DropEmpty(ys)
  {
    if |xs| > 0 {
      var zs := xs + ys;
      DropEmptyConcat(xs[1..], ys);
      assert zs[1..] == xs[1..] + ys;
      assert zs[0] == xs[0];
    } else {
      assert xs + ys == ys;
    }
  }

  /** The parser keeps the left-to-right order of the input: the entries of
      `a,b` are those of `a` followed by those of `b`. */
  lemma {:induction false} ParseExemptUsersConcat(a: string, b: string)
    ensures ParseExemptUsers(a + [','] + b) == ParseExemptUsers(a) + ParseExemptUsers(b)
  {
    var fa, fb := Split(a, ','), Split(b, ',');
    SplitConcat(a, b, ',');
    StripAllConcat(fa, fb);
    DropEmptyConcat(StripAll(fa), StripAll(fb));
    calc {
      ParseExemptUsers(a + [','] + b);
      DropEmpty(StripAll(fa + fb));
      DropEmpty(StripAll(fa) + StripAll(fb));
      DropEmpty(StripAll(fa)) + DropEmpty(StripAll(fb));
    }
  }

  /** Stripping field by field commutes with concatenation. */
  lemma StripAllConcat(xs: seq<string>, ys: seq<string>)
    ensures StripAll(xs + ys) == StripAll(xs) + StripAll(ys)
  {
    MapSeqConcat(Strip, xs, ys);
  }

  /** A single comma-free field yields its stripped text, or nothing when that
      is empty. */
  lemma {:induction false} ParseExemptUsersField(s: string)
    requires ',' !in s
    ensures ParseExemptUsers(s) == if Strip(s) == "" then [] else [Strip(s)]
  {
    SplitFieldOnly(s, ',');
  }

  /** The settings of `Config` that `validate_config` names in `required_vars`. */
  datatype Setting =
    | ZoomAccountId | ZoomClientId | ZoomClientSecret | DefaultUserEmail
    | DbHost | DbUser | DbPassword | DbName
    | TelegramBotToken | TelegramChatId | ExemptUsers

  /** The attribute name of a setting, as listed in `required_vars`. */
  function Name(s: Setting): string {
    match s
    case ZoomAccountId => "ZOOM_ACCOUNT_ID"
    case ZoomClientId => "ZOOM_CLIENT_ID"
    case ZoomClientSecret => "ZOOM_CLIENT_SECRET"
    case DefaultUserEmail => "DEFAULT_USER_EMAIL"
    case DbHost => "DB_HOST"
    case DbUser => "DB_USER"
    case DbPassword => "DB_PASSWORD"
    case DbName => "DB_NAME"
    case TelegramBotToken => "TELEGRAM_BOT_TOKEN"
    case TelegramChatId => "TELEGRAM_CHAT_ID"
    case ExemptUsers => "EXEMPT_USERS"
  }

  /** `required_vars`, in the order `validate_config` checks them. */
  const RequiredVars: seq<Setting> := [
    ZoomAccountId, ZoomClientId, ZoomClientSecret, DefaultUserEmail,
    DbHost, DbUser, DbPassword, DbName,
    TelegramBotToken, TelegramChatId, ExemptUsers
  ]

  /** The position of a setting in `required_vars`. */
  function Rank(s: Setting): (k: nat)
    ensures k < |RequiredVars| && RequiredVars[k] == s
  {
    match s
    case ZoomAccountId => 0
    case ZoomClientId => 1
    case ZoomClientSecret => 2
    case DefaultUserEmail => 3
    case DbHost => 4
    case DbUser => 5
    case DbPassword => 6
    case DbName => 7
    case TelegramBotToken => 8
    case TelegramChatId => 9
    case ExemptUsers => 10
  }

  /** The class attributes of `Config`. Those read with `os.getenv(key)` are
      `None` when unset; those read with a default are plain strings. */
  datatype Config = Config(
    zoomAccountId: Option<string>,
    zoomClientId: Option<string>,
    zoomClientSecret: Option<string>,
    dbHost: string,
    dbUser: Option<string>,
    dbPassword: Option<string>,
    dbName: Option<string>,
    defaultUserEmail: Option<string>,
    exemptUsers: seq<string>,
    telegramBotToken: string,
    telegramChatId: string)

  /** The class body of `Config` evaluated against an environment: `DB_HOST`
      falls back to `localhost`, the Telegram settings to the empty string,
      `EXEMPT_USERS` to the empty list, and the rest are `None` when unset. */
  function LoadConfig(env: Env): (c: Config)
    ensures "DB_HOST" !in env ==> c.dbHost == "localhost"
    ensures "DB_HOST" in env ==> c.dbHost == env["DB_HOST"]
    ensures "TELEGRAM_BOT_TOKEN" !in env ==> c.telegramBotToken == ""
    ensures "TELEGRAM_CHAT_ID" !in env ==> c.telegramChatId == ""
    ensures "EXEMPT_USERS" !in env ==> c.exemptUsers == []
    ensures "ZOOM_ACCOUNT_ID" !in env ==> c.zoomAccountId == None
    ensures "ZOOM_CLIENT_ID" !in env ==> c.zoomClientId == None
    ensures "ZOOM_CLIENT_SECRET" !in env ==> c.zoomClientSecret == None
    ensures "DB_USER" !in env ==> c.dbUser == None
    ensures "DB_PASSWORD" !in env ==> c.dbPassword == None
    ensures "DB_NAME" !in env ==> c.dbName == None
    ensures "DEFAULT_USER_EMAIL" !in env ==> c.defaultUserEmail == None
  {
    Config(
      GetEnv(env, "ZOOM_ACCOUNT_ID"),
      GetEnv(env, "ZOOM_CLIENT_ID"),
      GetEnv(env, "ZOOM_CLIENT_SECRET"),
      GetEnvOr(env, "DB_HOST", "localhost"),
      GetEnv(env, "DB_USER"),
      GetEnv(env, "DB_PASSWORD"),
      GetEnv(env, "DB_NAME"),
      GetEnv(env, "DEFAULT_USER_EMAIL"),
      ParseExemptUsers(GetEnvOr(env, "EXEMPT_USERS", "")),
      GetEnvOr(env, "TELEGRAM_BOT_TOKEN", ""),
      GetEnvOr(env, "TELEGRAM_CHAT_ID", ""))
  }

  /** Python truthiness of an optional string: neither `None` nor empty. */
  predicate Truthy(o: Option<string>)
    ensures Truthy(o) <==> o != None && o != Some("")
  {
    o.Some? && o.value != ""
  }

  /** Python truthiness of `getattr(Config, name)` for a required setting. */
  predicate IsSet(c: Config, s: Setting)
    ensures s == DbHost ==> (IsSet(c, s) <==> |c.dbHost| > 0)
    ensures s == ExemptUsers ==> (IsSet(c, s) <==> |c.exemptUsers| > 0)
  {
    match s
    case ZoomAccountId => Truthy(c.zoomAccountId)
    case ZoomClientId => Truthy(c.zoomClientId)
    case ZoomClientSecret => Truthy(c.zoomClientSecret)
    case DefaultUserEmail => Truthy(c.defaultUserEmail)
    case DbHost => c.dbHost != ""
    case DbUser => Truthy(c.dbUser)
    case DbPassword => Truthy(c.dbPassword)
    case DbName => Truthy(c.dbName)
    case TelegramBotToken => c.telegramBotToken != ""
    case TelegramChatId => c.telegramChatId != ""
    case ExemptUsers => c.exemptUsers != []
  }
  /** What `validate_config` sees of a loaded `DB_HOST`: present unless the
      variable is set to the empty string. */
  lemma LoadedDbHostIsSet(env: Env)
    ensures IsSet(LoadConfig(env), DbHost) <==> GetEnvOr(env, "DB_HOST", "localhost") != ""
  {
  }

  /** What `validate_config` sees of a loaded `EXEMPT_USERS`: present exactly
      when the variable yields at least one entry. */
  lemma LoadedExemptUsersIsSet(env: Env)
    ensures IsSet(LoadConfig(env), ExemptUsers) <==> ParseExemptUsers(GetEnvOr(env, "EXEMPT_USERS", "")) != []
  {
  }

  /** What `validate_config` sees of every other loaded setting: present exactly
      when its variable is set to a non-empty value. */
  lemma LoadedIsSet(env: Env, s: Setting)
    ensures s != DbHost && s != ExemptUsers ==> (IsSet(LoadConfig(env), s) <==> GetEnvOr(env, Name(s), "") != "")
  {
    match s
    case ZoomAccountId | ZoomClientId | ZoomClientSecret => LoadedZoomIsSet(env, s);
    case DefaultUserEmail | DbUser | DbPassword | DbName => LoadedDbIsSet(env, s);
    case TelegramBotToken | TelegramChatId => LoadedTelegramIsSet(env, s);
    case _ =>
  }

  /** The Zoom credentials, read with `os.getenv` and no default. */
  lemma LoadedZoomIsSet(env: Env, s: Setting)
    requires s == ZoomAccountId || s == ZoomClientId || s == ZoomClientSecret
    ensures IsSet(LoadConfig(env), s) <==> GetEnvOr(env, Name(s), "") != ""
  {
    var c := LoadConfig(env);
    TruthyGetEnv(env, Name(s));
    match s
    case ZoomAccountId => assert IsSet(c, s) == Truthy(GetEnv(env, Name(s)));
    case ZoomClientId => assert IsSet(c, s) == Truthy(GetEnv(env, Name(s)));
    case ZoomClientSecret => assert IsSet(c, s) == Truthy(GetEnv(env, Name(s)));
    case _ =>
  }

  /** The database credentials and the default user, read with `os.getenv` and no default. */
  lemma LoadedDbIsSet(env: Env, s: Setting)
    requires s == DefaultUserEmail || s == DbUser || s == DbPassword || s == DbName
    ensures IsSet(LoadConfig(env), s) <==> GetEnvOr(env, Name(s), "") != ""
  {
    var c := LoadConfig(env);
    TruthyGetEnv(env, Name(s));
    match s
    case DefaultUserEmail => assert IsSet(c, s) == Truthy(GetEnv(env, Name(s)));
    case DbUser => assert IsSet(c, s) == Truthy(GetEnv(env, Name(s)));
    case DbPassword => assert IsSet(c, s) == Truthy(GetEnv(env, Name(s)));
    case DbName => assert IsSet(c, s) == Truthy(GetEnv(env, Name(s)));
    case _ =>
  }

  /** The Telegram settings, read with an empty-string default. */
  lemma LoadedTelegramIsSet(env: Env, s: Setting)
    requires s == TelegramBotToken || s == TelegramChatId
    ensures IsSet(LoadConfig(env), s) <==> GetEnvOr(env, Name(s), "") != ""
  {
    var c := LoadConfig(env);
    TruthyGetEnv(env, Name(s));
    match s
    case TelegramBotToken => assert IsSet(c, s) == (GetEnvOr(env, Name(s), "") != "");
    case TelegramChatId => assert IsSet(c, s) == (GetEnvOr(env, Name(s), "") != "");
    case _ =>
  }

  /** An optional variable is truthy exactly when `os.getenv(key, "")` is non-empty. */
  lemma TruthyGetEnv(env: Env, key: string)
    ensures Truthy(GetEnv(env, key)) <==> GetEnvOr(env, key, "") != ""
  {
  }



  /** The comprehension `[var for var in vars if not getattr(cls, var)]`:
      exactly the unset settings of `vars`, each kept at most as often as it
      occurs there. */
  function FilterUnset(c: Config, vars: seq<Setting>): (missing: seq<Setting>)
    ensures |missing| <= |vars|
    ensures forall s :: s in missing <==> s in vars && !IsSet(c, s)
  {
    if |vars| == 0 then []
    else
      var rest := FilterUnset(c, vars[1..]);
      assert forall s :: s in vars <==> s == vars[0] || s in vars[1..];
      if IsSet(c, vars[0]) then rest else [vars[0]] + rest
  }

  /** `missing_vars` of `validate_config`: every setting is required, so the
      missing ones are exactly the settings that are not set. */
  function Missing(c: Config): (missing: seq<Setting>)
    ensures forall s :: s in missing <==> !IsSet(c, s)
  {
    assert forall s :: s in RequiredVars by {
      forall s ensures s in RequiredVars {
        assert RequiredVars[Rank(s)] == s;
      }
    }
    FilterUnset(c, RequiredVars)
  }

  /** Settings listed in strictly increasing position of `required_vars`. */
  predicate InRequiredOrder(vars: seq<Setting>) {
    forall i, j :: 0 <= i < j < |vars| ==> Rank(vars[i]) < Rank(vars[j])
  }

  /** Filtering keeps the relative order of what it keeps. */
  lemma {:induction false} FilterUnsetKeepsOrder(c: Config, vars: seq<Setting>)
    requires InRequiredOrder(vars)
    ensures InRequiredOrder(FilterUnset(c, vars))
  {
    if |vars| > 0 {
      FilterUnsetKeepsOrder(c, vars[1..]);
      var rest := FilterUnset(c, vars[1..]);
      forall s | s in rest
        ensures Rank(vars[0]) < Rank(s)
      {
        var k :| 1 <= k < |vars| && vars[k] == s;
      }
    }
  }

  /** `required_vars` lists each setting once, at the position `Rank` gives. */
  lemma RankOfRequired(i: nat)
    requires i < |RequiredVars|
    ensures Rank(RequiredVars[i]) == i
  {
  }

  /** The names in the error message follow the order of `required_vars` and
      repeat none. */
  lemma MissingInRequiredOrder(c: Config)
    ensures InRequiredOrder(Missing(c))
  {
    forall i, j | 0 <= i < j < |RequiredVars|
      ensures Rank(RequiredVars[i]) < Rank(RequiredVars[j])
    {
      RankOfRequired(i);
      RankOfRequired(j);
    }
    FilterUnsetKeepsOrder(c, RequiredVars);
  }

  /** Outcome of `validate_config`: it returns, or raises `ValueError` with a
      message. */
  datatype Validation = Passed | Raised(message: string)

  /** The names of the missing settings, in the order they are checked. */
  function MissingNames(c: Config): (names: seq<string>)
    ensures |names| == |Missing(c)|
    ensures forall i :: 0 <= i < |names| ==> names[i] == Name(Missing(c)[i])
  {
    var m := Missing(c);
    seq(|m|, i requires 0 <= i < |m| => Name(m[i]))
  }

  /** `validate_config`: raises exactly when some required setting is falsy,
      naming the missing ones joined by `", "`. */
  function ValidateConfig(c: Config): (r: Validation)
    ensures r.Passed? <==> forall s :: s in RequiredVars ==> IsSet(c, s)
    ensures r.Raised? ==> r.message == "Missing required configuration: " + Join(MissingNames(c), ", ")
  {
    var missing := Missing(c);
    if |missing| > 0 then
      assert missing[0] in missing;
      Raised("Missing required configuration: " + Join(MissingNames(c), ", "))
    else
      assert forall s :: s in RequiredVars ==> s !in missing ==> IsSet(c, s);
      Passed
  }

  /** `EXEMPT_USERS` is among the required settings, so an empty exempt list
      makes `validate_config` raise, and its message names `EXEMPT_USERS`. */
  lemma EmptyExemptUsersRaises(c: Config)
    requires c.exemptUsers == []
    ensures ValidateConfig(c).Raised?
    ensures ExemptUsers in Missing(c)
  {
    assert RequiredVars[10] == ExemptUsers;
    assert !IsSet(c, ExemptUsers);
  }

  /** An environment without `EXEMPT_USERS` cannot pass validation. */
  lemma UnsetExemptUsersRaises(env: Env)
    requires "EXEMPT_USERS" !in env
    ensures ValidateConfig(LoadConfig(env)).Raised?
  {
    EmptyExemptUsersRaises(LoadConfig(env));
  }

  /** Because of its default, an unset `DB_HOST` never appears among the
      missing settings. */
  lemma UnsetDbHostIsNotMissing(env: Env)
    requires "DB_HOST" !in env
    ensures DbHost !in Missing(LoadConfig(env))
  {
    var c := LoadConfig(env);
    assert c.dbHost == "localhost";
    assert IsSet(c, DbHost);
  }
}
