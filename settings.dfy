/** Server settings read from the environment (`settings.py`). The environment is a map
    from variable names to values; directories are not created here. */
module Settings {
  import opened Wrappers
  import Text
  import Decimal

  type Env = map<string, string>

  /** `os.getenv(name, default)`. */
  function GetEnv(env: Env, name: string, default: string): (r: string)
    ensures name in env ==> r == env[name]
    ensures name !in env ==> r == default
  {
    if name in env then env[name] else default
  }

  /** The words `_getbool` accepts, lower-cased. */
  const TrueWords: set<string> := {"1", "true", "yes", "y", "on"}

  /** `_getbool(name, default)`. Lower-casing is modelled for ASCII and Latin-1; no other
      character lower-cases to a letter of the five words, so the answer is exact. */
  predicate GetBool(env: Env, name: string, default: string) {
    Text.Lower(GetEnv(env, name, default)) in TrueWords
  }

  /** The accepted words in any letter case switch a flag on, an unset variable falls back
      to its default, and the default `"false"` is off. */
  lemma GetBoolCases(env: Env, name: string)
    ensures GetBool(env, name, "false") <==> name in env && Text.Lower(env[name]) in TrueWords
    ensures name !in env ==> !GetBool(env, name, "false")
    ensures name in env && env[name] == "TRUE" ==> GetBool(env, name, "false")
    ensures name in env && env[name] == "Yes" ==> GetBool(env, name, "false")
    ensures name in env && env[name] == "0" ==> !GetBool(env, name, "true")
  {
    assert Text.Lower("false") == "false";
    assert Text.Lower("TRUE") == "true";
    assert Text.Lower("Yes") == "yes";
    assert Text.Lower("0") == "0";
  }

  /** The parts of a comma-separated value, stripped, without the empty ones. */
  function StrippedParts(parts: seq<string>): (r: seq<string>)
    ensures |r| <= |parts|
    ensures forall k :: 0 <= k < |r| ==> r[k] != "" && Text.IsTrimmed(Text.Py, r[k])
    decreases |parts|
  {
    if parts == [] then []
    else
      var t := Text.Trim(Text.Py, parts[0]);
      Text.TrimProperties(Text.Py, parts[0]);
      (if t != "" then [t] else []) + StrippedParts(parts[1..])
  }

  /** `CORS_ALLOW_ORIGINS`: `["*"]` when the stripped value is `*`, else the stripped
      non-empty comma-separated parts, in order. */
  function CorsOrigins(raw: string): (r: seq<string>)
    ensures Text.Trim(Text.Py, raw) == "*" ==> r == ["*"]
    ensures Text.Trim(Text.Py, raw) != "*" ==> r == StrippedParts(Text.Split(raw, ','))
  {
    if Text.Trim(Text.Py, raw) == "*" then ["*"]
    else StrippedParts(Text.Split(raw, ','))
  }

  /** Stripping comma-free parts leaves them comma-free. */
  lemma {:induction false} StrippedPartsClean(parts: seq<string>)
    requires forall k :: 0 <= k < |parts| ==> ',' !in parts[k]
    ensures forall k :: 0 <= k < |StrippedParts(parts)| ==> ',' !in StrippedParts(parts)[k]
    decreases |parts|
  {
    if parts != [] {
      StrippedPartsClean(parts[1..]);
      var t := Text.Trim(Text.Py, parts[0]);
      Text.TrimStartProperties(Text.Py, parts[0]);
      Text.TrimEndProperties(Text.Py, Text.TrimStart(Text.Py, parts[0]));
      forall i | 0 <= i < |t| ensures t[i] != ',' {
        var ts := Text.TrimStart(Text.Py, parts[0]);
        assert t[i] == ts[i] == parts[0][|parts[0]| - |ts| + i];
      }
    }
  }

  /** Every parsed origin is non-empty, stripped and free of commas. */
  lemma CorsClean(raw: string)
    ensures forall k :: 0 <= k < |CorsOrigins(raw)| ==>
      var o := CorsOrigins(raw)[k]; o != "" && Text.IsTrimmed(Text.Py, o) && ',' !in o
  {
    StrippedPartsClean(Text.Split(raw, ','));
  }

  /** Origins that are clean keep their identity through parsing. */
  lemma {:induction false} StrippedPartsOfClean(parts: seq<string>)
    requires forall k :: 0 <= k < |parts| ==> parts[k] != "" && Text.IsTrimmed(Text.Py, parts[k])
    ensures StrippedParts(parts) == parts
    decreases |parts|
  {
    if parts != [] {
      Text.TrimOfTrimmed(Text.Py, parts[0]);
      StrippedPartsOfClean(parts[1..]);
      assert [parts[0]] + parts[1..] == parts;
    }
  }

  /** Writing a list of clean origins as a comma-separated value and parsing it gives the list back. */
  lemma CorsRoundTrip(origins: seq<string>)
    requires forall k :: 0 <= k < |origins| ==> origins[k] != "" && Text.IsTrimmed(Text.Py, origins[k]) && ',' !in origins[k]
    ensures CorsOrigins(Text.Join(origins, ',')) == origins
  {
    if origins == [] {
      assert Text.Split("", ',') == [""];
      assert Text.Trim(Text.Py, "") == "";
      assert Text.Trim(Text.Py, "") == "";
    } else {
      var raw := Text.Join(origins, ',');
      Text.SplitJoin(origins, ',');
      StrippedPartsOfClean(origins);
      if Text.Trim(Text.Py, raw) == "*" {
        JoinStar(origins);
      }
    }
  }

  /** A join of clean origins strips to `*` only when the list is `["*"]`. */
  lemma JoinStar(origins: seq<string>)
    requires |origins| >= 1
    requires forall k :: 0 <= k < |origins| ==> origins[k] != "" && Text.IsTrimmed(Text.Py, origins[k]) && ',' !in origins[k]
    ensures Text.Trim(Text.Py, Text.Join(origins, ',')) == "*" ==> origins == ["*"]
  {
    var raw := Text.Join(origins, ',');
    if |origins| == 1 {
      Text.TrimOfTrimmed(Text.Py, origins[0]);
    } else {
      var f := origins[0];
      assert raw == f + [','] + Text.Join(origins[1..], ',');
      assert raw[0] == f[0] && raw[|f|] == ',';
      CommaKept(raw, |f|);
    }
  }

  /** A comma after a non-space first character survives stripping, so the result is longer than one character. */
  lemma CommaKept(raw: string, j: nat)
    requires 0 < j < |raw| && raw[j] == ',' && !Text.IsSpace(Text.Py, raw[0])
    ensures |Text.Trim(Text.Py, raw)| > j
  {
    assert Text.TrimStart(Text.Py, raw) == raw;
    Text.TrimEndProperties(Text.Py, raw);
  }

  /** `str.rstrip("/")`: every trailing slash removed. */
  function StripSlashes(s: string): (r: string)
    ensures |r| <= |s| && r == s[..|r|]
    ensures r == [] || r[|r| - 1] != '/'
    ensures forall i :: |r| <= i < |s| ==> s[i] == '/'
    decreases |s|
  {
    if s != [] && s[|s| - 1] == '/' then StripSlashes(s[..|s| - 1]) else s
  }

  /** Stripping twice strips nothing more, and a base without a trailing slash is kept. */
  lemma StripSlashesIdempotent(s: string)
    ensures StripSlashes(StripSlashes(s)) == StripSlashes(s)
    ensures s == [] || s[|s| - 1] != '/' ==> StripSlashes(s) == s
  {
  }

  /** The settings the modelled code reads. */
  datatype Config = Config(
    publicBaseUrl: string,
    jwtSecret: string,
    jwtIssuer: string,
    accessTokenMinutes: int,
    refreshTokenDays: int,
    passwordPepper: string,
    resendApiKey: string,
    resendFrom: string,
    contactEmail: string,
    whatsappLink: string,
    termsUrl: string,
    privacyUrl: string,
    arcgisApiKey: string,
    arcgisGeocodeEnable: bool,
    corsAllowOrigins: seq<string>,
    adminApiKey: string,
    /** `<KATARA_DATA_DIR>/uploads`, where chat images and avatars are written. */
    uploadDir: string)

  /** `Settings.load()`; None when a token lifetime is not an integer (`int()` raises). */
  function Load(env: Env): (r: Option<Config>)
    ensures r.Some? <==>
      Decimal.ParseInt(GetEnv(env, "ACCESS_TOKEN_MINUTES", "30")).Some? &&
      Decimal.ParseInt(GetEnv(env, "REFRESH_TOKEN_DAYS", "30")).Some?
  {
    var minutes := Decimal.ParseInt(GetEnv(env, "ACCESS_TOKEN_MINUTES", "30"));
    var days := Decimal.ParseInt(GetEnv(env, "REFRESH_TOKEN_DAYS", "30"));
    if minutes.None? || days.None? then None
    else Some(Config(
      StripSlashes(GetEnv(env, "PUBLIC_BASE_URL", "http://152.67.69.61:6767")),
      GetEnv(env, "JWT_SECRET", "change-me"),
      GetEnv(env, "JWT_ISSUER", "katara"),
      minutes.value,
      days.value,
      GetEnv(env, "PASSWORD_PEPPER", "change-me-too"),
      GetEnv(env, "RESEND_API_KEY", ""),
      GetEnv(env, "RESEND_FROM", "noreply-katara@wiccagirl.online"),
      GetEnv(env, "CONTACT_EMAIL", "gchaviano@itb.edu.ec"),
      GetEnv(env, "WHATSAPP_LINK", ""),
      GetEnv(env, "TERMS_URL", ""),
      GetEnv(env, "PRIVACY_URL", ""),
      GetEnv(env, "ARCGIS_API_KEY", ""),
      GetBool(env, "ARCGIS_GEOCODE_ENABLE", "false"),
      CorsOrigins(GetEnv(env, "CORS_ALLOW_ORIGINS", "*")),
      GetEnv(env, "ADMIN_API_KEY", "change-admin"),
      UploadDir(env)))
  }

  /** The default lifetimes `"30"` read as the number 30. */
  lemma ParseThirty()
    ensures Decimal.ParseInt("30") == Some(30)
  {
    Decimal.NatRoundTrip(30);
    assert Decimal.NatToString(30) == "30";
    Decimal.ParseIntOfDigits("30");
  }

  /** `int()` reads digit-group underscores, so `ACCESS_TOKEN_MINUTES=3_0` loads as 30 minutes
      and a doubled underscore fails the load. */
  lemma LoadGroupedMinutes(env: Env)
    requires "REFRESH_TOKEN_DAYS" !in env
    ensures var e := env["ACCESS_TOKEN_MINUTES" := "3_0"];
      Load(e).Some? && Load(e).value.accessTokenMinutes == 30
    ensures Load(env["ACCESS_TOKEN_MINUTES" := "3__0"]).None?
  {
    Decimal.ParseIntGrouped();
    ParseThirty();
    var e := env["ACCESS_TOKEN_MINUTES" := "3_0"];
    assert GetEnv(e, "ACCESS_TOKEN_MINUTES", "30") == "3_0";
    assert GetEnv(e, "REFRESH_TOKEN_DAYS", "30") == "30";
    assert GetEnv(env["ACCESS_TOKEN_MINUTES" := "3__0"], "ACCESS_TOKEN_MINUTES", "30") == "3__0";
  }

  /** With nothing set, tokens live 30 minutes and 30 days, every origin is allowed,
      geocoding is off and the public base URL carries no trailing slash. */
  lemma LoadDefaults(env: Env)
    requires "ACCESS_TOKEN_MINUTES" !in env && "REFRESH_TOKEN_DAYS" !in env
    requires "CORS_ALLOW_ORIGINS" !in env && "ARCGIS_GEOCODE_ENABLE" !in env
    ensures Load(env).Some?
    ensures Load(env).value.accessTokenMinutes == 30 && Load(env).value.refreshTokenDays == 30
    ensures Load(env).value.corsAllowOrigins == ["*"]
    ensures !Load(env).value.arcgisGeocodeEnable
    ensures var u := Load(env).value.publicBaseUrl; u == [] || u[|u| - 1] != '/'
  {
    ParseThirty();
    assert GetEnv(env, "ACCESS_TOKEN_MINUTES", "30") == "30";
    assert GetEnv(env, "REFRESH_TOKEN_DAYS", "30") == "30";
    assert CorsOrigins(GetEnv(env, "CORS_ALLOW_ORIGINS", "*")) == ["*"] by {
      Text.TrimOfTrimmed(Text.Py, "*");
    }
    GetBoolCases(env, "ARCGIS_GEOCODE_ENABLE");
  }

  /** `os.path.join(data_dir, "uploads")`: the `uploads` directory under `KATARA_DATA_DIR`,
      `./data` by default. */
  function UploadDir(env: Env): (r: string)
    ensures Text.Basename(r) == "uploads"
    ensures "KATARA_DATA_DIR" !in env ==> r == "./data/uploads"
  {
    Text.BasenameOfPathJoin(GetEnv(env, "KATARA_DATA_DIR", "./data"), "uploads");
    Text.PathJoin(GetEnv(env, "KATARA_DATA_DIR", "./data"), "uploads")
  }
}
