/**
 * The hand-written checks the plugin runs on the `app` section of the
 * configuration after the schema: a name of at least four characters, and
 * credentials given either as a profile or as an id together with a secret.
 */
module ValidateTs {
  import opened Results
  import opened Utils

  /** One validation error: its message and the path of the offending key. */
  datatype Detail = Detail(message: string, path: string)

  /** The `auth` object: each key may be missing. */
  datatype Auth = Auth(id: Option<string>, secret: Option<string>, profile: Option<string>)

  /** The `app` section, as far as the custom checks look at it. */
  datatype App = App(name: Option<string>, auth: Option<Auth>)

  /** The errors handed to `addLocation`, and the location they are reported under. */
  datatype Report = Report(location: string, details: seq<Detail>)

  const NameError := Detail("must have at least 4 characters", "name")
  const MissingAuthError := Detail("Either auth.profile or auth credentials (id and secret) must be provided", "auth")
  const PairError := Detail("Both auth.id and auth.secret must be provided together", "auth")

  /** A non-empty name shorter than four characters. */
  predicate NameTooShort(app: Option<App>)
  {
    app.Some? && Truthy(app.value.name) && |app.value.name.value| < 4
  }

  /** Neither a non-empty profile nor a non-empty id with a non-empty secret. */
  predicate NoCredentials(auth: Auth)
  {
    !Truthy(auth.profile) && !(Truthy(auth.id) && Truthy(auth.secret))
  }

  /** Exactly one of id and secret is given. */
  predicate HalfPair(auth: Auth)
  {
    Truthy(auth.id) != Truthy(auth.secret)
  }

  /** The name error, when the name is too short. */
  function NameErrors(app: Option<App>): seq<Detail>
  {
    if NameTooShort(app) then [NameError] else []
  }

  /** The `auth` errors, in the order they are pushed; none without an `auth` object. */
  function AuthErrors(app: Option<App>): seq<Detail>
  {
    if app.None? || app.value.auth.None? then []
    else
      var auth := app.value.auth.value;
      (if NoCredentials(auth) then [MissingAuthError] else [])
      + (if HalfPair(auth) then [PairError] else [])
  }

  /** The custom errors, in the order they are pushed: the name error, then the two `auth` errors. */
  function CustomErrors(app: Option<App>): (errs: seq<Detail>)
    ensures |errs| <= 3
  {
    NameErrors(app) + AuthErrors(app)
  }

  /**
   * Each custom error appears exactly when its condition holds, there is
   * nothing else, and neither `auth` error is possible without an `auth` object.
   */
  lemma CustomErrorsExactly(app: Option<App>)
    ensures NameError in CustomErrors(app) <==> NameTooShort(app)
    ensures MissingAuthError in CustomErrors(app) <==> app.Some? && app.value.auth.Some? && NoCredentials(app.value.auth.value)
    ensures PairError in CustomErrors(app) <==> app.Some? && app.value.auth.Some? && HalfPair(app.value.auth.value)
    ensures forall d :: d in CustomErrors(app) ==> d == NameError || d == MissingAuthError || d == PairError
    ensures NameTooShort(app) ==> CustomErrors(app)[0] == NameError
    ensures |CustomErrors(app)| <= 3
  {
    assert NameError != MissingAuthError && NameError != PairError && MissingAuthError != PairError;
  }

  /**
   * The default export: the schema's details, then the custom errors pushed
   * one by one, reported under `app`. The details `combineErrorDetails`
   * derives from the schema result are a parameter.
   */
  method Validate(app: Option<App>, schemaDetails: seq<Detail>) returns (report: Report)
    ensures report.location == "app"
    ensures report.details == schemaDetails + CustomErrors(app)
  {
    var details := [] + schemaDetails;
    if app.Some? && app.value.name.Some? && app.value.name.value != "" && |app.value.name.value| < 4 {
      details := details + [NameError];
    }
    assert details == schemaDetails + NameErrors(app);
    if app.Some? && app.value.auth.Some? {
      details := PushAuthErrors(app.value.auth.value, details);
    }
    assert details == (schemaDetails + NameErrors(app)) + AuthErrors(app);
    report := Report("app", details);
  }

  /** The two `auth` checks, each pushing its error onto `details` when it fails. */
  method PushAuthErrors(auth: Auth, details: seq<Detail>) returns (pushed: seq<Detail>)
    ensures pushed == details + AuthErrors(Some(App(None, Some(auth))))
  {
    pushed := details;
    var hasProfile := auth.profile.Some? && auth.profile.value != "" && |auth.profile.value| > 0;
    var hasCredentials := auth.id.Some? && auth.id.value != "" && |auth.id.value| > 0
      && auth.secret.Some? && auth.secret.value != "" && |auth.secret.value| > 0;
    if !hasProfile && !hasCredentials {
      pushed := pushed + [MissingAuthError];
    }
    var hasId := auth.id.Some? && auth.id.value != "";
    var hasSecret := auth.secret.Some? && auth.secret.value != "";
    if (hasId && !hasSecret) || (!hasId && hasSecret) {
      pushed := pushed + [PairError];
    }
  }

  /** The schema's details are kept, in order, ahead of every custom error. */
  lemma SchemaDetailsFirst(app: Option<App>, schemaDetails: seq<Detail>)
    ensures (schemaDetails + CustomErrors(app))[..|schemaDetails|] == schemaDetails
    ensures |schemaDetails + CustomErrors(app)| <= |schemaDetails| + 3
  {
  }

  /** An id without a secret or a profile gives both `auth` errors, the missing-credentials one first. */
  lemma IdOnlyBothErrors(name: Option<string>, id: string)
    requires id != ""
    ensures CustomErrors(Some(App(name, Some(Auth(Some(id), None, None))))) ==
      (if NameTooShort(Some(App(name, None))) then [NameError] else []) + [MissingAuthError, PairError]
  {
  }

  /** A profile alone is accepted: no `auth` error. */
  lemma ProfileOnlyAccepted(app: App, profile: string)
    requires profile != "" && app.auth == Some(Auth(None, None, Some(profile)))
    ensures MissingAuthError !in CustomErrors(Some(app)) && PairError !in CustomErrors(Some(app))
  {
  }

  /** An id with a secret is accepted, with or without a profile. */
  lemma CredentialsAccepted(app: App, id: string, secret: string, profile: Option<string>)
    requires id != "" && secret != "" && app.auth == Some(Auth(Some(id), Some(secret), profile))
    ensures MissingAuthError !in CustomErrors(Some(app)) && PairError !in CustomErrors(Some(app))
  {
  }

  /** The custom checks never report an `auth` error for a missing `auth` object or a missing `app`. */
  lemma NoAuthNoAuthErrors(app: Option<App>)
    requires app.None? || app.value.auth.None?
    ensures forall d :: d in CustomErrors(app) ==> d.path == "name"
  {
  }

  /** A name of one to three characters is the only way to get the name error. */
  lemma ShortNameError(app: App, n: string)
    requires app.name == Some(n)
    ensures NameError in CustomErrors(Some(app)) <==> 0 < |n| < 4
  {
  }
}
