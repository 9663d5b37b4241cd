/**
 * The compiled JavaScript copy of the custom `app` checks. It is modelled on
 * its own, statement by statement, and proved to report exactly what the
 * TypeScript checks specify.
 */
module ValidateJs {
  import opened Results
  import opened ValidateTs
  import opened Utils

  /** `default_1`: schema details, then the pushes guarded as in the compiled code. */
  method Default1(app: Option<App>, schemaDetails: seq<Detail>) returns (report: Report)
    ensures report == Report("app", schemaDetails + CustomErrors(app))
  {
    var details := [] + schemaDetails;
    if app.Some? && Truthy(app.value.name) && |app.value.name.value| < 4 {
      details := details + [Detail("must have at least 4 characters", "name")];
    }
    if app.Some? && app.value.auth.Some? {
      var auth := app.value.auth.value;
      var hasProfile := Truthy(auth.profile) && |auth.profile.value| > 0;
      var hasCredentials := Truthy(auth.id) && |auth.id.value| > 0
        && Truthy(auth.secret) && |auth.secret.value| > 0;
      if !hasProfile && !hasCredentials {
        details := details + [Detail("Either auth.profile or auth credentials (id and secret) must be provided", "auth")];
      }
      if (Truthy(auth.id) && !Truthy(auth.secret)) || (!Truthy(auth.id) && Truthy(auth.secret)) {
        details := details + [Detail("Both auth.id and auth.secret must be provided together", "auth")];
      }
    }
    report := Report("app", details);
  }
}
