/** The part of the application settings that computes something: the
    list of origins allowed by CORS, built from the configured origins and
    the frontend's domain. The other settings are plain values read from
    the environment. */
module Settings {
  import opened Wrappers

  /** `cors_origins` as configured: normally a list, but a single string
      read from the environment is accepted too. */
  datatype CorsValue = OriginList(items: seq<string>) | OneOrigin(origin: string)

  datatype AppSettings = AppSettings(corsOrigins: CorsValue, frontendDomain: Option<string>)

  const DefaultCorsOrigins: seq<string> :=
    ["http://localhost:5173", "http://localhost:5174", "http://localhost:3000"]

  /** The settings with no environment overrides. */
  const Defaults: AppSettings := AppSettings(OriginList(DefaultCorsOrigins), None)

  /** The configured origins as a fresh list: a copy of the list, or the
      single value wrapped in one. */
  function Configured(v: CorsValue): seq<string> {
    match v
    case OriginList(items) => items
    case OneOrigin(o) => [o]
  }

  /** A frontend domain counts when it is present and not empty. */
  predicate HasFrontend(s: AppSettings) {
    s.frontendDomain.Some? && s.frontendDomain.value != ""
  }

  /** `cors_origins_list`: the configured origins in their order, then
      `https://` and the frontend domain when one is set. */
  function CorsOriginsList(s: AppSettings): (r: seq<string>)
    ensures Configured(s.corsOrigins) <= r
    ensures HasFrontend(s) ==> |r| == |Configured(s.corsOrigins)| + 1 && r[|r| - 1] == "https://" + s.frontendDomain.value
    ensures !HasFrontend(s) ==> r == Configured(s.corsOrigins)
  {
    var origins := Configured(s.corsOrigins);
    if HasFrontend(s) then origins + ["https://" + s.frontendDomain.value] else origins
  }

  /** An origin is allowed exactly when it is configured or is the
      frontend's `https` address. */
  lemma AllowedOrigins(s: AppSettings, o: string)
    ensures o in CorsOriginsList(s) <==>
      o in Configured(s.corsOrigins) || (HasFrontend(s) && o == "https://" + s.frontendDomain.value)
  {
    var r := CorsOriginsList(s);
    if HasFrontend(s) {
      assert r == Configured(s.corsOrigins) + ["https://" + s.frontendDomain.value];
    }
  }

  /** Without overrides the three local development servers are allowed. */
  lemma DefaultAllowsLocalServers()
    ensures CorsOriginsList(Defaults) == DefaultCorsOrigins
  {
  }

  /** A single configured string behaves as the list holding only it. */
  lemma OneOriginIsListOfOne(o: string, domain: Option<string>)
    ensures CorsOriginsList(AppSettings(OneOrigin(o), domain)) == CorsOriginsList(AppSettings(OriginList([o]), domain))
  {
  }
}
