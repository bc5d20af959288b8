/** The two resolutions of the backend's base URL: `getApiBase` in
    frontend/src/api.js (an environment override, then the host) and the one
    App.jsx defines for itself (the host only). A missing `window` is a host of
    `None`. */
module Api {
  import opened Wrappers

  const LocalBackend := "http://localhost:5000"
  const HostedBackend := "https://pdc-quiz.onrender.com"
  const HostedHost := "pdc-quiz.onrender.com"

  predicate IsLocalHost(host: string) {
    host == "localhost" || host == "127.0.0.1"
  }

  /** `s.replace(/\/$/, "")`: one trailing slash removed, if there is one. */
  function StripTrailingSlash(s: string): (r: string)
    ensures |s| > 0 && s[|s| - 1] == '/' ==> r + ['/'] == s
    ensures !(|s| > 0 && s[|s| - 1] == '/') ==> r == s
  {
    if |s| > 0 && s[|s| - 1] == '/' then s[..|s| - 1] else s
  }

  /** `getApiBase` of api.js: a set, non-empty `VITE_API_BASE` wins, without its
      trailing slash; then no window gives ""; a local host the local backend; and
      every other host the hosted backend. */
  function ApiJsBase(env: Option<string>, host: Option<string>): (base: string)
    ensures env.Some? && env.value != "" ==> base == StripTrailingSlash(env.value)
    ensures (env.None? || env.value == "") && host.None? ==> base == ""
    ensures (env.None? || env.value == "") && host.Some? ==>
      base == if IsLocalHost(host.value) then LocalBackend else HostedBackend
  {
    if env.Some? && env.value != "" then StripTrailingSlash(env.value)
    else if host.None? then ""
    else if IsLocalHost(host.value) then LocalBackend
    else HostedBackend
  }

  /** `getApiBase` of App.jsx: the local backend for a local host, the hosted
      backend on its own host, and "" (same origin) everywhere else. */
  function AppBase(host: Option<string>): (base: string)
    ensures host.Some? && IsLocalHost(host.value) ==> base == LocalBackend
    ensures host == Some(HostedHost) ==> base == HostedBackend
    ensures host.None? || !(IsLocalHost(host.value) || host.value == HostedHost) ==> base == ""
  {
    if host.None? then ""
    else if IsLocalHost(host.value) then LocalBackend
    else if host.value == HostedHost then HostedBackend
    else ""
  }

  /** Without the override, the two resolutions agree wherever App.jsx names a
      backend, and differ on every other host: App.jsx then uses its own origin
      while api.js uses the hosted backend. */
  lemma BasesCompared(host: Option<string>)
    ensures AppBase(host) != "" ==> ApiJsBase(None, host) == AppBase(host)
    ensures AppBase(host) == "" && host.Some? ==> ApiJsBase(None, host) == HostedBackend
    ensures host.None? ==> AppBase(host) == ApiJsBase(None, host) == ""
  {
  }

  /** Removing the trailing slash never leaves one behind unless the value ended
      in two, so `base + "/api/..."` has no doubled slash. */
  lemma StrippedBaseJoins(env: string)
    requires env != "" && !(|env| >= 2 && env[|env| - 2..] == "//")
    ensures var base := ApiJsBase(Some(env), None); base == [] || base[|base| - 1] != '/'
  {
    var base := StripTrailingSlash(env);
    if |env| > 0 && env[|env| - 1] == '/' && |base| > 0 {
      assert base[|base| - 1] == env[|env| - 2];
      assert env[|env| - 2..] == [env[|env| - 2], env[|env| - 1]];
    }
  }

  /** `(API_BASE || "") + "/api/students"` in App.jsx, the address every
      submission is posted to: the local backend's route on a local host, the
      hosted backend's route on its own host, and the relative route on the page's
      own origin everywhere else. */
  function StudentsUrl(host: Option<string>): (url: string)
    ensures host.Some? && IsLocalHost(host.value) ==> url == "http://localhost:5000/api/students"
    ensures host == Some(HostedHost) ==> url == "https://pdc-quiz.onrender.com/api/students"
    ensures host.None? || !(IsLocalHost(host.value) || host.value == HostedHost) ==> url == "/api/students"
  {
    AppBase(host) + "/api/students"
  }
}
