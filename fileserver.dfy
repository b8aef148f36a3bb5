/** The route patterns `FileServer` (main.go) registers for a static directory
    mounted at `path`. The handlers themselves are not modelled. */
module FileServers {
  import opened Results

  const NoUrlParameters := "FileServer does not permit any URL parameters."

  /** Go's run-time message for `path[len(path)-1]` on an empty path. */
  const IndexOutOfRange := "runtime error: index out of range [-1]"

  /** A redirect route: requests for `from` are sent to `to` with `status`. */
  datatype Redirect = Redirect(from: string, to: string, status: int)

  /** Either the call panics, or it registers an optional redirect and the file
      route `pattern`. */
  datatype Mount = Panicked(reason: string) | Mounted(redirect: Option<Redirect>, pattern: string)

  /** `strings.ContainsAny(path, "{}*")`. */
  predicate HasUrlParameter(path: string) {
    exists i :: 0 <= i < |path| && path[i] in {'{', '}', '*'}
  }

  predicate EndsWithSlash(path: string) {
    |path| > 0 && path[|path| - 1] == '/'
  }

  function FileServer(path: string): (m: Mount)
    ensures HasUrlParameter(path) ==> m == Panicked(NoUrlParameters)
    ensures !HasUrlParameter(path) && path == "" ==> m == Panicked(IndexOutOfRange)
    ensures !HasUrlParameter(path) && path != "" ==> m.Mounted?
    ensures m.Mounted? ==>
              && (m.redirect.Some? <==> !EndsWithSlash(path))
              && (m.redirect.Some? ==> m.redirect.value == Redirect(path, path + "/", 301))
              && m.pattern == (if EndsWithSlash(path) then path else path + "/") + "*"
  {
    if HasUrlParameter(path) then Panicked(NoUrlParameters)
    else if path == "" then Panicked(IndexOutOfRange)
    else if path != "/" && path[|path| - 1] != '/' then
      Mounted(Some(Redirect(path, path + "/", 301)), path + "/*")
    else Mounted(None, path + "*")
  }

  /** `strings.TrimSuffix(pattern, "/" + "*")`: the prefix the file handler strips from
      request paths. */
  function RoutePrefix(pattern: string): string {
    if |pattern| >= 2 && pattern[|pattern| - 2..] == "/*" then pattern[..|pattern| - 2] else pattern
  }

  /** A mounted pattern is a path ending in "/" followed by a single "*", which is
      its only URL-parameter character; the prefix the handler strips is the
      mount path without its trailing slash. */
  lemma MountedPatternShape(path: string)
    requires FileServer(path).Mounted?
    ensures var p := FileServer(path).pattern;
            && |p| >= 2 && p[|p| - 2..] == "/*"
            && !HasUrlParameter(p[..|p| - 1])
            && RoutePrefix(p) == (if EndsWithSlash(path) then path[..|path| - 1] else path)
  {
    var p := FileServer(path).pattern;
    if EndsWithSlash(path) {
      assert p[..|p| - 1] == path;
    } else {
      assert p[..|p| - 1] == path + "/";
    }
    assert RoutePrefix(p) == p[..|p| - 2];
  }

  /** Mounting at the normalised path (with its trailing slash) gives the same
      file route and no redirect. */
  lemma MountNormalised(path: string)
    requires FileServer(path).Mounted?
    ensures var p := FileServer(path).pattern;
            FileServer(p[..|p| - 1]) == Mounted(None, p)
  {
    var p := FileServer(path).pattern;
    MountedPatternShape(path);
    var q := p[..|p| - 1];
    assert q + "*" == p;
  }

  lemma SwaggerMount()
    ensures FileServer("/swagger-ui") == Mounted(Some(Redirect("/swagger-ui", "/swagger-ui/", 301)), "/swagger-ui/*")
    ensures RoutePrefix("/swagger-ui/*") == "/swagger-ui"
    ensures FileServer("/") == Mounted(None, "/*")
    ensures FileServer("/{id}") == Panicked(NoUrlParameters)
  {
    var swagger := "/swagger-ui";
    forall i | 0 <= i < |swagger| ensures swagger[i] !in {'{', '}', '*'} {
    }
    assert !HasUrlParameter(swagger);
    assert swagger[|swagger| - 1] != '/';
    assert swagger + "/" == "/swagger-ui/";
    assert swagger + "/*" == "/swagger-ui/*";
    assert FileServer(swagger) == Mounted(Some(Redirect(swagger, "/swagger-ui/", 301)), "/swagger-ui/*");
    assert "/{id}"[1] == '{';
  }
}
