/** A client for Go module proxies (the GOPROXY protocol): request-path
    construction, the ordered failover over proxy base URLs, HTTP status
    classification and the shaping of `.info`, `list` and `.zip` results.
    Every collaborator the client cannot see into (URL parsing, module path and
    version escaping, the HTTP round trip, JSON decoding) is a field of `Client`. */
module GoModProxy {
  import opened Results
  import opened Text

  const StatusOK: int := 200
  const StatusNotFound: int := 404
  const StatusGone: int := 410

  /** `module.Version`: a module path and a version. */
  datatype ModuleVersion = ModuleVersion(path: string, version: string)

  /** What the client returns as `error`. `ResponseError` is the package's own
      `*Error`; the other variants are the errors it passes through. */
  datatype Error =
    | ResponseError(path: string, code: int, message: string)
    | EscapePathFailed(mod: string)
    | EscapeVersionFailed(version: string)
    | InvalidProxyURL(baseURL: string)
    | TransportFailed(message: string)
    | DecodeFailed(message: string)

  /** `(*Error).IsNotFound`, as `errcode.IsNotFound` sees it: only a response
      error with status 404 (Not Found) or 410 (Gone) means "not on this proxy".
      Such an error is never a success status, and it is exactly what `Do`
      reports for a proxy answering with that status and a body equal to the
      message. */
  predicate IsNotFound(e: Error): (b: bool)
    ensures b ==> e.ResponseError? && e.code != StatusOK
    ensures b ==> Do(e.path, Response(e.code, e.message)) == Err(e)
    ensures !e.ResponseError? ==> !b
  {
    e.ResponseError? && (e.code == StatusNotFound || e.code == StatusGone)
  }

  /** What a proxy does with one GET: a status and the whole body, or a
      failure of the round trip or of reading the body. */
  datatype Response = Response(status: int, body: string) | NoResponse(message: string)

  /** The client's configuration and collaborators. */
  datatype Client = Client(
    urls: seq<string>,                         // proxy base URLs, in the order configured
    isValidURL: string -> bool,                // url.Parse succeeds on a base URL
    escapePath: string -> Option<string>,      // module.EscapePath
    escapeVersion: string -> Option<string>,   // module.EscapeVersion
    respond: (string, string) -> Response,     // GET of a path on a base URL
    decodeVersion: string -> Option<string>)   // json.Unmarshal of an .info body, its Version field

  /** `do`: only status 200 is a success; any other status becomes an `Error`
      carrying the request path, the status and the body. */
  function Do(path: string, resp: Response): (r: Result<string, Error>)
    ensures r.Ok? <==> resp.Response? && resp.status == StatusOK
    ensures r.Ok? ==> r.value == resp.body
    ensures resp.Response? && resp.status != StatusOK ==>
              r == Err(ResponseError(path, resp.status, resp.body))
  {
    match resp
    case NoResponse(m) => Err(TransportFailed(m))
    case Response(status, body) =>
      if status != StatusOK then Err(ResponseError(path, status, body)) else Ok(body)
  }

  /** A request counts as "not found" exactly for status 404 and 410. */
  lemma DoNotFoundIff(path: string, resp: Response)
    ensures (Do(path, resp).Err? && IsNotFound(Do(path, resp).error)) <==>
            (resp.Response? && (resp.status == 404 || resp.status == 410))
  {
  }

  /** `path.Join`: the non-empty elements joined by `/` (no `.`/`..` cleaning). */
  function JoinPath(elems: seq<string>): string
  {
    if elems == [] then ""
    else
      var tail := JoinPath(elems[1..]);
      if elems[0] == "" then tail else if tail == "" then elems[0] else elems[0] + "/" + tail
  }

  /** The request path `path.Join(escapedMod, path.Join(paths...))`. */
  function RequestPath(escapedMod: string, paths: seq<string>): string
  {
    JoinPath([escapedMod, JoinPath(paths)])
  }

  lemma JoinTwo(a: string, b: string)
    requires a != "" && b != ""
    ensures JoinPath([a, b]) == a + "/" + b
  {
    assert [b][1..] == [];
    assert JoinPath([b]) == b;
    assert [a, b][1..] == [b];
  }

  /** The three request paths of the protocol. */
  lemma RequestPaths(escapedMod: string, escapedVersion: string)
    requires escapedMod != ""
    ensures RequestPath(escapedMod, ["@v", escapedVersion + ".info"]) == escapedMod + "/@v/" + escapedVersion + ".info"
    ensures RequestPath(escapedMod, ["@v/list"]) == escapedMod + "/@v/list"
    ensures RequestPath(escapedMod, ["@v", escapedVersion + ".zip"]) == escapedMod + "/@v/" + escapedVersion + ".zip"
  {
    JoinTwo("@v", escapedVersion + ".info");
    assert "@v" + "/" + (escapedVersion + ".info") == "@v/" + escapedVersion + ".info";
    JoinTwo(escapedMod, "@v/" + escapedVersion + ".info");
    JoinTwo("@v", escapedVersion + ".zip");
    assert "@v" + "/" + (escapedVersion + ".zip") == "@v/" + escapedVersion + ".zip";
    JoinTwo(escapedMod, "@v/" + escapedVersion + ".zip");
    assert escapedMod + "/" + ("@v/" + escapedVersion + ".zip") == escapedMod + "/@v/" + escapedVersion + ".zip";
    assert escapedMod + "/" + ("@v/" + escapedVersion + ".info") == escapedMod + "/@v/" + escapedVersion + ".info";
    assert ["@v/list"][1..] == [];
    JoinTwo(escapedMod, "@v/list");
  }

  /** One iteration of the loop in `get`: parse the base URL, then `do` the GET.
      The request URL carries `path` below the host, so the path `do` reports
      in an `Error` is `path` with a leading `/`. */
  function Attempt(c: Client, baseURL: string, path: string): Result<string, Error>
  {
    if !c.isValidURL(baseURL) then Err(InvalidProxyURL(baseURL))
    else Do("/" + path, c.respond(baseURL, path))
  }

  /** An outcome that ends the failover: a success or an error other than NotFound. */
  predicate Decisive(r: Result<string, Error>)
  {
    r.Ok? || !IsNotFound(r.error)
  }

  /** The failover over `urls`: the first decisive outcome, or the last
      outcome when every proxy says NotFound; a nil body and a nil error when
      there is no proxy at all. */
  function GetFrom(c: Client, urls: seq<string>, path: string): Result<string, Error>
  {
    if urls == [] then Ok("")
    else
      var a := Attempt(c, urls[0], path);
      if Decisive(a) || |urls| == 1 then a else GetFrom(c, urls[1..], path)
  }

  /** `get` as a function of its inputs. */
  function GetSpec(c: Client, mod: string, paths: seq<string>): Result<string, Error>
  {
    match c.escapePath(mod)
    case None => Err(EscapePathFailed(mod))
    case Some(escapedMod) => GetFrom(c, c.urls, RequestPath(escapedMod, paths))
  }

  /** `get`: tries the proxies in order and stops at the first success or the
      first error that is not NotFound. */
  method Get(c: Client, mod: string, paths: seq<string>) returns (r: Result<string, Error>)
    ensures r == GetSpec(c, mod, paths)
  {
    var escaped := c.escapePath(mod);
    if escaped.None? {
      return Err(EscapePathFailed(mod));
    }
    var path := RequestPath(escaped.value, paths);
    var urls := c.urls;
    r := Ok("");
    var i := 0;
    while i < |urls|
      invariant 0 <= i <= |urls|
      invariant GetFrom(c, urls, path) == if i < |urls| then GetFrom(c, urls[i..], path) else r
    {
      var baseURL := urls[i];
      if !c.isValidURL(baseURL) {
        return Err(InvalidProxyURL(baseURL));
      }
      r := Do("/" + path, c.respond(baseURL, path));
      if r.Ok? || !IsNotFound(r.error) {
        return;
      }
      assert i + 1 < |urls| ==> urls[i..][1..] == urls[i + 1..];
      i := i + 1;
    }
  }

  /** The proxies are asked in order: when every earlier proxy says NotFound,
      the first decisive outcome is the result, whatever later proxies would say. */
  lemma {:induction false} GetFirstDecisive(c: Client, urls: seq<string>, path: string, k: nat)
    requires k < |urls|
    requires forall j :: 0 <= j < k ==> !Decisive(Attempt(c, urls[j], path))
    requires Decisive(Attempt(c, urls[k], path))
    ensures GetFrom(c, urls, path) == Attempt(c, urls[k], path)
  {
    if k > 0 {
      assert !Decisive(Attempt(c, urls[0], path));
      forall j | 0 <= j < k - 1 ensures !Decisive(Attempt(c, urls[1..][j], path)) {
        assert urls[1..][j] == urls[j + 1];
      }
      GetFirstDecisive(c, urls[1..], path, k - 1);
    }
  }

  /** When every proxy says NotFound the result is the last NotFound error. */
  lemma {:induction false} GetAllNotFound(c: Client, urls: seq<string>, path: string)
    requires |urls| > 0
    requires forall j :: 0 <= j < |urls| ==> !Decisive(Attempt(c, urls[j], path))
    ensures GetFrom(c, urls, path) == Attempt(c, urls[|urls| - 1], path)
    ensures GetFrom(c, urls, path).Err? && IsNotFound(GetFrom(c, urls, path).error)
  {
    assert !Decisive(Attempt(c, urls[0], path));
    if |urls| > 1 {
      forall j | 0 <= j < |urls| - 1 ensures !Decisive(Attempt(c, urls[1..][j], path)) {
        assert urls[1..][j] == urls[j + 1];
      }
      GetAllNotFound(c, urls[1..], path);
    }
  }

  /** An unparseable base URL reached by the failover ends it with an error at once. */
  lemma GetStopsAtInvalidURL(c: Client, urls: seq<string>, path: string, k: nat)
    requires k < |urls| && !c.isValidURL(urls[k])
    requires forall j :: 0 <= j < k ==> !Decisive(Attempt(c, urls[j], path))
    ensures GetFrom(c, urls, path) == Err(InvalidProxyURL(urls[k]))
  {
    GetFirstDecisive(c, urls, path, k);
  }

  /** A module path that does not escape fails before any proxy is asked;
      with no proxy configured, `get` returns an empty body and no error. */
  lemma GetWithoutRequest(c: Client, mod: string, paths: seq<string>)
    ensures c.escapePath(mod).None? ==> GetSpec(c, mod, paths) == Err(EscapePathFailed(mod))
    ensures c.escapePath(mod).Some? && c.urls == [] ==> GetSpec(c, mod, paths) == Ok("")
  {
  }

  // ---------------------------------------------------------------------------
  // `get` as written. Inside the loop, `reqURL, err := url.Parse(baseURL)`
  // declares a second `err`; the outcome of `do` is assigned to that one, so
  // the named result `err` returned after the loop is still nil. The
  // functions above state the evident intention, and the rest of the model
  // uses them.
  // ---------------------------------------------------------------------------

  /** The failover as written: the body of the last `do`, which is nil after a
      failed one, and an error only for an unparseable base URL. */
  function GetFromAsWritten(c: Client, urls: seq<string>, path: string): Result<string, Error>
  {
    if urls == [] then Ok("")
    else if !c.isValidURL(urls[0]) then Err(InvalidProxyURL(urls[0]))
    else
      var a := Do("/" + path, c.respond(urls[0], path));
      var respBody := if a.Ok? then a.value else "";
      if Decisive(a) || |urls| == 1 then Ok(respBody) else GetFromAsWritten(c, urls[1..], path)
  }

  /** `get` as written. */
  function GetAsWritten(c: Client, mod: string, paths: seq<string>): Result<string, Error>
  {
    match c.escapePath(mod)
    case None => Err(EscapePathFailed(mod))
    case Some(escapedMod) => GetFromAsWritten(c, c.urls, RequestPath(escapedMod, paths))
  }

  /** What the shadowed `err` does to an outcome of the intended `get`: a
      failed request turns into an empty body without an error. */
  function DropRequestError(r: Result<string, Error>): Result<string, Error>
  {
    match r
    case Ok(_) => r
    case Err(e) => if e.EscapePathFailed? || e.InvalidProxyURL? then r else Ok("")
  }

  lemma {:induction false} GetFromAsWrittenDropsErrors(c: Client, urls: seq<string>, path: string)
    ensures GetFromAsWritten(c, urls, path) == DropRequestError(GetFrom(c, urls, path))
  {
    if urls != [] && c.isValidURL(urls[0]) {
      var a := Attempt(c, urls[0], path);
      if !(Decisive(a) || |urls| == 1) {
        GetFromAsWrittenDropsErrors(c, urls[1..], path);
      }
    }
  }

  /** As written, `get` agrees with the intended `get` on success and on an
      escape or URL error, and reports every failed request as an empty body
      without an error. In particular it never reports NotFound. */
  lemma GetAsWrittenDropsErrors(c: Client, mod: string, paths: seq<string>)
    ensures GetAsWritten(c, mod, paths) == DropRequestError(GetSpec(c, mod, paths))
    ensures GetAsWritten(c, mod, paths).Err? ==>
              GetAsWritten(c, mod, paths).error.EscapePathFailed? || GetAsWritten(c, mod, paths).error.InvalidProxyURL?
  {
    if c.escapePath(mod).Some? {
      GetFromAsWrittenDropsErrors(c, c.urls, RequestPath(c.escapePath(mod).value, paths));
    }
  }

  /** `GetVersion` over `get` as written. */
  function GetVersionAsWritten(c: Client, mod: string, version: string): Result<ModuleVersion, Error>
  {
    match c.escapeVersion(version)
    case None => Err(EscapeVersionFailed(version))
    case Some(escapedVersion) =>
      match GetAsWritten(c, mod, ["@v", escapedVersion + ".info"])
      case Err(e) => Err(e)
      case Ok(body) =>
        match c.decodeVersion(body)
        case None => Err(DecodeFailed(body))
        case Some(v) => Ok(ModuleVersion(mod, v))
  }

  /** As written, `GetVersion` never fails with NotFound, so a caller that
      skips versions no proxy has can never take that branch. */
  lemma AsWrittenGetVersionNeverNotFound(c: Client, mod: string, version: string)
    ensures GetVersionAsWritten(c, mod, version).Err? ==> !IsNotFound(GetVersionAsWritten(c, mod, version).error)
  {
    if c.escapeVersion(version).Some? {
      GetAsWrittenDropsErrors(c, mod, ["@v", c.escapeVersion(version).value + ".info"]);
    }
  }

  /** One proxy that answers 404 to everything. The intended client reports
      NotFound for the version. As written, `GetVersion` fails to decode an
      empty body, `ListVersions` gets the body `""` (one empty version), and
      `GetZip` gets an empty archive, none of them with a request error. */
  lemma OneMissingProxyAsWritten(c: Client, mod: string, version: string, message: string)
    requires |c.urls| == 1 && c.isValidURL(c.urls[0])
    requires c.escapePath(mod).Some? && c.escapeVersion(version).Some?
    requires forall p :: c.respond(c.urls[0], p) == Response(StatusNotFound, message)
    requires c.decodeVersion("").None?
    ensures GetVersionSpec(c, mod, version).Err? && IsNotFound(GetVersionSpec(c, mod, version).error)
    ensures GetVersionAsWritten(c, mod, version) == Err(DecodeFailed(""))
    ensures GetSpec(c, mod, ["@v/list"]).Err? && GetAsWritten(c, mod, ["@v/list"]) == Ok("")
    ensures Split("", '\n') == [""]
    ensures var zip := ["@v", c.escapeVersion(version).value + ".zip"];
            GetSpec(c, mod, zip).Err? && GetAsWritten(c, mod, zip) == Ok("")
  {
    var em, ev := c.escapePath(mod).value, c.escapeVersion(version).value;
    GetAsWrittenDropsErrors(c, mod, ["@v", ev + ".info"]);
    GetAsWrittenDropsErrors(c, mod, ["@v/list"]);
    GetAsWrittenDropsErrors(c, mod, ["@v", ev + ".zip"]);
  }

  /** `GetVersion` as a function of its inputs. */
  function GetVersionSpec(c: Client, mod: string, version: string): Result<ModuleVersion, Error>
  {
    match c.escapeVersion(version)
    case None => Err(EscapeVersionFailed(version))
    case Some(escapedVersion) =>
      match GetSpec(c, mod, ["@v", escapedVersion + ".info"])
      case Err(e) => Err(e)
      case Ok(body) =>
        match c.decodeVersion(body)
        case None => Err(DecodeFailed(body))
        case Some(v) => Ok(ModuleVersion(mod, v))
  }

  /** What `GetVersion` promises: a version-escape failure ends the call before
      any request, and a result carries the module path asked for. */
  lemma GetVersionShape(c: Client, mod: string, version: string)
    ensures c.escapeVersion(version).None? ==> GetVersionSpec(c, mod, version) == Err(EscapeVersionFailed(version))
    ensures GetVersionSpec(c, mod, version).Ok? ==>
              var ev := c.escapeVersion(version).value;
              var body := GetSpec(c, mod, ["@v", ev + ".info"]).value;
              GetVersionSpec(c, mod, version).value == ModuleVersion(mod, c.decodeVersion(body).value)
  {
  }

  /** `GetVersion`: fetches `<mod>/@v/<version>.info` and decodes its `Version`. */
  method GetVersion(c: Client, mod: string, version: string) returns (r: Result<ModuleVersion, Error>)
    ensures r == GetVersionSpec(c, mod, version)
  {
    var escapedVersion := c.escapeVersion(version);
    if escapedVersion.None? {
      return Err(EscapeVersionFailed(version));
    }
    var respBody := Get(c, mod, ["@v", escapedVersion.value + ".info"]);
    if respBody.Err? {
      return Err(respBody.error);
    }
    var v := c.decodeVersion(respBody.value);
    if v.None? {
      return Err(DecodeFailed(respBody.value));
    }
    return Ok(ModuleVersion(mod, v.value));
  }

  /** `ListVersions`: one entry per newline-separated piece of the `list` body,
      a trailing empty piece included, each with the module path asked for. */
  method ListVersions(c: Client, mod: string) returns (r: Result<seq<ModuleVersion>, Error>)
    ensures GetSpec(c, mod, ["@v/list"]).Err? ==> r == Err(GetSpec(c, mod, ["@v/list"]).error)
    ensures GetSpec(c, mod, ["@v/list"]).Ok? ==>
              var body := GetSpec(c, mod, ["@v/list"]).value;
              && r.Ok?
              && |r.value| == |Split(body, '\n')| == Count(body, '\n') + 1
              && forall i :: 0 <= i < |r.value| ==> r.value[i] == ModuleVersion(mod, Split(body, '\n')[i])
  {
    var respBody := Get(c, mod, ["@v/list"]);
    if respBody.Err? {
      return Err(respBody.error);
    }
    var pieces := Split(respBody.value, '\n');
    SplitCount(respBody.value, '\n');
    var vs: seq<ModuleVersion> := [];
    for i := 0 to |pieces|
      invariant |vs| == i
      invariant forall k :: 0 <= k < i ==> vs[k] == ModuleVersion(mod, pieces[k])
    {
      vs := vs + [ModuleVersion(mod, pieces[i])];
    }
    return Ok(vs);
  }

  /** Each listed version is a separator-free piece, and joining the listed
      versions with newlines gives back the body. */
  lemma ListedVersionsRebuildBody(body: string)
    ensures forall i :: 0 <= i < |Split(body, '\n')| ==> '\n' !in Split(body, '\n')[i]
    ensures Join(Split(body, '\n'), '\n') == body
  {
    SplitPiecesHaveNoSeparator(body, '\n');
    JoinSplit(body, '\n');
  }

  /** `GetZip` as a function of its inputs. */
  function GetZipSpec(c: Client, mod: string, version: string): Result<string, Error>
  {
    match c.escapeVersion(version)
    case None => Err(EscapeVersionFailed(version))
    case Some(escapedVersion) => GetSpec(c, mod, ["@v", escapedVersion + ".zip"])
  }

  /** What `GetZip` promises: a version-escape failure ends the call before
      any request, then a path-escape failure does, and otherwise the archive
      is whatever the failover returns for `<mod>/@v/<version>.zip` (escaped,
      with a non-empty escaped module path, which `module.EscapePath` gives
      for every module path it accepts). */
  lemma GetZipShape(c: Client, mod: string, version: string)
    ensures c.escapeVersion(version).None? ==> GetZipSpec(c, mod, version) == Err(EscapeVersionFailed(version))
    ensures c.escapeVersion(version).Some? && c.escapePath(mod).None? ==>
              GetZipSpec(c, mod, version) == Err(EscapePathFailed(mod))
    ensures c.escapeVersion(version).Some? && c.escapePath(mod).Some? && c.escapePath(mod).value != "" ==>
              var em, ev := c.escapePath(mod).value, c.escapeVersion(version).value;
              GetZipSpec(c, mod, version) == GetFrom(c, c.urls, em + "/@v/" + ev + ".zip")
  {
    if c.escapeVersion(version).Some? && c.escapePath(mod).Some? && c.escapePath(mod).value != "" {
      RequestPaths(c.escapePath(mod).value, c.escapeVersion(version).value);
    }
  }

  /** `GetZip`: fetches `<mod>/@v/<version>.zip`. */
  method GetZip(c: Client, mod: string, version: string) returns (r: Result<string, Error>)
    ensures r == GetZipSpec(c, mod, version)
  {
    var escapedVersion := c.escapeVersion(version);
    if escapedVersion.None? {
      return Err(EscapeVersionFailed(version));
    }
    r := Get(c, mod, ["@v", escapedVersion.value + ".zip"]);
  }
}
