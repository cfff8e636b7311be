/** How a search request chooses its pattern type and its default result
    limit: the `version` and `patternType` arguments give a first type, a
    `patterntype:` field in the query overrides it, and the protocol and the
    final type choose the limit. */
module Search {
  import opened Results

  /** `query.SearchType`. */
  datatype SearchType = Regex | Literal | Structural

  /** `search.Protocol`. */
  datatype Protocol = Batch | Streaming

  /** A parameter (`field:value`) of a parsed query. */
  datatype Parameter = Parameter(field: string, value: string)

  datatype ExperimentalFeatures = ExperimentalFeatures(searchContextsQuery: Option<bool>)

  /** The part of `schema.Settings` this code reads. */
  datatype Settings = Settings(experimentalFeatures: Option<ExperimentalFeatures>)

  /** `SearchArgs`; None stands for a nil pointer. */
  datatype SearchArgs = SearchArgs(
    version: string,
    patternType: Option<string>,
    query: string,
    codeMonitorID: Option<string>,
    settings: Option<Settings>)

  /** The fields of `run.SearchInputs` that this code decides. */
  datatype SearchInputs = SearchInputs(
    originalQuery: string,
    userSettings: Settings,
    patternType: SearchType,
    defaultLimit: nat,
    codeMonitorID: Option<int>,
    protocol: Protocol)

  /** What `argsToInputs` returns: inputs, an alert for a query that does not
      plan, or an error. */
  datatype Outcome = Inputs(inputs: SearchInputs) | QueryAlert(query: string, message: string) | Failed(message: string)

  /** The collaborators of `argsToInputs`. */
  datatype Environment = Environment(
    viewerSettings: Result<Settings, string>,                 // decodedViewerFinalSettings
    structuralSearchEnabled: bool,                            // conf.StructuralSearchEnabled()
    parse: string -> Option<seq<Parameter>>,                  // query.Parse with the literal default; None on error
    pipeline: (string, SearchType, bool) -> Option<string>,   // query.Pipeline(Init, With(...)); the error, if any
    unmarshalID: string -> Result<int, string>)               // relay.UnmarshalSpec into an int64

  const DefaultMaxSearchResults: nat := 30
  const DefaultMaxSearchResultsStreaming: nat := 500
  const StructuralDisabledMessage := "Structural search is disabled in the site configuration."

  // ---------------------------------------------------------------------------
  // detectSearchType
  // ---------------------------------------------------------------------------

  /** The `patternType` argument that names each search type. */
  function PatternTypeName(t: SearchType): string
  {
    match t
    case Literal => "literal"
    case Regex => "regexp"
    case Structural => "structural"
  }

  function UnrecognizedPatternTypeMessage(patternType: string): string
  {
    "unrecognized patternType: " + patternType
  }

  function UnrecognizedVersionMessage(version: string): string
  {
    "unrecognized version want \"V1\" or \"V2\": " + version
  }

  /** `detectSearchType`, with the error naming the rejected pattern type. */
  function DetectSearchType(version: string, patternType: Option<string>): (r: Result<SearchType, string>)
    ensures patternType.Some? ==>
              && (patternType.value == "literal" ==> r == Ok(Literal))
              && (patternType.value == "regexp" ==> r == Ok(Regex))
              && (patternType.value == "structural" ==> r == Ok(Structural))
              && (patternType.value !in {"literal", "regexp", "structural"} ==>
                    r == Err(UnrecognizedPatternTypeMessage(patternType.value)))
    ensures patternType.None? ==>
              && (version == "V1" ==> r == Ok(Regex))
              && (version == "V2" ==> r == Ok(Literal))
              && (version !in {"V1", "V2"} ==> r == Err(UnrecognizedVersionMessage(version)))
  {
    match patternType
    case Some(p) =>
      if p == "literal" then Ok(Literal)
      else if p == "regexp" then Ok(Regex)
      else if p == "structural" then Ok(Structural)
      else Err(UnrecognizedPatternTypeMessage(p))
    case None =>
      if version == "V1" then Ok(Regex)
      else if version == "V2" then Ok(Literal)
      else Err(UnrecognizedVersionMessage(version))
  }

  /** A `patternType` argument makes the version irrelevant. */
  lemma DetectIgnoresVersion(v1: string, v2: string, p: string)
    ensures DetectSearchType(v1, Some(p)) == DetectSearchType(v2, Some(p))
  {
  }

  /** Each search type is selected by exactly its own name. */
  lemma DetectPatternTypeName(version: string, p: string, t: SearchType)
    ensures DetectSearchType(version, Some(p)) == Ok(t) <==> p == PatternTypeName(t)
  {
  }

  // ---------------------------------------------------------------------------
  // The message of an unrecognised pattern type, as written
  // ---------------------------------------------------------------------------

  /** A `*string` argument: the address it holds and the string it points to. */
  datatype StringPointer = StringPointer(address: nat, target: string)

  predicate IsHexChar(c: char)
  {
    '0' <= c <= '9' || 'a' <= c <= 'f'
  }

  function HexDigit(d: nat): (c: char)
    requires d < 16
    ensures IsHexChar(c)
  {
    "0123456789abcdef"[d]
  }

  /** The lower-case hexadecimal digits of `n`. */
  function Hex(n: nat): (r: string)
    ensures |r| >= 1
    ensures forall i :: 0 <= i < |r| ==> IsHexChar(r[i])
    decreases n
  {
    if n < 16 then [HexDigit(n)] else Hex(n / 16) + [HexDigit(n % 16)]
  }

  /** What `%v` prints for a non-nil pointer: its address. */
  function FormatPointer(p: StringPointer): (r: string)
    ensures forall i :: 0 <= i < |r| ==> IsHexChar(r[i]) || r[i] == 'x'
  {
    "0x" + Hex(p.address)
  }

  /** The message as written: `%v` is applied to the pointer itself. */
  function UnrecognizedPatternTypeMessageAsWritten(p: StringPointer): string
  {
    "unrecognized patternType: " + FormatPointer(p)
  }

  /** The message as written never names a rejected value that holds any
      character other than a hexadecimal digit or `x`. */
  lemma {:induction false} AsWrittenMessageHidesValue(p: StringPointer, k: nat)
    requires k < |p.target| && !IsHexChar(p.target[k]) && p.target[k] != 'x'
    ensures UnrecognizedPatternTypeMessageAsWritten(p) != UnrecognizedPatternTypeMessage(p.target)
  {
    var prefix := "unrecognized patternType: ";
    var written := FormatPointer(p);
    var corrected := prefix + p.target;
    assert corrected[|prefix| + k] == p.target[k];
    if |prefix + written| == |corrected| {
      assert (prefix + written)[|prefix| + k] == written[k];
    }
  }

  /** A client sending the pattern type "regex", a plausible slip for
      "regexp", is told an address instead, wherever the string lives. */
  lemma AsWrittenMessageExample(address: nat)
    ensures var written := UnrecognizedPatternTypeMessageAsWritten(StringPointer(address, "regex"));
            && written != UnrecognizedPatternTypeMessage("regex")
            && written[..28] == "unrecognized patternType: 0x"
  {
    AsWrittenMessageHidesValue(StringPointer(address, "regex"), 0);
  }

  /** The corrected message ends in the rejected value. */
  lemma CorrectedMessageNamesValue(p: string)
    ensures var m := UnrecognizedPatternTypeMessage(p);
            |m| >= |p| && m[|m| - |p|..] == p
  {
  }

  // ---------------------------------------------------------------------------
  // overrideSearchType
  // ---------------------------------------------------------------------------

  function LowerChar(c: char): char
  {
    if 'A' <= c <= 'Z' then (c as int + 32) as char else c
  }

  /** `strings.ToLower` restricted to what matters for comparing with an
      ASCII field name. */
  function Lower(s: string): (r: string)
    ensures |r| == |s|
    ensures forall i :: 0 <= i < |s| ==> r[i] == LowerChar(s[i])
  {
    if s == [] then [] else [LowerChar(s[0])] + Lower(s[1..])
  }

  /** The search type a `patterntype:` value selects, if any. */
  function Recognised(value: string): (r: Option<SearchType>)
    ensures r == Some(Regex) <==> value == "regex" || value == "regexp"
    ensures r == Some(Literal) <==> value == "literal"
    ensures r == Some(Structural) <==> value == "structural"
  {
    if value == "regex" || value == "regexp" then Some(Regex)
    else if value == "literal" then Some(Literal)
    else if value == "structural" then Some(Structural)
    else None
  }

  /** Whether a parameter is a `patterntype:` field with a recognised value. */
  predicate SetsType(p: Parameter)
  {
    Lower(p.field) == "patterntype" && Recognised(p.value).Some?
  }

  /** The fold of the visitor over the parameters, in visiting order. */
  function LastPatternType(params: seq<Parameter>, searchType: SearchType): SearchType
  {
    if params == [] then searchType
    else
      var p := params[|params| - 1];
      if SetsType(p) then Recognised(p.value).value else LastPatternType(params[..|params| - 1], searchType)
  }

  /** `overrideSearchType` as a function of its inputs. */
  function OverrideSpec(parse: string -> Option<seq<Parameter>>, input: string, searchType: SearchType): SearchType
  {
    match parse(input)
    case None => searchType
    case Some(params) => LastPatternType(params, searchType)
  }

  /** The last recognised `patterntype:` value decides; without one the
      given type stands. */
  lemma {:induction false} LastPatternTypeIsLastRecognised(params: seq<Parameter>, searchType: SearchType)
    ensures (forall i :: 0 <= i < |params| ==> !SetsType(params[i])) ==> LastPatternType(params, searchType) == searchType
    ensures forall k :: 0 <= k < |params| && SetsType(params[k]) && (forall j :: k < j < |params| ==> !SetsType(params[j])) ==>
              LastPatternType(params, searchType) == Recognised(params[k].value).value
  {
    if forall i :: 0 <= i < |params| ==> !SetsType(params[i]) {
      NoPatternTypeKeepsType(params, searchType);
    }
    forall k | 0 <= k < |params| && SetsType(params[k]) && (forall j :: k < j < |params| ==> !SetsType(params[j]))
      ensures LastPatternType(params, searchType) == Recognised(params[k].value).value
    {
      LastSetterDecides(params, searchType, k);
    }
  }

  lemma {:induction false} NoPatternTypeKeepsType(params: seq<Parameter>, searchType: SearchType)
    requires forall i :: 0 <= i < |params| ==> !SetsType(params[i])
    ensures LastPatternType(params, searchType) == searchType
  {
    if params != [] {
      var init := params[..|params| - 1];
      assert forall i :: 0 <= i < |init| ==> init[i] == params[i];
      NoPatternTypeKeepsType(init, searchType);
    }
  }

  lemma {:induction false} LastSetterDecides(params: seq<Parameter>, searchType: SearchType, k: nat)
    requires k < |params| && SetsType(params[k])
    requires forall j :: k < j < |params| ==> !SetsType(params[j])
    ensures LastPatternType(params, searchType) == Recognised(params[k].value).value
  {
    var n := |params| - 1;
    if k < n {
      var init := params[..n];
      assert init[k] == params[k];
      assert forall j :: k < j < n ==> init[j] == params[j];
      LastSetterDecides(init, searchType, k);
    }
  }

  /** `Lower(s)` is `t` when `t` is `s` lowered character by character. */
  lemma LowerEq(s: string, t: string)
    requires |s| == |t| && forall i :: 0 <= i < |s| ==> LowerChar(s[i]) == t[i]
    ensures Lower(s) == t
  {
  }

  lemma LowerFieldNames()
    ensures Lower("PatternType") == "patterntype"
  {
    var s, t := "PatternType", "patterntype";
    assert LowerChar(s[0]) == t[0] && LowerChar(s[7]) == t[7];
    LowerEq(s, t);
  }

  /** The field name is matched without regard to ASCII case. */
  lemma PatternTypeFieldCaseInsensitive(value: string)
    requires Recognised(value).Some?
    ensures LastPatternType([Parameter("PatternType", value)], Literal) == Recognised(value).value
  {
    LowerFieldNames();
    assert SetsType(Parameter("PatternType", value));
  }

  /** `overrideSearchType`: the visitor callback reassigns the search type
      for every recognised `patterntype:` value. */
  method OverrideSearchType(parse: string -> Option<seq<Parameter>>, input: string, searchType: SearchType)
    returns (r: SearchType)
    ensures r == OverrideSpec(parse, input, searchType)
    ensures parse(input).None? ==> r == searchType
  {
    var q := parse(input);
    if q.None? {
      return searchType;
    }
    var params := q.value;
    r := searchType;
    for i := 0 to |params|
      invariant r == LastPatternType(params[..i], searchType)
    {
      assert params[..i + 1][..i] == params[..i];
      if Lower(params[i].field) == "patterntype" {
        var recognised := Recognised(params[i].value);
        if recognised.Some? {
          r := recognised.value;
        }
      }
    }
    assert params[..|params|] == params;
  }

  // ---------------------------------------------------------------------------
  // getBoolPtr and the search-contexts switch
  // ---------------------------------------------------------------------------

  /** `getBoolPtr`: the pointed-to value, or the default for nil. */
  function GetBoolPtr(b: Option<bool>, def: bool): (r: bool)
    ensures b.None? ==> r == def
    ensures b.Some? ==> r == b.value
  {
    match b
    case None => def
    case Some(v) => v
  }

  /** Whether search contexts are substituted into the query. */
  function SearchContextsQueryEnabled(settings: Settings): (r: bool)
    ensures r <==> settings.experimentalFeatures.Some? && settings.experimentalFeatures.value.searchContextsQuery != Some(false)
  {
    settings.experimentalFeatures.Some? && GetBoolPtr(settings.experimentalFeatures.value.searchContextsQuery, true)
  }

  // ---------------------------------------------------------------------------
  // The default limit and argsToInputs
  // ---------------------------------------------------------------------------

  /** The default result limit chosen for a protocol and a search type. */
  function DefaultLimitFor(protocol: Protocol, searchType: SearchType): nat
  {
    if protocol == Streaming && searchType != Structural then DefaultMaxSearchResultsStreaming
    else DefaultMaxSearchResults
  }

  /** The default-limit steps of `argsToInputs`. */
  method DefaultLimit(protocol: Protocol, searchType: SearchType) returns (limit: nat)
    ensures limit == 500 <==> protocol == Streaming && searchType != Structural
    ensures limit == 30 <==> !(protocol == Streaming && searchType != Structural)
    ensures limit == DefaultLimitFor(protocol, searchType)
  {
    limit := DefaultMaxSearchResults;
    if protocol == Streaming {
      limit := DefaultMaxSearchResultsStreaming;
    }
    if searchType == Structural {
      limit := DefaultMaxSearchResults;
    }
  }

  /** `argsToInputs` as a function of its inputs. */
  function ArgsToInputsSpec(env: Environment, protocol: Protocol, args: SearchArgs): Outcome
  {
    var settings := if args.settings.Some? then Ok(args.settings.value) else env.viewerSettings;
    match settings
    case Err(e) => Failed(e)
    case Ok(settings) =>
      match DetectSearchType(args.version, args.patternType)
      case Err(e) => Failed(e)
      case Ok(detected) =>
        var searchType := OverrideSpec(env.parse, args.query, detected);
        if searchType == Structural && !env.structuralSearchEnabled then Failed(StructuralDisabledMessage)
        else
          match env.pipeline(args.query, searchType, SearchContextsQueryEnabled(settings))
          case Some(e) => QueryAlert(args.query, e)
          case None =>
            var id := if args.codeMonitorID.Some? then Some(env.unmarshalID(args.codeMonitorID.value)) else None;
            if id.Some? && id.value.Err? then Failed(id.value.error)
            else
              Inputs(SearchInputs(args.query, settings, searchType, DefaultLimitFor(protocol, searchType),
                                  if id.Some? then Some(id.value.value) else None, protocol))
  }

  /** `argsToInputs`. */
  method ArgsToInputs(env: Environment, protocol: Protocol, args: SearchArgs) returns (r: Outcome)
    ensures r == ArgsToInputsSpec(env, protocol, args)
  {
    var settings: Settings;
    if args.settings.None? {
      if env.viewerSettings.Err? {
        return Failed(env.viewerSettings.error);
      }
      settings := env.viewerSettings.value;
    } else {
      settings := args.settings.value;
    }
    var detected := DetectSearchType(args.version, args.patternType);
    if detected.Err? {
      return Failed(detected.error);
    }
    var searchType := OverrideSearchType(env.parse, args.query, detected.value);
    if searchType == Structural && !env.structuralSearchEnabled {
      return Failed(StructuralDisabledMessage);
    }
    var contextsEnabled := SearchContextsQueryEnabled(settings);
    var planErr := env.pipeline(args.query, searchType, contextsEnabled);
    if planErr.Some? {
      return QueryAlert(args.query, planErr.value);
    }
    var defaultLimit := DefaultLimit(protocol, searchType);
    var codeMonitorID: Option<int> := None;
    if args.codeMonitorID.Some? {
      var id := env.unmarshalID(args.codeMonitorID.value);
      if id.Err? {
        return Failed(id.error);
      }
      codeMonitorID := Some(id.value);
    }
    return Inputs(SearchInputs(args.query, settings, searchType, defaultLimit, codeMonitorID, protocol));
  }

  /** A request whose final type is structural fails when structural search
      is switched off, and never reaches planning. */
  lemma StructuralDisabledFails(env: Environment, protocol: Protocol, args: SearchArgs)
    requires args.settings.Some? || env.viewerSettings.Ok?
    requires DetectSearchType(args.version, args.patternType).Ok?
    requires OverrideSpec(env.parse, args.query, DetectSearchType(args.version, args.patternType).value) == Structural
    requires !env.structuralSearchEnabled
    ensures ArgsToInputsSpec(env, protocol, args) == Failed(StructuralDisabledMessage)
  {
  }

  /** Every produced input carries the overridden type and the limit it
      implies: 500 for streaming, 30 for batch and for structural search. */
  lemma InputsTypeAndLimit(env: Environment, protocol: Protocol, args: SearchArgs)
    requires ArgsToInputsSpec(env, protocol, args).Inputs?
    ensures var inputs := ArgsToInputsSpec(env, protocol, args).inputs;
            && DetectSearchType(args.version, args.patternType).Ok?
            && inputs.patternType == OverrideSpec(env.parse, args.query, DetectSearchType(args.version, args.patternType).value)
            && (inputs.patternType == Structural ==> env.structuralSearchEnabled)
            && (inputs.defaultLimit == 500 <==> protocol == Streaming && inputs.patternType != Structural)
            && (inputs.defaultLimit == 30 <==> !(protocol == Streaming && inputs.patternType != Structural))
            && inputs.originalQuery == args.query && inputs.protocol == protocol
  {
  }
}
