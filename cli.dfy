/** The command layer of the client: how the arguments become a command,
    which handler runs, where `request` takes its parameters from, and what
    `authorize` and `request` decide given the loaded profile and the token
    endpoint's answer. Every way the process ends early is a `Stop` value. */
module Cli {
  import opened Wrappers
  import opened Php
  import opened Profile
  import opened AuthFailure

  const SupportedCommands: seq<string> := ["authorize", "request"]

  /** VERSION_MAJOR.VERSION_MINOR.VERSION_PATCH as printed by --version. */
  const VersionText: string := "Version 0.1.0"

  /** The message-and-exit outcomes of the command-line client. */
  datatype Stop =
    | ShowUsage
    | ShowVersion(text: string)
    | AuthorizeUsage
    | ConfigMissing
    | ConfigInvalid
    | Rejected(why: Rejection)
    | NoCredentials
    | MissingMethod
    | FileNotFound(path: string)

  /** What the option parser leaves: the positional arguments and whether
      --help or --version was given. */
  datatype ParsedArgs = ParsedArgs(args: seq<string>, help: bool, version: bool)

  // ---------------------------------------------------------------------
  // parseOptions and dispatch

  /** Cli.php:38-50: no arguments or --help print the usage, --version the
      version; otherwise an argument list that does not start with a
      supported command gets "request" put in front. */
  function ParseOptions(p: ParsedArgs): (r: Result<seq<string>, Stop>)
    ensures r.Failure? <==> p.args == [] || p.help || p.version
    ensures r.Failure? ==> r.error == if p.args == [] || p.help then ShowUsage else ShowVersion(VersionText)
    ensures r.Success? ==> r.value != [] && r.value[0] in SupportedCommands
    ensures r.Success? ==> |p.args| <= |r.value| <= |p.args| + 1 && r.value[|r.value| - |p.args|..] == p.args
    ensures r.Success? ==> (r.value == p.args <==> p.args[0] in SupportedCommands)
    // any other first word is taken as an API method of `request`
    ensures r.Success? && p.args[0] !in SupportedCommands ==> r.value == ["request"] + p.args
  {
    if p.args == [] || p.help then Failure(ShowUsage)
    else if p.version then Failure(ShowVersion(VersionText))
    else if p.args[0] in SupportedCommands then Success(p.args)
    else Success(["request"] + p.args)
  }

  /** Normalising an already normalised argument list changes nothing. */
  lemma ParseOptionsIdempotent(p: ParsedArgs)
    requires ParseOptions(p).Success?
    ensures ParseOptions(ParsedArgs(ParseOptions(p).value, false, false)) == ParseOptions(p)
  {
  }

  datatype Handler = HandleRequest(args: seq<string>) | HandleAuthorize(args: seq<string>) | Unhandled

  /** Cli.php:55-67: the first word picks the handler and the rest is
      passed on; "profile" is handled like "request"; any other word (or
      none) runs nothing. */
  function Dispatch(options: seq<string>): (h: Handler)
    ensures h.HandleRequest? <==> options != [] && (options[0] == "request" || options[0] == "profile")
    ensures h.HandleAuthorize? <==> options != [] && options[0] == "authorize"
    ensures !h.Unhandled? ==> h.args == options[1..]
  {
    if options == [] then Unhandled
    else
      match options[0]
      case "request" => HandleRequest(options[1..])
      case "profile" => HandleRequest(options[1..])
      case "authorize" => HandleAuthorize(options[1..])
      case _ => Unhandled
  }

  /** Cli.php:27-32: parse, then dispatch. */
  function Route(p: ParsedArgs): (r: Result<Handler, Stop>)
    ensures r.Failure? <==> p.args == [] || p.help || p.version
    ensures r.Failure? ==> r.error == if p.args == [] || p.help then ShowUsage else ShowVersion(VersionText)
    // a handler always runs, with the arguments after the command word
    ensures r.Success? ==> !r.value.Unhandled? && r.value.args == ParseOptions(p).value[1..]
  {
    var options :- ParseOptions(p);
    Success(Dispatch(options))
  }

  /** Once the arguments are normalised a handler always runs, and the
      "profile" case of the dispatcher is never reached through `run`
      ("profile" gets "request" put in front and becomes the API method). */
  lemma {:induction false} RouteAlwaysHandles(p: ParsedArgs)
    requires ParseOptions(p).Success?
    ensures var h := Route(p);
            && (h.value.HandleRequest? ==> ParseOptions(p).value[0] == "request")
            && (p.args[0] == "profile" ==> h.value == HandleRequest(p.args))
  {
    var o := ParseOptions(p).value;
    assert o[0] in SupportedCommands;
    if p.args[0] == "profile" {
      assert o == ["request"] + p.args;
      assert o[1..] == p.args;
    }
  }

  // ---------------------------------------------------------------------
  // where `request` takes its parameters from

  const FilePrefix: string := "file://"

  predicate HasPrefix(s: string, prefix: string) {
    |prefix| <= |s| && s[..|prefix|] == prefix
  }

  /** The position of the last `c` in `s`. */
  function LastIndexOf(s: string, c: char): (r: Option<nat>)
    ensures r.Some? ==> r.value < |s| && s[r.value] == c && forall j :: r.value < j < |s| ==> s[j] != c
    ensures r.None? ==> forall j :: 0 <= j < |s| ==> s[j] != c
  {
    if s == [] then None
    else if s[|s| - 1] == c then Some(|s| - 1)
    else LastIndexOf(s[..|s| - 1], c)
  }

  /** The last path component: the longest suffix of the path without '/'. */
  function BaseName(path: string): (b: string)
    ensures '/' !in b && |b| <= |path| && path[|path| - |b|..] == b
  {
    match LastIndexOf(path, '/')
    case Some(i) =>
      AfterLast(path, i, '/');
      path[i + 1..]
    case None =>
      assert path[0..] == path;
      path
  }

  /** The base name is the longest such suffix: the whole path, or what
      follows a '/'. */
  lemma BaseNameIsLongest(path: string)
    ensures var b := BaseName(path);
            |b| == |path| || path[|path| - |b| - 1] == '/'
  {
  }

  /** `pathinfo($file, PATHINFO_EXTENSION)`: what follows the last '.' of
      the last path component, or "" when that component has no '.'. */
  function Extension(path: string): (e: string)
    ensures '.' !in e && '/' !in e && |e| <= |path| && path[|path| - |e|..] == e
  {
    var b := BaseName(path);
    match LastIndexOf(b, '.')
    case Some(i) =>
      AfterLastDot(path, b, i);
      b[i + 1..]
    case None =>
      assert path[|path|..] == [];
      ""
  }

  /** What follows the last '.' of a '/'-free suffix of the path is itself
      a suffix of the path, without '.' or '/'. */
  lemma AfterLastDot(path: string, b: string, i: nat)
    requires '/' !in b && |b| <= |path| && path[|path| - |b|..] == b
    requires LastIndexOf(b, '.') == Some(i)
    ensures var e := b[i + 1..];
            '.' !in e && '/' !in e && |e| <= |path| && path[|path| - |e|..] == e
  {
    AfterLast(b, i, '.');
    NotInSuffix(b, i + 1, '/');
    SuffixOfSuffix(path, b, i + 1);
  }

  /** What follows the last `c` holds no `c`. */
  lemma AfterLast(s: string, i: nat, c: char)
    requires LastIndexOf(s, c) == Some(i)
    ensures c !in s[i + 1..]
  {
    var t := s[i + 1..];
    forall j | 0 <= j < |t|
      ensures t[j] == s[i + 1 + j]
    {
    }
  }

  /** A suffix holds nothing the whole string lacks. */
  lemma NotInSuffix(s: string, i: nat, d: char)
    requires i <= |s| && d !in s
    ensures d !in s[i..]
  {
    var t := s[i..];
    forall j | 0 <= j < |t|
      ensures t[j] == s[i + j]
    {
    }
  }

  /** A suffix of a suffix of `path` is a suffix of `path`. */
  lemma SuffixOfSuffix(path: string, b: string, i: nat)
    requires |b| <= |path| && path[|path| - |b|..] == b && i <= |b|
    ensures path[|path| - (|b| - i)..] == b[i..]
  {
    assert path[|path| - (|b| - i)..] == path[|path| - |b|..][i..];
  }

  datatype FileFormat = IniFile | XmlFile | JsonFile | QueryStringFile

  /** Cli.php:110-123: the parser is chosen by the extension. */
  function FormatOf(ext: string): (f: FileFormat)
    ensures f == IniFile <==> ext == "ini"
    ensures f == XmlFile <==> ext == "xml"
    ensures f == JsonFile <==> ext == "json"
  {
    match ext
    case "ini" => IniFile
    case "xml" => XmlFile
    case "json" => JsonFile
    case _ => QueryStringFile
  }

  datatype ParamSource = NoParameters | QueryString(text: string) | ParameterFile(path: string, format: FileFormat)

  /** Cli.php:101-127, given the arguments after the command (the API
      method, then the parameters): a second argument starting with
      "file://" names a file whose parser follows its extension; any other
      second argument is a query string. */
  function ParameterSource(args: seq<string>): (src: ParamSource)
    ensures src.NoParameters? <==> |args| < 2
    ensures src.ParameterFile? <==> |args| >= 2 && HasPrefix(args[1], FilePrefix)
    ensures src.ParameterFile? ==> FilePrefix + src.path == args[1] && src.format == FormatOf(Extension(src.path))
    ensures src.QueryString? ==> src.text == args[1]
  {
    if |args| < 2 then NoParameters
    else if HasPrefix(args[1], FilePrefix) then
      var file := args[1][|FilePrefix|..];
      assert args[1] == FilePrefix + file;
      ParameterFile(file, FormatOf(Extension(file)))
    else QueryString(args[1])
  }

  /** Appending characters without `c` does not move the last `c`. */
  lemma {:induction false} LastIndexOfAppend(s: string, t: string, c: char)
    requires c !in t
    ensures LastIndexOf(s + t, c) == LastIndexOf(s, c)
    decreases |t|
  {
    if t == [] {
      assert s + t == s;
    } else {
      var u := t[..|t| - 1];
      assert (s + t)[..|s + t| - 1] == s + u;
      LastIndexOfAppend(s, u, c);
    }
  }

  /** Appending text without '/' extends the last path component. */
  lemma BaseNameAppend(s: string, t: string)
    requires '/' !in t
    ensures BaseName(s + t) == BaseName(s) + t
  {
    LastIndexOfAppend(s, t, '/');
    match LastIndexOf(s, '/')
    case Some(i) => SliceOfAppend(s, t, i + 1);
    case None =>
  }

  lemma SliceOfAppend(s: string, t: string, k: nat)
    requires k <= |s|
    ensures (s + t)[k..] == s[k..] + t
  {
  }

  /** The extension of "stem.ext" is "ext" whenever "ext" has no '.' or '/'. */
  lemma ExtensionOfJoined(stem: string, ext: string)
    requires '.' !in ext && '/' !in ext
    ensures Extension(stem + "." + ext) == ext
  {
    var prefix := BaseName(stem);
    BaseNameOfJoined(stem, ext);
    LastDotOfJoined(prefix, ext);
    ExtensionFrom(stem + "." + ext, prefix + "." + ext, |prefix|);
    TailOfJoined(prefix, ext);
  }

  lemma BaseNameOfJoined(stem: string, ext: string)
    requires '/' !in ext
    ensures BaseName(stem + "." + ext) == BaseName(stem) + "." + ext
  {
    var dotExt := "." + ext;
    TextAssociates(stem, ".", ext);
    BaseNameAppend(stem, dotExt);
    TextAssociates(BaseName(stem), ".", ext);
  }

  lemma TextAssociates(a: string, b: string, c: string)
    ensures (a + b) + c == a + (b + c)
  {
  }

  lemma LastDotOfJoined(prefix: string, ext: string)
    requires '.' !in ext
    ensures LastIndexOf(prefix + "." + ext, '.') == Some(|prefix|)
  {
    LastIndexOfAppend(prefix + ".", ext, '.');
  }

  lemma TailOfJoined(prefix: string, ext: string)
    ensures (prefix + "." + ext)[|prefix| + 1..] == ext
  {
  }

  lemma ExtensionFrom(path: string, b: string, i: nat)
    requires BaseName(path) == b && LastIndexOf(b, '.') == Some(i)
    ensures Extension(path) == b[i + 1..]
  {
  }

  /** A last path component without '.' has no extension. */
  lemma NoDotNoExtension(path: string)
    requires '.' !in BaseName(path)
    ensures Extension(path) == ""
  {
  }

  /** "file://" followed by a path names that file, parsed by its extension. */
  lemma FileArgument(apiMethod: string, path: string, stem: string, ext: string)
    requires path == stem + "." + ext && '.' !in ext && '/' !in ext
    ensures ParameterSource([apiMethod, FilePrefix + path]) == ParameterFile(path, FormatOf(ext))
  {
    var src := ParameterSource([apiMethod, FilePrefix + path]);
    assert HasPrefix(FilePrefix + path, FilePrefix);
    ExtensionOfJoined(stem, ext);
  }

  // ---------------------------------------------------------------------
  // the request command

  /** What reading config/profile.json gave: no file, text that is not
      JSON, the JSON literal `false`, or a decoded profile. */
  datatype LoadOutcome = Missing | Malformed | DecodedFalse | Loaded(store: Store)

  predicate LoadValid(load: LoadOutcome) {
    load.Loaded? ==> load.store.Valid()
  }

  /** The signed API call `request` goes on to make. */
  datatype RequestCall = RequestCall(token: string, apiMethod: string, parameters: ParamSource)

  /** Cli.php:88-128 once the candidate token is known: a token that is
      null or false in PHP's sense stops the command before the arguments
      are looked at; then the API method is required, and a parameter file
      must exist. `existing` is the set of paths `file_exists` accepts. */
  function PlanRequestWith(candidate: Option<string>, args: seq<string>, existing: set<string>): (r: Result<RequestCall, Stop>)
    ensures !TruthyOpt(candidate) ==> r == Failure(NoCredentials)
    ensures TruthyOpt(candidate) && args == [] ==> r == Failure(MissingMethod)
    ensures r.Success? <==> TruthyOpt(candidate) && args != [] &&
                            (ParameterSource(args).ParameterFile? ==> ParameterSource(args).path in existing)
    ensures r.Success? ==> r.value == RequestCall(candidate.value, args[0], ParameterSource(args))
    ensures TruthyOpt(candidate) && args != [] && ParameterSource(args).ParameterFile? && ParameterSource(args).path !in existing ==>
              r == Failure(FileNotFound(ParameterSource(args).path))
  {
    if !TruthyOpt(candidate) then Failure(NoCredentials)
    else if |args| < 1 then Failure(MissingMethod)
    else
      var src := ParameterSource(args);
      if src.ParameterFile? && src.path !in existing then Failure(FileNotFound(src.path))
      else Success(RequestCall(candidate.value, args[0], src))
  }

  /** The request command on the intended loop over the loaded profile. A
      profile that did not decode to an array yields no candidate. */
  function PlanRequest(load: LoadOutcome, args: seq<string>, existing: set<string>): (r: Result<RequestCall, Stop>)
    requires LoadValid(load)
    ensures load.Missing? ==> r == Failure(ConfigMissing)
    ensures load.Malformed? || load.DecodedFalse? ==> r == Failure(NoCredentials)
    ensures load.Loaded? ==> r == PlanRequestWith(DefaultCandidate(load.store), args, existing)
    // a request is signed only with the profile's default candidate
    ensures r.Success? ==> load.Loaded? && DefaultCandidate(load.store) == Some(r.value.token) && Truthy(r.value.token)
  {
    match load
    case Missing => Failure(ConfigMissing)
    case Loaded(s) => PlanRequestWith(DefaultCandidate(s), args, existing)
    case _ => PlanRequestWith(None, args, existing)
  }

  /** The request command as written, whose loop never runs. */
  function PlanRequestAsWritten(load: LoadOutcome, args: seq<string>, existing: set<string>): (r: Result<RequestCall, Stop>)
    requires LoadValid(load)
    // a loaded profile counts for no more than one that did not decode
    ensures load.Loaded? ==> r == PlanRequest(DecodedFalse, args, existing)
    ensures !load.Loaded? ==> r == PlanRequest(load, args, existing)
  {
    match load
    case Missing => Failure(ConfigMissing)
    case Loaded(s) => PlanRequestWith(DefaultCandidateAsWritten(s), args, existing)
    case _ => PlanRequestWith(None, args, existing)
  }

  /** As written, `request` can never succeed: it stops with the "use
      authorize" message even right after a successful `authorize`. */
  lemma RequestAsWrittenNeverSigns(load: LoadOutcome, args: seq<string>, existing: set<string>)
    requires LoadValid(load)
    ensures PlanRequestAsWritten(load, args, existing) == Failure(if load.Missing? then ConfigMissing else NoCredentials)
  {
  }

  // ---------------------------------------------------------------------
  // the authorize command

  /** The token endpoint's answer to the password grant. */
  datatype TokenResponse = Granted(accessToken: string) | Refused(failure: FailedResponse)

  /** A successful authorization: the profile to write back and the token. */
  datatype Authorization = Authorization(profile: Store, token: string)

  /** Cli.php:149-151 as intended: only a decoded profile is used; text
      that is not JSON is reported like the literal `false`. */
  function ProfileToAuthorize(load: LoadOutcome): (r: Result<Store, Stop>)
    requires LoadValid(load)
    ensures r.Success? <==> load.Loaded?
    ensures r.Success? ==> r.value == load.store
    ensures load.Missing? ==> r == Failure(ConfigMissing)
    ensures load.Malformed? || load.DecodedFalse? ==> r == Failure(ConfigInvalid)
  {
    match load
    case Missing => Failure(ConfigMissing)
    case Loaded(s) => Success(s)
    case _ => Failure(ConfigInvalid)
  }

  /** Cli.php:149-151 as written: `json_decode` gives null, not false, for
      text that is not JSON, so the check lets it through and the null
      profile behaves as an empty array from then on. */
  function ProfileToAuthorizeAsWritten(load: LoadOutcome): (r: Result<Store, Stop>)
    requires LoadValid(load)
    ensures load.Malformed? ==> r == Success(Store([], map[]))
  {
    match load
    case Missing => Failure(ConfigMissing)
    case Loaded(s) => Success(s)
    case Malformed => Success(Store([], map[]))
    case DecodedFalse => Failure(ConfigInvalid)
  }

  /** Cli.php:152-195 once a profile is in hand. */
  function AuthorizeWith(clientId: string, config: Store, response: TokenResponse): (r: Result<Authorization, Stop>)
    requires config.Valid()
    ensures r.Success? <==> response.Granted?
    ensures response.Refused? ==> r == Failure(Rejected(Classify(response.failure)))
    ensures r.Success? ==> r.value.token == response.accessToken
    ensures r.Success? ==> r.value.profile == Authorized(config, clientId, response.accessToken)
    // the profile written back makes the new token the one `request` uses
    ensures r.Success? ==> DefaultCandidate(r.value.profile) == Some(r.value.token)
  {
    match response
    case Refused(f) => Failure(Rejected(Classify(f)))
    case Granted(token) =>
      AuthorizedTokenIsSelected(config, clientId, token);
      Success(Authorization(Authorized(config, clientId, token), token))
  }

  /** Cli.php:140-197 with the intended profile check. The arguments are
      the client id, client secret, user name and password; the latter
      three go only to the token endpoint, whose answer is `response`. */
  function Authorize(args: seq<string>, load: LoadOutcome, response: TokenResponse): (r: Result<Authorization, Stop>)
    requires LoadValid(load)
    ensures |args| < 4 ==> r == Failure(AuthorizeUsage)
    ensures r.Success? <==> |args| >= 4 && load.Loaded? && response.Granted?
    ensures |args| >= 4 && load.Missing? ==> r == Failure(ConfigMissing)
    ensures |args| >= 4 && (load.Malformed? || load.DecodedFalse?) ==> r == Failure(ConfigInvalid)
    ensures |args| >= 4 && load.Loaded? && response.Refused? ==> r == Failure(Rejected(Classify(response.failure)))
    ensures r.Success? ==> r.value.token == response.accessToken
    ensures r.Success? ==> r.value.profile == Authorized(load.store, args[0], response.accessToken)
  {
    if |args| < 4 then Failure(AuthorizeUsage)
    else
      var config :- ProfileToAuthorize(load);
      AuthorizeWith(args[0], config, response)
  }

  /** Cli.php:140-197 as written. */
  function AuthorizeAsWritten(args: seq<string>, load: LoadOutcome, response: TokenResponse): (r: Result<Authorization, Stop>)
    requires LoadValid(load)
    ensures !load.Malformed? ==> r == Authorize(args, load, response)
    // text that is not JSON is taken for an empty profile
    ensures load.Malformed? && |args| >= 4 ==> r == AuthorizeWith(args[0], Store([], map[]), response)
  {
    if |args| < 4 then Failure(AuthorizeUsage)
    else
      var config :- ProfileToAuthorizeAsWritten(load);
      AuthorizeWith(args[0], config, response)
  }

  /** As written, a profile that is not JSON is not reported: authorize
      goes on and writes back a profile holding only the new client, so the
      connection settings in the old file are lost. As intended it stops
      with the invalid-JSON message. */
  lemma MalformedProfileOverwritten(args: seq<string>, token: string)
    requires |args| >= 4
    ensures AuthorizeAsWritten(args, Malformed, Granted(token)) ==
            Success(Authorization(Store([args[0]], map[args[0] := Record(Some([token]), Some(token), map[])]), token))
    ensures Authorize(args, Malformed, Granted(token)) == Failure(ConfigInvalid)
  {
    var r := Authorized(Store([], map[]), args[0], token);
    assert r.recs.Keys == {args[0]};
    assert r.recs == map[args[0] := Record(Some([token]), Some(token), map[])];
    assert r.keys == [args[0]];
    assert ProfileToAuthorizeAsWritten(Malformed) == Success(Store([], map[]));
    assert AuthorizeWith(args[0], Store([], map[]), Granted(token)) == Success(Authorization(r, token));
  }

  /** A token stored by `authorize` is the one the next `request` signs
      with, provided PHP treats it as true. */
  lemma AuthorizeThenRequest(args: seq<string>, load: LoadOutcome, token: string, apiMethod: string)
    requires LoadValid(load) && |args| >= 4 && load.Loaded? && Truthy(token)
    ensures var a := Authorize(args, load, Granted(token));
            && a.Success?
            && PlanRequest(Loaded(a.value.profile), [apiMethod], {}) == Success(RequestCall(token, apiMethod, NoParameters))
  {
    var s := Authorized(load.store, args[0], token);
    assert Authorize(args, load, Granted(token)) == Success(Authorization(s, token));
    AuthorizedTokenIsSelected(load.store, args[0], token);
    SelectedTokenSigns(s, token, apiMethod);
  }

  /** A profile whose candidate is a truthy token signs a call without
      parameters with that token. */
  lemma SelectedTokenSigns(s: Store, token: string, apiMethod: string)
    requires s.Valid() && DefaultCandidate(s) == Some(token) && Truthy(token)
    ensures PlanRequest(Loaded(s), [apiMethod], {}) == Success(RequestCall(token, apiMethod, NoParameters))
  {
    assert ParameterSource([apiMethod]) == NoParameters;
  }

  /** The typo discards a stored default: the intended loop finds it, the
      loop as written does not. */
  lemma TypoLosesStoredDefault(s: Store, i: int, apiMethod: string)
    requires s.Valid() && HasDefault(s, i) && Truthy(s.recs[s.keys[i]].default.value)
    requires forall j :: 0 <= j < i ==> !HasDefault(s, j)
    ensures PlanRequest(Loaded(s), [apiMethod], {}).Success?
    ensures PlanRequestAsWritten(Loaded(s), [apiMethod], {}) == Failure(NoCredentials)
  {
    FirstDefaultWins(s, i);
  }
}
