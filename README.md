# Adobe Digital Marketing command-line client: token store, commands, JSON printer and WSSE signer

This project models in Dafny the decision logic of the PHP command-line
client `adm` (class `AdobeDigitalMarketing_Cli`) and its WSSE request
signer (class `AdobeDigitalMarketing_Auth_Wsse`), and proves properties of
that model.

- **Profile** (`profile.dfy`): the persisted profile `config/profile.json`.
  - It is an ordered PHP array from a client id to a record with an
    optional `tokens` list, an optional `default` token and other
    settings.
  - The reserved key `default` holds the connection settings.
  - `authorize` adds a token and makes it the only default
    (`RecordToken`, proved equal to `Authorized`).
  - `request` picks the token to sign with (`FindDefaultToken`, proved
    equal to `DefaultCandidate`).
- **AuthFailure** (`auth_failure.dfy`): what `authorize` reports when the
  token endpoint refuses the password grant.
- **Cli** (`cli.dfy`):
  - argument normalisation and dispatch;
  - the choice between a parameter file and a query string, with
    `pathinfo`'s extension;
  - the `request` and `authorize` commands given the loaded profile and
    the endpoint's answer.
  - Every message-and-exit is a `Stop` value.
- **JsonFormat** (`json_format.dfy`): the `formatJson` pretty-printer.
  - The printer is a method with its loops (`FormatJson`, `WriteChar`,
    `AppendIndentation`).
  - It is proved equal to a character-by-character specification
    (`Pretty`). Its output pieces (`Layout`) show that only line breaks
    and spaces are inserted.
- **Wsse** (`wsse.dfy`): the signer object.
  - `authenticate` stores the credentials.
  - `setAuthHeadersAndParameters` either refuses, or appends exactly one
    `X-WSSE` UsernameToken header. The password digest is
    Base64(SHA-1(nonce ++ created ++ secret)), as in section 3.1 of the
    OASIS Web Services Security UsernameToken Profile 1.0.
- **Php** (`php.dfy`): PHP truthiness of strings.
- **Wrappers** (`wrappers.dfy`): `Option` and `Result`.

Points where the code's behaviour is easy to misread:

- Without any `default`, `request` falls back to the last token of the
  *last* entry that has a `tokens` list, because every such entry
  overwrites the candidate. An empty list there gives null (`array_pop`
  of an empty array).
- `authorize` appends to a client's record only when that record has a
  `tokens` list. Any other record under the client id is replaced by
  `{tokens: [token]}`. So authorizing with the client id `default`
  drops the connection settings.
- When a refused token request carries both `errorMessage` and
  `error.message`, the latter wins, even when it is empty
  (Cli.php:165-170).
- A profile that is not JSON is not rejected by the code as written (see
  Findings). The model's `Authorize` uses the intended check.
- `getDefaultConfigFile` (Cli.php:200-208) is never called by any
  command; `DefaultProfile` models it and serves only as the starting
  profile of `TwoClientsAuthorize`.

## Model

| member | source | states |
|---|---|---|
| Profile.DefaultProfile | lib/AdobeDigitalMarketing/Cli.php:200-208 | the default profile is valid, has only the `default` key, holds the endpoint `api.omniture.com`, and has no token and no default |
| Profile.WithToken | lib/AdobeDigitalMarketing/Cli.php:179-185 | a client with a tokens list gets the token appended unless already present; any other client gets exactly `{tokens: [token]}`; a new client id goes last in key order; all other records are unchanged; the profile stays valid |
| Profile.WithoutDefaults | lib/AdobeDigitalMarketing/Cli.php:188-190 | the same keys, each record with its `default` removed and nothing else changed |
| Profile.ClearDefaults | lib/AdobeDigitalMarketing/Cli.php:188-190 | the `foreach` over the keys that unsets every `default` yields exactly `WithoutDefaults` |
| Profile.Authorized | lib/AdobeDigitalMarketing/Cli.php:177-193 | after `authorize` exactly one record has a default, the client's, equal to the new token; other records lose only their default; the client's tokens are appended-or-kept, or exactly `[token]` with no other settings; key order is kept, a new client goes last |
| Profile.RecordToken | lib/AdobeDigitalMarketing/Cli.php:177-193 | the in-place update (append, clear loop, set default) gives exactly `Authorized` |
| Profile.AuthorizedKeepsTokensUnique | lib/AdobeDigitalMarketing/Cli.php:179-182 | if no tokens list holds a token twice before `authorize`, none does after |
| Profile.ReauthorizeAppendsOrKeeps | lib/AdobeDigitalMarketing/Cli.php:179-182 | authorizing again with a held token leaves the list unchanged; a new token is appended after the others |
| Profile.FirstDefault | lib/AdobeDigitalMarketing/Cli.php:76-80 | the position found has a default and no earlier entry has one; none is found only when no entry has one |
| Profile.LastWithTokens | lib/AdobeDigitalMarketing/Cli.php:81-84 | the position found has a tokens list and no later entry has one; none is found only when no entry has one |
| Profile.DefaultCandidate | lib/AdobeDigitalMarketing/Cli.php:72-86 | the token `request` signs with is one some client holds, as its default or in its tokens list; a profile in which any entry has a default always yields a token |
| Profile.FallbackIsHeld | lib/AdobeDigitalMarketing/Cli.php:81-84 | the fallback token, when there is one, is in the tokens list of some client |
| Profile.LastToken | lib/AdobeDigitalMarketing/Cli.php:83 | `array_pop` gives the last token, or null exactly for an empty list |
| Profile.FindDefaultToken | lib/AdobeDigitalMarketing/Cli.php:72-86 | the loop with its early break returns `DefaultCandidate`: the first entry's default, or else the last token of the last entry with a tokens list; the profile is a value and is left as it was |
| Profile.FirstDefaultWins | lib/AdobeDigitalMarketing/Cli.php:77-80 | the first entry with a default decides the token, whatever follows |
| Profile.FallbackIsLastListed | lib/AdobeDigitalMarketing/Cli.php:81-84 | without defaults, the token is the last one of the last entry that has a tokens list |
| Profile.NothingStoredNoCandidate | lib/AdobeDigitalMarketing/Cli.php:72-86 | without defaults and tokens lists there is no token |
| Profile.AuthorizedTokenIsSelected | lib/AdobeDigitalMarketing/Cli.php:188-193 | after `authorize`, the default selection picks the token just obtained, from any valid profile |
| Profile.TwoClientsAuthorize | lib/AdobeDigitalMarketing/Cli.php:177-193 | on the default profile, clients A then B authorize: keys `default, A, B`, A keeps `[t1]` without default, B has `[t2]` with default `t2`, and `t2` is selected |
| Profile.DefaultCandidateAsWritten | lib/AdobeDigitalMarketing/Cli.php:75-86 | as written the loop walks the unassigned `$conf`, so the candidate is always null |
| AuthFailure.Examine | lib/AdobeDigitalMarketing/Cli.php:161-163 | the decoded body is examined exactly when it decoded to a value that is not loosely false; otherwise the transport's last-response array is; either way the raw body is kept for the generic error |
| AuthFailure.ExtractedError | lib/AdobeDigitalMarketing/Cli.php:165-170 | a set `error.message` is the error; otherwise a truthy `errorMessage`; otherwise none |
| AuthFailure.Classify | lib/AdobeDigitalMarketing/Cli.php:172-175 | invalid client credentials exactly when the extracted error is `invalid_client`; otherwise a generic failure showing the examined response |
| AuthFailure.NestedMessageWins | lib/AdobeDigitalMarketing/Cli.php:165-170 | when both are set, `error.message` wins over `errorMessage`, even when empty |
| AuthFailure.ExampleBodies | lib/AdobeDigitalMarketing/Cli.php:161-175 | `{"error":{"message":"invalid_client"}}` means invalid client credentials; `{"errorMessage":"rate limited"}` is a generic failure carrying that message |
| AuthFailure.OuterInvalidClient | lib/AdobeDigitalMarketing/Cli.php:165-174 | an `errorMessage` of `invalid_client` counts exactly when `error.message` is unset or also `invalid_client` |
| Cli.ParseOptions | lib/AdobeDigitalMarketing/Cli.php:38-50 | usage for no arguments or --help, the version text for --version; otherwise the list starts with a supported command, is the input when the input starts with one, and otherwise is exactly `request` followed by the input, so any other first word reaches `request` as its API method |
| Cli.ParseOptionsIdempotent | lib/AdobeDigitalMarketing/Cli.php:46-48 | normalising a normalised list changes nothing |
| Cli.Dispatch | lib/AdobeDigitalMarketing/Cli.php:55-67 | `request` and `profile` run the request handler, `authorize` the authorize handler, each on the remaining words; anything else runs nothing |
| Cli.Route | lib/AdobeDigitalMarketing/Cli.php:27-32 | no arguments or --help stop with the usage and --version with the version text; otherwise a handler always runs, given the words after the command |
| Cli.RouteAlwaysHandles | lib/AdobeDigitalMarketing/Cli.php:27-67 | after normalisation a handler always runs, and a leading `profile` reaches the request handler as its API method, never the `profile` case |
| Cli.LastIndexOf | lib/AdobeDigitalMarketing/Cli.php:110 | the position found holds the character and none follows it; none is found only when the character is absent |
| Cli.BaseName | lib/AdobeDigitalMarketing/Cli.php:110 | the last path component is a suffix of the path without '/' |
| Cli.BaseNameIsLongest | lib/AdobeDigitalMarketing/Cli.php:110 | that suffix is the whole path or follows a '/', so no longer '/'-free suffix exists |
| Cli.Extension | lib/AdobeDigitalMarketing/Cli.php:110 | the extension is a suffix of the path without '.' or '/' |
| Cli.ExtensionOfJoined | lib/AdobeDigitalMarketing/Cli.php:110 | the extension of `stem.ext` is `ext` whenever `ext` has no '.' or '/' |
| Cli.NoDotNoExtension | lib/AdobeDigitalMarketing/Cli.php:110 | a last path component without '.' has the empty extension |
| Cli.FormatOf | lib/AdobeDigitalMarketing/Cli.php:110-123 | `ini`, `xml` and `json` pick their parsers exactly; every other extension is a query string |
| Cli.ParameterSource | lib/AdobeDigitalMarketing/Cli.php:101-127 | no parameters exactly when there is no second argument; a file exactly when it starts with `file://`, whose path is the rest after the 7 characters and whose format follows its extension; otherwise the argument is the query string |
| Cli.FileArgument | lib/AdobeDigitalMarketing/Cli.php:104-123 | `file://stem.ext` names the file `stem.ext` with the parser for `ext` |
| Cli.PlanRequestWith | lib/AdobeDigitalMarketing/Cli.php:88-128 | a null or falsy token stops with the "use authorize" error; then a missing API method stops; a parameter file that does not exist stops with `File %s not found` for its path; otherwise the call carries the token, the method and the parameter source |
| Cli.PlanRequest | lib/AdobeDigitalMarketing/Cli.php:70-128 | a missing profile stops with its error, a profile that did not decode leaves no token (the "use authorize" error); a loaded profile's `DefaultCandidate` is used; a request is planned only with that candidate, and only when it is truthy |
| Cli.PlanRequestAsWritten | lib/AdobeDigitalMarketing/Cli.php:72-90 | as written a loaded profile counts for no more than one that did not decode, since the loop walks the unassigned `$conf` |
| Cli.SelectedTokenSigns | lib/AdobeDigitalMarketing/Cli.php:88-129 | a profile whose selected token is truthy makes a call with that token and no parameters |
| Cli.RequestAsWrittenNeverSigns | lib/AdobeDigitalMarketing/Cli.php:72-90 | as written, `request` always stops with the "use authorize" error, or the missing-profile error when there is no profile |
| Cli.TypoLosesStoredDefault | lib/AdobeDigitalMarketing/Cli.php:75-90 | a stored truthy default is used by the intended loop and ignored as written |
| Cli.ProfileToAuthorize | lib/AdobeDigitalMarketing/Cli.php:149-151 | only a decoded profile is used, unchanged; a missing profile gives the missing-profile error; text that is not JSON and the literal `false` give the invalid-JSON error |
| Cli.ProfileToAuthorizeAsWritten | lib/AdobeDigitalMarketing/Cli.php:149-151 | as written, text that is not JSON passes the check as an empty profile |
| Cli.AuthorizeWith | lib/AdobeDigitalMarketing/Cli.php:152-195 | success exactly when a token is granted; a refusal is classified; on success the profile written back is `Authorized` for the client and the token, and that token is the one the next `request` selects |
| Cli.Authorize | lib/AdobeDigitalMarketing/Cli.php:140-197 | fewer than four arguments give the usage; success exactly when there are at least four arguments, the profile decoded and a token was granted; a missing profile gives the missing-profile error and text that is not JSON or the literal `false` the invalid-JSON error; a refusal is classified; on success the written profile is `Authorized` for the client id and the token |
| Cli.AuthorizeAsWritten | lib/AdobeDigitalMarketing/Cli.php:140-197 | as written it agrees with the intended `Authorize` for every profile that is not malformed JSON; malformed JSON is authorized as if the profile were empty |
| Cli.MalformedProfileOverwritten | lib/AdobeDigitalMarketing/Cli.php:149-195 | as written, a profile that is not JSON is replaced by one holding only the new client; as intended it is the invalid-JSON error |
| Cli.AuthorizeThenRequest | lib/AdobeDigitalMarketing/Cli.php:177-193 | after a successful `authorize` with a truthy token, `request` on the written profile signs with that token |
| JsonFormat.Next | lib/AdobeDigitalMarketing/Cli.php:254-283 | an unescaped '"' toggles the in-string flag; outside strings the depth rises by one after '{' or '[' and falls by one at '}' or ']'; inside strings it is unchanged; the next '"' counts as escaped exactly after a backslash |
| JsonFormat.Indentation | lib/AdobeDigitalMarketing/Cli.php:278-280 | two inserted spaces per level, none below depth one |
| JsonFormat.Before | lib/AdobeDigitalMarketing/Cli.php:259-265 | something is inserted before a character exactly when it is a closing bracket outside strings: a line break, then two spaces per level of the depth the bracket leaves |
| JsonFormat.After | lib/AdobeDigitalMarketing/Cli.php:272-281 | something is inserted after a character exactly when it is ',' or an opening bracket outside strings: a line break, then two spaces per level of the depth the character leaves |
| JsonFormat.Emit | lib/AdobeDigitalMarketing/Cli.php:254-281 | every inserted piece is a line break or a space; inside a string the character is copied alone |
| JsonFormat.AppendIndentation | lib/AdobeDigitalMarketing/Cli.php:262-264 | the indentation loop appends `IndentText(depth)`: two spaces per level |
| JsonFormat.WriteChar | lib/AdobeDigitalMarketing/Cli.php:251-283 | one pass of the loop body appends `EmitText` for the character and moves `$pos` and `$outOfQuotes` as `Next` does |
| JsonFormat.FormatJson | lib/AdobeDigitalMarketing/Cli.php:238-287 | the character loop returns `Pretty(json)` |
| JsonFormat.PrettyIsRenderedLayout | lib/AdobeDigitalMarketing/Cli.php:238-287 | the printed text is the characters of the layout pieces |
| JsonFormat.SourceOfLayout | lib/AdobeDigitalMarketing/Cli.php:268 | deleting the inserted pieces gives back the input exactly |
| JsonFormat.SourceOfEmit | lib/AdobeDigitalMarketing/Cli.php:259-281 | deleting the layout written around a character leaves that character alone |
| JsonFormat.InsertsOnlyLayout | lib/AdobeDigitalMarketing/Cli.php:243-244 | every inserted character is a line break or a space |
| JsonFormat.OnlyLayoutInserted | lib/AdobeDigitalMarketing/Cli.php:238-287 | the printed text is the input with only line breaks and spaces inserted |
| JsonFormat.QuotedTextCopied | lib/AdobeDigitalMarketing/Cli.php:259-272 | inside a string, text without '"' is copied with nothing inserted, and the printer stays inside the string |
| JsonFormat.DepthOfPlainText | lib/AdobeDigitalMarketing/Cli.php:259-276 | in text without strings, the depth after each prefix is the openers minus the closers seen so far |
| JsonFormat.EscapedBackslashSplitsLiteral | lib/AdobeDigitalMarketing/Cli.php:254 | as written, after `["a\\",` the literal `"b,c"` is not copied verbatim: a line break and indentation are inserted inside it |
| JsonFormat.NextFixed | lib/AdobeDigitalMarketing/Cli.php:254 | the corrected step: depth and in-string flag as before; a backslash escapes the next character unless it is itself escaped |
| JsonFormat.LayoutFixedExtends | lib/AdobeDigitalMarketing/Cli.php:268 | the corrected printer only appends: the output for a text is a prefix of the output for any longer text |
| JsonFormat.LiteralsCopiedVerbatim | lib/AdobeDigitalMarketing/Cli.php:254-272 | for any text of well-formed tokens, the corrected printer copies every following well-escaped string literal verbatim |
| JsonFormat.FixedAgreesWithoutBackslash | lib/AdobeDigitalMarketing/Cli.php:254 | on text without backslashes the corrected printer gives the same output and state as written |
| Wsse.WsseAuth.constructor | lib/AdobeDigitalMarketing/Auth/Wsse.php:11-12 | a new signer has no username and no secret |
| Wsse.WsseAuth.Authenticate | lib/AdobeDigitalMarketing/Auth/Wsse.php:14-18 | the stored username and secret become exactly the given values |
| Wsse.Sign | lib/AdobeDigitalMarketing/Auth/Wsse.php:20-40 | fails, with the fixed message, exactly when the username or the secret is null, `""` or `"0"`; otherwise the headers are the input plus exactly one last header, the `X-WSSE` line for this token, and the parameters are unchanged |
| Wsse.WsseAuth.SetAuthHeadersAndParameters | lib/AdobeDigitalMarketing/Auth/Wsse.php:20-40 | the method on the stored credentials returns `Sign`, and fails exactly when the signer is not configured |
| Wsse.HeaderRoundTrip | lib/AdobeDigitalMarketing/Auth/Wsse.php:32-37 | a header line reads back as its four fields, in the order Username, PasswordDigest, Nonce, Created, when no field holds a '"' |
| Wsse.SignedHeaderReadsBack | lib/AdobeDigitalMarketing/Auth/Wsse.php:26-37 | a signed header reads back as the username, Base64(SHA-1(raw nonce ++ created ++ secret)), Base64 of the raw nonce, and the same created time |
| Wsse.DigestInputInjective | lib/AdobeDigitalMarketing/Auth/Wsse.php:26-29 | with the fixed widths of the md5 nonce and the `gmdate` time, the digest input determines nonce, created time and secret |
| Wsse.DigestDetermines | lib/AdobeDigitalMarketing/Auth/Wsse.php:29 | with collision-free hashing and encoding, equal digests at fixed widths mean equal nonce, created time and secret |
| Wsse.AuthenticateThenSign | lib/AdobeDigitalMarketing/Auth/Wsse.php:14-24 | a new signer refuses; after `authenticate` with truthy values it appends one header and keeps the parameters; after `authenticate` with the secret `"0"` it refuses again |

## Left out

- Reading and writing `config/profile.json` (`loadConfigFile`,
  `writeConfigFile`).
  - A load is an input outcome: missing, not JSON, the literal `false`,
    or a decoded profile.
  - A save is the returned profile.
  - The `json_encode` of the profile before `formatJson` is not modelled.
- HTTP and the client objects are not modelled:
  - `AdobeDigitalMarketing_Client`, `HttpClient_Curl`, the OAuth2 and
    HTTP Basic authenticators;
  - `getTokenFromUserCredentials`, `getSuiteApi()->post`,
    `getLastResponse`.
  - The token endpoint's answer is an input. The refused response comes
    with the error fields of its decoded body and of the transport's
    array, and with whether `json_decode` gave a loosely-false value.
- `outputAndExit`, `echo` and `print_r` are not modelled as output. Each
  exit is a `Stop` value, and the printed text of the usage, version and
  token messages is not modelled.
- `AdobeDigitalMarketing_OptionParser` is given as its result: the
  positional arguments and the --help and --version flags. The usage
  text it builds is not modelled.
- The parsers `parse_str`, `parse_ini_string`, `simplexml_load_string`
  and `json_decode` are not modelled. Only the choice among them is.
- The response printing of `request` (Cli.php:129-137) is an HTTP call
  and output; it is not modelled.
- `rand`, `md5`, `gmdate`, `sha1` and `base64_encode` are given as
  parameters: the nonce and creation time as strings, SHA-1 and Base64 as
  functions.
- The unused `$options` argument of `setAuthHeadersAndParameters` is left
  out.
- The array union `$clientConf + $config['default']` (Cli.php:93) is
  transport configuration and is not modelled.
- Concurrent runs that read and rewrite the same profile file are not
  modelled.
- PHP's loose comparisons (`==`, `in_array`) are modelled as string
  equality, and every stored value as a string. Numeric strings such as
  `"1e3" == "1000"` are not modelled.
- Under PHP 8, `count(null)` on a non-JSON profile throws; the model
  follows PHP 7, where it is 0.
- `pathinfo`'s handling of trailing '/' and of paths that end in '.' is
  not modelled; the extension is what follows the last '.' after the
  last '/'.
- The last pass of `formatJson`'s loop, with `$i == strlen($json)`,
  reads the empty string and writes nothing; the model's loop stops one
  pass earlier.
- Wsse.HeaderRoundTrip: holds only for fields without '"', because the
  header line does not escape its values; a '"' in the username makes the
  line ambiguous.

## Findings

| source | as written | input that shows it | evidently intended | confidence | as-written member | corrected member |
|---|---|---|---|---|---|---|
| lib/AdobeDigitalMarketing/Cli.php:76 | the default-token loop iterates `$conf`, which is never assigned, so it runs zero times and the token stays null | any profile, e.g. `{"c": {"tokens": ["t"], "default": "t"}}`, then `adm request some.method`: the "use authorize" error | iterate `$config`, the profile just loaded | high, not executed | Cli.RequestAsWrittenNeverSigns | Profile.FindDefaultToken |
| lib/AdobeDigitalMarketing/Cli.php:149 | `false === json_decode(...)` is never true for text that is not JSON, since `json_decode` gives null for it; the null profile then acts as an empty array and `authorize` overwrites the file | a `config/profile.json` holding `{` and `adm authorize c s u p` with a granted token: the file is rewritten with only client `c` | report "Invalid json" for text that does not decode to an array | medium, not executed (depends on the HTTP client accepting a null configuration) | Cli.MalformedProfileOverwritten | Cli.ProfileToAuthorize |
| lib/AdobeDigitalMarketing/Cli.php:254 | a '"' counts as escaped whenever the previous character is a backslash, even when that backslash was itself escaped | `["a\\","b,c"]`: the second literal's opening quote is taken as a closing one and a line break and two spaces are inserted after the comma inside `"b,c"` | a backslash escapes the next character only when it is not itself escaped | high, not executed | JsonFormat.EscapedBackslashSplitsLiteral | JsonFormat.LiteralsCopiedVerbatim |
