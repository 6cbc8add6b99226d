/** The WSSE request signer: it keeps a username and a shared secret and,
    for each request, appends one `X-WSSE` UsernameToken header whose
    password digest is Base64(SHA-1(nonce ++ created ++ secret)), the
    PasswordDigest construction of section 3.1 of the OASIS Web Services
    Security UsernameToken Profile 1.0. Hashing and encoding are not
    modelled: they are given as functions, and the nonce and the creation
    time are inputs. */
module Wsse {
  import opened Wrappers
  import opened Php

  /** Raw (binary) SHA-1 and Base64 encoding. */
  datatype Primitives = Primitives(sha1Raw: string -> string, base64: string -> string)

  const NotConfigured: string := "username and secret must be set before making a request"

  datatype AuthException = AuthException(message: string)

  /** The headers and parameters handed back to the HTTP client. */
  datatype Signed = Signed(headers: seq<string>, parameters: map<string, string>)

  /** The four fields of a UsernameToken header. */
  datatype Token = Token(username: string, digest: string, nonce: string, created: string)

  /** The text from which the password digest is hashed: the raw nonce, then
      the creation time, then the secret. */
  function DigestInput(nonce: string, created: string, secret: string): string {
    nonce + created + secret
  }

  function Digest(p: Primitives, nonce: string, created: string, secret: string): string {
    p.base64(p.sha1Raw(DigestInput(nonce, created, secret)))
  }

  const Opening: string := "X-WSSE: UsernameToken Username=\""
  const DigestLabel: string := ", PasswordDigest=\""
  const NonceLabel: string := ", Nonce=\""
  const CreatedLabel: string := ", Created=\""
  const Quote: string := "\""

  /** The header line, as Wsse.php:32 lays it out; the values are put
      between the quotes without any escaping. */
  function HeaderLine(t: Token): string {
    Opening + t.username + Quote + DigestLabel + t.digest + Quote
    + NonceLabel + t.nonce + Quote + CreatedLabel + t.created + Quote
  }

  /** The token a request signed with these inputs carries. */
  function TokenFor(p: Primitives, username: string, secret: string, nonce: string, created: string): Token {
    Token(username, Digest(p, nonce, created, secret), p.base64(nonce), created)
  }

  /** Signing as Wsse.php:20-40 does it, for stored credentials `username`
      and `secret` (None when never set): the exception unless both are
      truthy, else the headers with one header line appended and the
      parameters as they were. */
  function Sign(username: Option<string>, secret: Option<string>, headers: seq<string>, parameters: map<string, string>,
                p: Primitives, nonce: string, created: string): (r: Result<Signed, AuthException>)
    ensures r.Failure? <==> !TruthyOpt(username) || !TruthyOpt(secret)
    ensures r.Failure? ==> r.error == AuthException(NotConfigured)
    ensures r.Success? ==> |r.value.headers| == |headers| + 1 && r.value.headers[..|headers|] == headers
    ensures r.Success? ==> r.value.parameters == parameters
    ensures r.Success? ==> r.value.headers[|headers|] == HeaderLine(TokenFor(p, username.value, secret.value, nonce, created))
  {
    if !TruthyOpt(username) || !TruthyOpt(secret) then Failure(AuthException(NotConfigured))
    else
      var line := HeaderLine(TokenFor(p, username.value, secret.value, nonce, created));
      Success(Signed(headers + [line], parameters))
  }

  /** The signer object of Wsse.php:9-41. */
  class WsseAuth {
    var username: Option<string>
    var secret: Option<string>

    /** A new signer has no credentials. */
    constructor()
      ensures username == None && secret == None
    {
      username := None;
      secret := None;
    }

    /** Wsse.php:14-18: the credentials are stored as given. */
    method Authenticate(username: string, secret: string)
      modifies this
      ensures this.username == Some(username) && this.secret == Some(secret)
    {
      this.username := Some(username);
      this.secret := Some(secret);
    }

    predicate Configured()
      reads this
    {
      TruthyOpt(username) && TruthyOpt(secret)
    }

    /** Wsse.php:20-40, with `md5(rand())` given as `nonce` and the
      `gmdate` time as `created`. The options argument is not used by the
      source and is left out. */
    method SetAuthHeadersAndParameters(headers: seq<string>, parameters: map<string, string>,
                                       p: Primitives, nonce: string, created: string)
      returns (r: Result<Signed, AuthException>)
      ensures r == Sign(username, secret, headers, parameters, p, nonce, created)
      ensures r.Failure? <==> !Configured()
    {
      if !TruthyOpt(username) || !TruthyOpt(secret) {
        return Failure(AuthException(NotConfigured));
      }
      var digest := p.base64(p.sha1Raw(nonce + created + secret.value));
      var b64nonce := p.base64(nonce);
      var line := Opening + username.value + Quote + DigestLabel + digest + Quote
                  + NonceLabel + b64nonce + Quote + CreatedLabel + created + Quote;
      var out := headers + [line];
      r := Success(Signed(out, parameters));
    }
  }

  /** The position of the first '"' in `s`, or `|s|` when there is none. */
  function QuoteAt(s: string): (k: nat)
    ensures k <= |s|
    ensures forall i :: 0 <= i < k ==> s[i] != '"'
    ensures k < |s| ==> s[k] == '"'
  {
    if s == [] || s[0] == '"' then 0 else 1 + QuoteAt(s[1..])
  }

  /** Reads `tag`, then a value up to the next '"', then that '"'; gives the
      value and what follows. */
  function ReadField(s: string, tag: string): Option<(string, string)> {
    if |tag| <= |s| && s[..|tag|] == tag then
      var r := s[|tag|..];
      var k := QuoteAt(r);
      if k < |r| then Some((r[..k], r[k + 1..])) else None
    else None
  }

  /** Reads the four fields back from a header line. */
  function ParseHeader(h: string): Option<Token> {
    match ReadField(h, Opening)
    case None => None
    case Some((u, r1)) =>
      match ReadField(r1, DigestLabel)
      case None => None
      case Some((d, r2)) =>
        match ReadField(r2, NonceLabel)
        case None => None
        case Some((n, r3)) =>
          match ReadField(r3, CreatedLabel)
          case None => None
          case Some((c, r4)) => if r4 == [] then Some(Token(u, d, n, c)) else None
  }

  lemma QuoteAtValue(v: string, rest: string)
    requires '"' !in v
    ensures QuoteAt(v + Quote + rest) == |v|
  {
    var s := v + Quote + rest;
    assert s[|v|] == '"';
    assert forall i :: 0 <= i < |v| ==> s[i] == v[i];
  }

  lemma {:induction false} ReadFieldBack(tag: string, v: string, rest: string)
    requires '"' !in v
    ensures ReadField(tag + v + Quote + rest, tag) == Some((v, rest))
  {
    var s := tag + v + Quote + rest;
    assert s[..|tag|] == tag;
    var r := s[|tag|..];
    assert r == v + Quote + rest;
    QuoteAtValue(v, rest);
    assert r[..|v|] == v;
    assert r[|v| + 1..] == rest;
  }

  predicate Unquoted(t: Token) {
    '"' !in t.username && '"' !in t.digest && '"' !in t.nonce && '"' !in t.created
  }

  /** The header line gives its four fields back when no field holds a '"';
      the source does not escape them, so a '"' in the username would make
      the line ambiguous. */
  lemma HeaderRoundTrip(t: Token)
    requires Unquoted(t)
    ensures ParseHeader(HeaderLine(t)) == Some(t)
  {
    var r4: string := [];
    var r3 := CreatedLabel + t.created + Quote + r4;
    var r2 := NonceLabel + t.nonce + Quote + r3;
    var r1 := DigestLabel + t.digest + Quote + r2;
    assert HeaderLine(t) == Opening + t.username + Quote + r1;
    ReadFieldBack(Opening, t.username, r1);
    ReadFieldBack(DigestLabel, t.digest, r2);
    ReadFieldBack(NonceLabel, t.nonce, r3);
    ReadFieldBack(CreatedLabel, t.created, r4);
  }

  /** Base64 output never holds a '"'. */
  ghost predicate Base64Alphabet(p: Primitives) {
    forall s :: '"' !in p.base64(s)
  }

  /** A configured signer's header reads back as the username, the digest of
      the raw nonce, the creation time and the secret, the Base64 of the raw
      nonce, and the same creation time. */
  lemma SignedHeaderReadsBack(username: string, secret: string, headers: seq<string>, parameters: map<string, string>,
                              p: Primitives, nonce: string, created: string)
    requires Truthy(username) && Truthy(secret)
    requires Base64Alphabet(p) && '"' !in username && '"' !in created
    ensures var r := Sign(Some(username), Some(secret), headers, parameters, p, nonce, created);
            r.Success?
            && ParseHeader(r.value.headers[|headers|])
               == Some(Token(username, p.base64(p.sha1Raw(nonce + created + secret)), p.base64(nonce), created))
  {
    var t := TokenFor(p, username, secret, nonce, created);
    assert '"' !in t.digest && '"' !in t.nonce;
    HeaderRoundTrip(t);
  }

  /** With the nonce and the creation time of fixed widths (an md5 hex
      string is 32 characters, a `Y-m-d H:i:s T` time 23), the digest input
      determines the nonce, the creation time and the secret. */
  lemma DigestInputInjective(n1: string, c1: string, s1: string, n2: string, c2: string, s2: string)
    requires |n1| == |n2| && |c1| == |c2|
    requires DigestInput(n1, c1, s1) == DigestInput(n2, c2, s2)
    ensures n1 == n2 && c1 == c2 && s1 == s2
  {
    var x := DigestInput(n1, c1, s1);
    var a, b := |n1|, |n1| + |c1|;
    assert x[..a] == n1 && x[a..b] == c1 && x[b..] == s1;
    assert DigestInput(n2, c2, s2)[..a] == n2;
    assert DigestInput(n2, c2, s2)[a..b] == c2;
    assert DigestInput(n2, c2, s2)[b..] == s2;
  }

  /** Without fixed widths the concatenation is ambiguous. */
  lemma DigestInputAmbiguous()
    ensures DigestInput("ab", "c", "s") == DigestInput("a", "bc", "s")
  {
  }

  ghost predicate Injective(f: string -> string) {
    forall a, b :: f(a) == f(b) ==> a == b
  }

  /** If hashing and encoding never collide, changing the nonce, the creation
      time or the secret (at fixed widths) changes the digest. */
  lemma DigestDetermines(p: Primitives, n1: string, c1: string, s1: string, n2: string, c2: string, s2: string)
    requires Injective(p.sha1Raw) && Injective(p.base64)
    requires |n1| == |n2| && |c1| == |c2|
    requires Digest(p, n1, c1, s1) == Digest(p, n2, c2, s2)
    ensures n1 == n2 && c1 == c2 && s1 == s2
  {
    DigestInputInjective(n1, c1, s1, n2, c2, s2);
  }

  /** A fresh signer refuses to sign; after `authenticate` with truthy
      credentials it signs, and after `authenticate` with "0" as secret it
      refuses again. */
  method AuthenticateThenSign(p: Primitives, headers: seq<string>, parameters: map<string, string>)
    returns (before: Result<Signed, AuthException>, after: Result<Signed, AuthException>, zero: Result<Signed, AuthException>)
    ensures before == Failure(AuthException(NotConfigured))
    ensures after.Success? && after.value.parameters == parameters && |after.value.headers| == |headers| + 1
    ensures zero == Failure(AuthException(NotConfigured))
  {
    var w := new WsseAuth();
    before := w.SetAuthHeadersAndParameters(headers, parameters, p, "n", "c");
    w.Authenticate("user", "secret");
    after := w.SetAuthHeadersAndParameters(headers, parameters, p, "n", "c");
    w.Authenticate("user", "0");
    zero := w.SetAuthHeadersAndParameters(headers, parameters, p, "n", "c");
  }
}
