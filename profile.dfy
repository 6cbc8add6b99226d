/** The persisted profile of the command-line client: an ordered map from a
    top-level key (a client id, or the reserved key "default" that holds the
    connection settings) to a record. The `authorize` command adds a token to
    it and makes that token the single default; the `request` command picks
    the token to use from it. */
module Profile {
  import opened Wrappers
  import opened Php

  /** The reserved top-level key that holds connection settings, not tokens. */
  const ConnectionKey: string := "default"

  /** One top-level entry: the tokens issued to a client (in the order they
      were obtained), the client's `default` token, and any other settings
      (the connection entry keeps its `endpoint` here). */
  datatype Record = Record(tokens: Option<seq<string>>, default: Option<string>, settings: map<string, string>)

  /** A PHP array with string keys: its keys in insertion order and the
      record stored under each. */
  datatype Store = Store(keys: seq<string>, recs: map<string, Record>) {
    predicate Valid() {
      && (forall i, j :: 0 <= i < j < |keys| ==> keys[i] != keys[j])
      && (forall k :: k in recs ==> k in keys)
      && (forall k :: k in keys ==> k in recs)
    }
  }

  /** No token occurs twice in the tokens list of any record. */
  predicate NoDuplicateTokens(s: Store) {
    forall k, i, j :: k in s.recs && s.recs[k].tokens.Some? && 0 <= i < j < |s.recs[k].tokens.value| ==>
      s.recs[k].tokens.value[i] != s.recs[k].tokens.value[j]
  }

  /** The default profile of Cli.php:200-208: connection settings only,
      with the public API endpoint. No command of the client calls
      `getDefaultConfigFile`; here the profile serves as the starting point
      of `TwoClientsAuthorize`. */
  function DefaultProfile(): (s: Store)
    ensures s.Valid() && s.keys == [ConnectionKey]
    ensures s.recs[ConnectionKey].settings == map["endpoint" := "api.omniture.com"]
    ensures forall k :: k in s.recs ==> s.recs[k].tokens.None? && s.recs[k].default.None?
  {
    Store([ConnectionKey], map[ConnectionKey := Record(None, None, map["endpoint" := "api.omniture.com"])])
  }

  // ---------------------------------------------------------------------
  // authorize: record the new token and make it the only default

  /** The profile after the new token has been added to the client's record
      and before any default is touched. */
  function WithToken(s: Store, clientId: string, token: string): (r: Store)
    requires s.Valid()
    ensures r.Valid()
    ensures r.keys == if clientId in s.recs then s.keys else s.keys + [clientId]
    ensures clientId in r.recs && r.recs.Keys == s.recs.Keys + {clientId}
    ensures forall k :: k in s.recs && k != clientId ==> r.recs[k] == s.recs[k]
    ensures clientId in s.recs && s.recs[clientId].tokens.Some? ==>
      var ts := s.recs[clientId].tokens.value;
      r.recs[clientId] == s.recs[clientId].(tokens := Some(if token in ts then ts else ts + [token]))
    ensures !(clientId in s.recs && s.recs[clientId].tokens.Some?) ==>
      r.recs[clientId] == Record(Some([token]), None, map[])
  {
    if clientId in s.recs && s.recs[clientId].tokens.Some? then
      var ts := s.recs[clientId].tokens.value;
      if token in ts then s
      else Store(s.keys, s.recs[clientId := s.recs[clientId].(tokens := Some(ts + [token]))])
    else
      Store(if clientId in s.recs then s.keys else s.keys + [clientId],
            s.recs[clientId := Record(Some([token]), None, map[])])
  }

  /** Every record with its `default` removed, all else as it was. */
  function WithoutDefaults(recs: map<string, Record>): (r: map<string, Record>)
    ensures r.Keys == recs.Keys
    ensures forall k :: k in r ==> r[k] == recs[k].(default := None)
  {
    map k | k in recs :: recs[k].(default := None)
  }

  /** The profile after `authorize` obtained `token` for `clientId`: the
      token is in the client's list exactly once, every `default` is gone
      and the client's record alone has `default` set to the token. */
  function Authorized(s: Store, clientId: string, token: string): (r: Store)
    requires s.Valid()
    ensures r.Valid()
    ensures r.keys == if clientId in s.recs then s.keys else s.keys + [clientId]
    ensures forall k :: k in r.recs ==> (r.recs[k].default.Some? <==> k == clientId)
    ensures clientId in r.recs && r.recs[clientId].default == Some(token)
    ensures forall k :: k in s.recs && k != clientId ==> r.recs[k] == s.recs[k].(default := None)
    // a client that already has a tokens list keeps it, with the token appended when absent
    ensures clientId in s.recs && s.recs[clientId].tokens.Some? ==>
      var ts := s.recs[clientId].tokens.value;
      r.recs[clientId] == Record(Some(if token in ts then ts else ts + [token]), Some(token), s.recs[clientId].settings)
    // any other client record is replaced by one holding just this token
    ensures !(clientId in s.recs && s.recs[clientId].tokens.Some?) ==>
      r.recs[clientId] == Record(Some([token]), Some(token), map[])
  {
    var w := WithToken(s, clientId, token);
    var cleared := WithoutDefaults(w.recs);
    Store(w.keys, cleared[clientId := cleared[clientId].(default := Some(token))])
  }

  /** The loop of Cli.php:188-190: unset `default` on every top-level entry. */
  method ClearDefaults(keys: seq<string>, recs: map<string, Record>) returns (r: map<string, Record>)
    requires Store(keys, recs).Valid()
    ensures r == WithoutDefaults(recs)
  {
    r := recs;
    for i := 0 to |keys|
      invariant r.Keys == recs.Keys
      invariant forall j :: 0 <= j < i ==> r[keys[j]] == recs[keys[j]].(default := None)
      invariant forall j :: i <= j < |keys| ==> r[keys[j]] == recs[keys[j]]
    {
      var id := keys[i];
      r := r[id := r[id].(default := None)];
    }
    forall k | k in r
      ensures r[k] == WithoutDefaults(recs)[k]
    {
      var j :| 0 <= j < |keys| && keys[j] == k;
    }
  }

  /** Cli.php:177-193: add the token to the client's record (a hash lookup
      and an in-place append), clear every default, then make the token the
      default of this client. */
  method RecordToken(config: Store, clientId: string, token: string) returns (r: Store)
    requires config.Valid()
    ensures r == Authorized(config, clientId, token)
  {
    var keys, recs := config.keys, config.recs;
    if clientId in recs && recs[clientId].tokens.Some? {
      if token !in recs[clientId].tokens.value {
        recs := recs[clientId := recs[clientId].(tokens := Some(recs[clientId].tokens.value + [token]))];
      }
    } else {
      if clientId !in recs {
        keys := keys + [clientId];
      }
      recs := recs[clientId := Record(Some([token]), None, map[])];
    }
    assert Store(keys, recs) == WithToken(config, clientId, token);
    recs := ClearDefaults(keys, recs);
    recs := recs[clientId := recs[clientId].(default := Some(token))];
    r := Store(keys, recs);
  }

  /** Authorizing never puts a token twice into a client's list. */
  lemma AuthorizedKeepsTokensUnique(s: Store, clientId: string, token: string)
    requires s.Valid() && NoDuplicateTokens(s)
    ensures NoDuplicateTokens(Authorized(s, clientId, token))
  {
    var r := Authorized(s, clientId, token);
    forall k, i, j | k in r.recs && r.recs[k].tokens.Some? && 0 <= i < j < |r.recs[k].tokens.value|
      ensures r.recs[k].tokens.value[i] != r.recs[k].tokens.value[j]
    {
      if k == clientId && clientId in s.recs && s.recs[clientId].tokens.Some? {
        var ts := s.recs[clientId].tokens.value;
        if token !in ts && j == |ts| {
          assert r.recs[k].tokens.value[i] == ts[i];
        }
      }
    }
  }

  // ---------------------------------------------------------------------
  // request: which stored token is used

  predicate HasDefault(s: Store, i: int)
    requires s.Valid()
  {
    0 <= i < |s.keys| && s.recs[s.keys[i]].default.Some?
  }

  predicate HasTokens(s: Store, i: int)
    requires s.Valid()
  {
    0 <= i < |s.keys| && s.recs[s.keys[i]].tokens.Some?
  }

  /** The position of the first of the first `n` entries that has a default. */
  function FirstDefault(s: Store, n: nat): (d: Option<nat>)
    requires s.Valid() && n <= |s.keys|
    ensures d.Some? ==> d.value < n && HasDefault(s, d.value) && forall j :: 0 <= j < d.value ==> !HasDefault(s, j)
    ensures d.None? ==> forall j :: 0 <= j < n ==> !HasDefault(s, j)
  {
    if n == 0 then None
    else
      match FirstDefault(s, n - 1)
      case Some(i) => Some(i)
      case None => if HasDefault(s, n - 1) then Some(n - 1) else None
  }

  /** The position of the last of the first `n` entries that has a tokens list. */
  function LastWithTokens(s: Store, n: nat): (d: Option<nat>)
    requires s.Valid() && n <= |s.keys|
    ensures d.Some? ==> d.value < n && HasTokens(s, d.value) && forall j :: d.value < j < n ==> !HasTokens(s, j)
    ensures d.None? ==> forall j :: 0 <= j < n ==> !HasTokens(s, j)
  {
    if n == 0 then None
    else if HasTokens(s, n - 1) then Some(n - 1)
    else LastWithTokens(s, n - 1)
  }

  /** What `array_pop` gives for a tokens list: its last token, or null when
      the list is empty. */
  function LastToken(ts: seq<string>): (t: Option<string>)
    ensures t.Some? <==> ts != []
    ensures t.Some? ==> t.value == ts[|ts| - 1]
  {
    if ts == [] then None else Some(ts[|ts| - 1])
  }

  /** The token the first `n` entries leave as the fallback candidate. */
  function Fallback(s: Store, n: nat): Option<string>
    requires s.Valid() && n <= |s.keys|
  {
    match LastWithTokens(s, n)
    case Some(i) => LastToken(s.recs[s.keys[i]].tokens.value)
    case None => None
  }

  /** The token `request` signs with (null when there is none): the default
      of the first entry that has one, otherwise the last token of the last
      entry that has a tokens list. */
  function DefaultCandidate(s: Store): (t: Option<string>)
    requires s.Valid()
    // the candidate is a token some client holds
    ensures t.Some? ==> exists i :: 0 <= i < |s.keys| && HoldsToken(s.recs[s.keys[i]], t.value)
    // a profile with a default always yields a candidate
    ensures t.None? ==> forall i :: 0 <= i < |s.keys| ==> !HasDefault(s, i)
  {
    match FirstDefault(s, |s.keys|)
    case Some(i) =>
      assert HoldsToken(s.recs[s.keys[i]], s.recs[s.keys[i]].default.value);
      s.recs[s.keys[i]].default
    case None =>
      FallbackIsHeld(s, |s.keys|);
      Fallback(s, |s.keys|)
  }

  /** Whether a client's record holds `t`, as its default or in its tokens list. */
  predicate HoldsToken(r: Record, t: string) {
    r.default == Some(t) || (r.tokens.Some? && t in r.tokens.value)
  }

  lemma FallbackIsHeld(s: Store, n: nat)
    requires s.Valid() && n <= |s.keys|
    ensures Fallback(s, n).Some? ==> exists i :: 0 <= i < |s.keys| && HoldsToken(s.recs[s.keys[i]], Fallback(s, n).value)
  {
    match LastWithTokens(s, n)
    case Some(i) =>
      var ts := s.recs[s.keys[i]].tokens.value;
      if ts != [] {
        assert HoldsToken(s.recs[s.keys[i]], ts[|ts| - 1]);
      }
    case None =>
  }

  /** The intended loop of Cli.php:72-86, walking the loaded profile: a
      default stops the walk; otherwise each entry with a tokens list
      replaces the candidate with the list's last token (popped from a copy,
      so the profile itself is left as it was). */
  method FindDefaultToken(config: Store) returns (token: Option<string>)
    requires config.Valid()
    ensures token == DefaultCandidate(config)
  {
    token := None;
    var i := 0;
    while i < |config.keys|
      invariant 0 <= i <= |config.keys|
      invariant FirstDefault(config, i).None?
      invariant token == Fallback(config, i)
    {
      var clientConf := config.recs[config.keys[i]];
      if clientConf.default.Some? {
        token := clientConf.default;
        FirstDefaultWins(config, i);
        return;
      }
      if clientConf.tokens.Some? {
        token := LastToken(clientConf.tokens.value);
      }
      i := i + 1;
    }
  }

  /** Cli.php:72-86 as written: the loop walks `$conf`, a variable that is
      never assigned, so it walks nothing and the candidate stays null. */
  function DefaultCandidateAsWritten(config: Store): (token: Option<string>)
    ensures token.None?
  {
    DefaultCandidate(Store([], map[]))
  }

  /** The first entry with a default decides, whatever follows it. */
  lemma FirstDefaultWins(s: Store, i: int)
    requires s.Valid() && HasDefault(s, i)
    requires forall j :: 0 <= j < i ==> !HasDefault(s, j)
    ensures DefaultCandidate(s) == s.recs[s.keys[i]].default
  {
  }

  /** Without any default, the last token of the last entry that has a
      tokens list is used (null when that list is empty). */
  lemma FallbackIsLastListed(s: Store, i: int)
    requires s.Valid() && HasTokens(s, i)
    requires forall j :: 0 <= j < |s.keys| ==> !HasDefault(s, j)
    requires forall j :: i < j < |s.keys| ==> !HasTokens(s, j)
    ensures DefaultCandidate(s) == LastToken(s.recs[s.keys[i]].tokens.value)
  {
  }

  /** A profile without defaults and without tokens lists yields no token. */
  lemma NothingStoredNoCandidate(s: Store)
    requires s.Valid()
    requires forall j :: 0 <= j < |s.keys| ==> !HasDefault(s, j) && !HasTokens(s, j)
    ensures DefaultCandidate(s).None?
  {
  }

  /** After `authorize`, the next `request` picks the token just obtained. */
  lemma {:induction false} AuthorizedTokenIsSelected(s: Store, clientId: string, token: string)
    requires s.Valid()
    ensures DefaultCandidate(Authorized(s, clientId, token)) == Some(token)
  {
    var r := Authorized(s, clientId, token);
    var i :| 0 <= i < |r.keys| && r.keys[i] == clientId;
    forall j | 0 <= j < i
      ensures !HasDefault(r, j)
    {
      assert r.keys[j] != clientId;
    }
    FirstDefaultWins(r, i);
  }

  /** Two clients authorize one after the other on the shipped profile: the
      second client's token is the only default and the one selected, and
      the first client keeps its token without a default. */
  lemma TwoClientsAuthorize()
    ensures var s1 := Authorized(DefaultProfile(), "A", "t1");
            var s2 := Authorized(s1, "B", "t2");
            && s2.keys == [ConnectionKey, "A", "B"]
            && s2.recs["A"] == Record(Some(["t1"]), None, map[])
            && s2.recs["B"] == Record(Some(["t2"]), Some("t2"), map[])
            && s2.recs[ConnectionKey] == DefaultProfile().recs[ConnectionKey]
            && DefaultCandidate(s2) == Some("t2")
  {
    var s1 := Authorized(DefaultProfile(), "A", "t1");
    FirstClientAuthorizes();
    SecondClientAuthorizes(s1);
    AuthorizedTokenIsSelected(s1, "B", "t2");
  }

  lemma FirstClientAuthorizes()
    ensures var s1 := Authorized(DefaultProfile(), "A", "t1");
            && s1.keys == [ConnectionKey, "A"]
            && s1.recs["A"] == Record(Some(["t1"]), Some("t1"), map[])
            && s1.recs[ConnectionKey] == DefaultProfile().recs[ConnectionKey]
  {
    var s0 := DefaultProfile();
    assert ConnectionKey != "A" by { assert ConnectionKey[0] != "A"[0]; }
    assert "A" !in s0.recs;
    assert s0.keys + ["A"] == [ConnectionKey, "A"];
  }

  lemma SecondClientAuthorizes(s1: Store)
    requires s1.Valid() && s1.keys == [ConnectionKey, "A"]
    requires s1.recs["A"] == Record(Some(["t1"]), Some("t1"), map[])
    requires s1.recs[ConnectionKey] == DefaultProfile().recs[ConnectionKey]
    ensures var s2 := Authorized(s1, "B", "t2");
            && s2.keys == [ConnectionKey, "A", "B"]
            && s2.recs["A"] == Record(Some(["t1"]), None, map[])
            && s2.recs["B"] == Record(Some(["t2"]), Some("t2"), map[])
            && s2.recs[ConnectionKey] == DefaultProfile().recs[ConnectionKey]
  {
    assert ConnectionKey != "B" && "A" != "B" by { assert ConnectionKey[0] != "B"[0]; }
    assert "B" !in s1.recs;
    assert s1.keys + ["B"] == [ConnectionKey, "A", "B"];
  }

  /** Re-authorizing a client with a token it already holds leaves its list
      as it was; a new token is appended after the existing ones. */
  lemma ReauthorizeAppendsOrKeeps(s: Store, clientId: string, t1: string, t2: string)
    requires s.Valid()
    ensures var s1 := Authorized(s, clientId, t1);
            var ts := s1.recs[clientId].tokens.value;
            && Authorized(s1, clientId, t1).recs[clientId].tokens == Some(ts)
            && (t2 !in ts ==> Authorized(s1, clientId, t2).recs[clientId].tokens == Some(ts + [t2]))
  {
  }
}
