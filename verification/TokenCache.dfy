/**
 The token cache: one map whose string key joins an address and a home domain with a NUL character.

 For addresses without a NUL it behaves over every sequence of operations like a map keyed by the pair.
 */
module TokenCache {
  import opened Wrappers

  const JWT_EXPIRY_SKEW_SECONDS: int := 30

  const SEPARATOR: char := '\0'

  datatype StoredToken = StoredToken(token: string, expiresAt: int)

  type Flat = map<string, StoredToken>

  function TokenKey(address: string, homeDomain: string): string {
    address + [SEPARATOR] + homeDomain
  }

  predicate NulFree(s: string) {
    forall i :: 0 <= i < |s| ==> s[i] != SEPARATOR
  }

  predicate StartsWith(s: string, prefix: string) {
    prefix <= s
  }

  predicate IsFresh(e: StoredToken, nowSeconds: int) {
    e.expiresAt - JWT_EXPIRY_SKEW_SECONDS > nowSeconds
  }

  /** The entries whose key does not begin with the address and its separator. */
  function WithoutAccount(tokens: Flat, address: string): Flat {
    map key | key in tokens && !StartsWith(key, address + [SEPARATOR]) :: tokens[key]
  }

  datatype Op =
    | Store(address: string, domain: string, entry: StoredToken)
    | Get(address: string, domain: string, nowSeconds: int)
    | ClearAll
    | ClearAccount(address: string)
    | ClearPair(address: string, domain: string)

  /** Which entries a call of clearToken names: without an address the domain is not looked at. */
  function Clearing(address: Option<string>, homeDomain: Option<string>): Op {
    if address.None? then ClearAll
    else if homeDomain.Some? then ClearPair(address.value, homeDomain.value)
    else ClearAccount(address.value)
  }

  /** What an operation leaves and answers, as the methods of TokenStore do. */
  function FlatStep(tokens: Flat, op: Op): (Flat, Option<string>) {
    match op
    case Store(a, d, e) => (tokens[TokenKey(a, d) := e], None)
    case Get(a, d, now) =>
      var key := TokenKey(a, d);
      if key in tokens && IsFresh(tokens[key], now) then (tokens, Some(tokens[key].token)) else (tokens - {key}, None)
    case ClearAll => (map[], None)
    case ClearAccount(a) => (WithoutAccount(tokens, a), None)
    case ClearPair(a, d) => (tokens - {TokenKey(a, d)}, None)
  }

  class TokenStore {
    var tokens: Flat

    constructor ()
      ensures tokens == map[]
    {
      tokens := map[];
    }

    /** The expiry is what the token's own claims say; a token without a usable one is not stored. */
    method StoreToken(address: string, homeDomain: string, token: string, expiry: Result<int, string>)
      returns (r: Result<StoredToken, string>)
      modifies this
      ensures expiry.Ok? ==>
        && r == Ok(StoredToken(token, expiry.value))
        && tokens == FlatStep(old(tokens), Store(address, homeDomain, r.value)).0
      ensures expiry.Err? ==> r == Err(expiry.error) && tokens == old(tokens)
    {
      if expiry.Err? {
        return Err(expiry.error);
      }
      var entry := StoredToken(token, expiry.value);
      tokens := tokens[TokenKey(address, homeDomain) := entry];
      return Ok(entry);
    }

    /** A token that is about to expire is not handed out, and is forgotten. */
    method GetCachedToken(address: string, homeDomain: string, nowSeconds: int) returns (r: Option<string>)
      modifies this
      ensures (tokens, r) == FlatStep(old(tokens), Get(address, homeDomain, nowSeconds))
    {
      var key := TokenKey(address, homeDomain);
      if key !in tokens {
        assert tokens - {key} == tokens;
        return None;
      }
      var entry := tokens[key];
      if entry.expiresAt - JWT_EXPIRY_SKEW_SECONDS <= nowSeconds {
        tokens := tokens - {key};
        return None;
      }
      return Some(entry.token);
    }

    /** Forgets everything, one account, or one pair. */
    method ClearToken(address: Option<string>, homeDomain: Option<string>)
      modifies this
      ensures tokens == FlatStep(old(tokens), Clearing(address, homeDomain)).0
    {
      if address.None? {
        tokens := map[];
        return;
      }
      if homeDomain.Some? {
        tokens := tokens - {TokenKey(address.value, homeDomain.value)};
        return;
      }
      var accountPrefix := address.value + [SEPARATOR];
      var pending := tokens.Keys;
      while pending != {}
        invariant pending <= tokens.Keys <= old(tokens).Keys
        invariant forall key :: key in tokens ==> tokens[key] == old(tokens)[key]
        invariant forall key :: key in old(tokens) && key !in pending ==>
          (key in tokens <==> !StartsWith(key, accountPrefix))
        decreases pending
      {
        var key :| key in pending;
        if StartsWith(key, accountPrefix) {
          tokens := tokens - {key};
        }
        pending := pending - {key};
      }
    }
  }

  // ----- The map it stands for -----

  type Paired = map<(string, string), StoredToken>

  /** Every stored address is free of the separator. */
  predicate Sound(m: Paired) {
    forall k :: k in m ==> NulFree(k.0)
  }

  /** The flat map holds exactly the pairs, under their joined keys. */
  ghost predicate Refines(tokens: Flat, m: Paired) {
    && Sound(m)
    && (forall k :: k in m ==> TokenKey(k.0, k.1) in tokens && tokens[TokenKey(k.0, k.1)] == m[k])
    && (forall key :: key in tokens ==> exists k :: k in m && TokenKey(k.0, k.1) == key)
  }

  /** A key begins with an account's prefix exactly when it is that account's. */
  lemma PrefixIsAccount(a: string, a': string, d': string)
    requires NulFree(a) && NulFree(a')
    ensures StartsWith(TokenKey(a', d'), a + [SEPARATOR]) <==> a == a'
  {
    var key, prefix := TokenKey(a', d'), a + [SEPARATOR];
    assert key[|a'|] == SEPARATOR && prefix[|a|] == SEPARATOR;
    if StartsWith(key, prefix) {
      assert key[|a|] == SEPARATOR;
      assert a == key[..|a|] == a';
    }
  }

  /** The joined key of NUL-free addresses takes apart in one way only. */
  lemma KeyIsInjective(a: string, d: string, a': string, d': string)
    requires NulFree(a) && NulFree(a') && TokenKey(a, d) == TokenKey(a', d')
    ensures a == a' && d == d'
  {
    PrefixIsAccount(a, a', d');
    var key := TokenKey(a, d);
    assert a == key[..|a|] && d == key[|a| + 1..];
    assert a' == key[..|a'|] && d' == key[|a'| + 1..];
  }

  lemma StoreRefines(tokens: Flat, m: Paired, a: string, d: string, e: StoredToken)
    requires Refines(tokens, m) && NulFree(a)
    ensures Refines(tokens[TokenKey(a, d) := e], m[(a, d) := e])
  {
    var tokens', m' := tokens[TokenKey(a, d) := e], m[(a, d) := e];
    forall k | k in m' ensures TokenKey(k.0, k.1) in tokens' && tokens'[TokenKey(k.0, k.1)] == m'[k] {
      if TokenKey(k.0, k.1) == TokenKey(a, d) {
        KeyIsInjective(k.0, k.1, a, d);
      }
    }
    forall key | key in tokens' ensures exists k :: k in m' && TokenKey(k.0, k.1) == key {
      if key == TokenKey(a, d) {
        assert (a, d) in m';
      } else {
        var k :| k in m && TokenKey(k.0, k.1) == key;
        assert k in m';
      }
    }
  }

  lemma RemoveRefines(tokens: Flat, m: Paired, a: string, d: string)
    requires Refines(tokens, m) && NulFree(a)
    ensures Refines(tokens - {TokenKey(a, d)}, m - {(a, d)})
  {
    var tokens', m' := tokens - {TokenKey(a, d)}, m - {(a, d)};
    forall k | k in m' ensures TokenKey(k.0, k.1) in tokens' && tokens'[TokenKey(k.0, k.1)] == m'[k] {
      if TokenKey(k.0, k.1) == TokenKey(a, d) {
        KeyIsInjective(k.0, k.1, a, d);
      }
    }
    forall key | key in tokens' ensures exists k :: k in m' && TokenKey(k.0, k.1) == key {
      var k :| k in m && TokenKey(k.0, k.1) == key;
      assert k in m';
    }
  }

  /** The pairs of every other account. */
  function OtherAccounts(m: Paired, a: string): Paired {
    map k | k in m && k.0 != a :: m[k]
  }

  /** Deleting by prefix removes exactly one account's entries. */
  lemma ClearAccountRefines(tokens: Flat, m: Paired, a: string)
    requires Refines(tokens, m) && NulFree(a)
    ensures Refines(WithoutAccount(tokens, a), OtherAccounts(m, a))
  {
    var tokens', m' := WithoutAccount(tokens, a), OtherAccounts(m, a);
    forall k | k in m' ensures TokenKey(k.0, k.1) in tokens' && tokens'[TokenKey(k.0, k.1)] == m'[k] {
      PrefixIsAccount(a, k.0, k.1);
    }
    forall key | key in tokens' ensures exists k :: k in m' && TokenKey(k.0, k.1) == key {
      var k :| k in m && TokenKey(k.0, k.1) == key;
      PrefixIsAccount(a, k.0, k.1);
      assert k in m';
    }
  }

  lemma LookupAgrees(tokens: Flat, m: Paired, a: string, d: string)
    requires Refines(tokens, m) && NulFree(a)
    ensures TokenKey(a, d) in tokens <==> (a, d) in m
    ensures (a, d) in m ==> tokens[TokenKey(a, d)] == m[(a, d)]
  {
    if TokenKey(a, d) in tokens {
      var k :| k in m && TokenKey(k.0, k.1) == TokenKey(a, d);
      KeyIsInjective(k.0, k.1, a, d);
      assert k == (a, d);
    }
  }

  // ----- Whole sessions -----

  predicate NulFreeOp(op: Op) {
    op.ClearAll? || NulFree(op.address)
  }

  /** The same on a map keyed by pairs. */
  function PairedStep(m: Paired, op: Op): (Paired, Option<string>) {
    match op
    case Store(a, d, e) => (m[(a, d) := e], None)
    case Get(a, d, now) =>
      if (a, d) in m && IsFresh(m[(a, d)], now) then (m, Some(m[(a, d)].token)) else (m - {(a, d)}, None)
    case ClearAll => (map[], None)
    case ClearAccount(a) => (OtherAccounts(m, a), None)
    case ClearPair(a, d) => (m - {(a, d)}, None)
  }

  function FlatAnswers(tokens: Flat, ops: seq<Op>): seq<Option<string>>
    decreases |ops|
  {
    if ops == [] then [] else
      var (tokens', answer) := FlatStep(tokens, ops[0]);
      [answer] + FlatAnswers(tokens', ops[1..])
  }

  function PairedAnswers(m: Paired, ops: seq<Op>): seq<Option<string>>
    decreases |ops|
  {
    if ops == [] then [] else
      var (m', answer) := PairedStep(m, ops[0]);
      [answer] + PairedAnswers(m', ops[1..])
  }

  lemma StepRefines(tokens: Flat, m: Paired, op: Op)
    requires Refines(tokens, m) && NulFreeOp(op)
    ensures FlatStep(tokens, op).1 == PairedStep(m, op).1
    ensures Refines(FlatStep(tokens, op).0, PairedStep(m, op).0)
  {
    match op
    case Store(a, d, e) => StoreRefines(tokens, m, a, d, e);
    case Get(a, d, _) =>
      LookupAgrees(tokens, m, a, d);
      RemoveRefines(tokens, m, a, d);
    case ClearAll =>
    case ClearAccount(a) => ClearAccountRefines(tokens, m, a);
    case ClearPair(a, d) => RemoveRefines(tokens, m, a, d);
  }

  /** Over every session with NUL-free addresses the flat cache answers like the paired one. */
  lemma {:induction false} SessionsAgree(tokens: Flat, m: Paired, ops: seq<Op>)
    requires Refines(tokens, m) && forall op :: op in ops ==> NulFreeOp(op)
    ensures FlatAnswers(tokens, ops) == PairedAnswers(m, ops)
    decreases |ops|
  {
    if ops != [] {
      assert ops[0] in ops;
      StepRefines(tokens, m, ops[0]);
      assert forall op :: op in ops[1..] ==> op in ops;
      SessionsAgree(FlatStep(tokens, ops[0]).0, PairedStep(m, ops[0]).0, ops[1..]);
    }
  }

  /** No account is handed another's token, and none is handed out within the expiry skew. */
  lemma NoTokenIsHandedOutLate(m: Paired, tokens: Flat, a: string, d: string, now: int)
    requires Refines(tokens, m) && NulFree(a) && FlatStep(tokens, Get(a, d, now)).1.Some?
    ensures (a, d) in m && m[(a, d)].token == FlatStep(tokens, Get(a, d, now)).1.value
    ensures m[(a, d)].expiresAt > now + JWT_EXPIRY_SKEW_SECONDS
  {
    LookupAgrees(tokens, m, a, d);
  }

  /** A token is handed out exactly when one is stored for the pair that lives more than thirty seconds longer. */
  lemma TokenIsHandedOutExactly(m: Paired, tokens: Flat, a: string, d: string, now: int)
    requires Refines(tokens, m) && NulFree(a)
    ensures FlatStep(tokens, Get(a, d, now)).1 ==
      if (a, d) in m && now + 30 < m[(a, d)].expiresAt then Some(m[(a, d)].token) else None
  {
    LookupAgrees(tokens, m, a, d);
  }

  /** What is stored for a pair. */
  function StoredFor(tokens: Flat, a: string, d: string): Option<StoredToken> {
    if TokenKey(a, d) in tokens then Some(tokens[TokenKey(a, d)]) else None
  }

  /** Every operation changes what is stored for the pairs it names, and for no others. */
  lemma OpsChangeWhatTheyName(tokens: Flat, op: Op, a: string, d: string)
    requires NulFreeOp(op) && NulFree(a)
    ensures StoredFor(FlatStep(tokens, op).0, a, d) ==
      match op
      case Store(b, c, e) => if (b, c) == (a, d) then Some(e) else StoredFor(tokens, a, d)
      case Get(b, c, now) =>
        if (b, c) == (a, d) && StoredFor(tokens, a, d).Some? && StoredFor(tokens, a, d).value.expiresAt <= now + 30
        then None else StoredFor(tokens, a, d)
      case ClearAll => None
      case ClearAccount(b) => if b == a then None else StoredFor(tokens, a, d)
      case ClearPair(b, c) => if (b, c) == (a, d) then None else StoredFor(tokens, a, d)
  {
    if !op.ClearAll? {
      PrefixIsAccount(op.address, a, d);
    }
    if (op.Store? || op.Get? || op.ClearPair?) && TokenKey(op.address, op.domain) == TokenKey(a, d) {
      KeyIsInjective(op.address, op.domain, a, d);
    }
  }

  // ----- When a key is ambiguous -----

  /** Another pair is stored under the same key. */
  ghost predicate Ambiguous(a: string, d: string) {
    exists a', d' :: (a', d') != (a, d) && TokenKey(a', d') == TokenKey(a, d)
  }

  lemma SeparatorInAddress(a: string, d: string, i: nat)
    requires i < |a| && a[i] == SEPARATOR
    ensures Ambiguous(a, d)
  {
    var a', d' := a[..i], a[i + 1..] + [SEPARATOR] + d;
    assert TokenKey(a', d') == TokenKey(a, d);
  }

  lemma SeparatorInDomain(a: string, d: string, i: nat)
    requires i < |d| && d[i] == SEPARATOR
    ensures Ambiguous(a, d)
  {
    var a', d' := a + [SEPARATOR] + d[..i], d[i + 1..];
    assert TokenKey(a', d') == TokenKey(a, d);
  }

  lemma OneSeparator(a: string, d: string, a': string, d': string)
    requires NulFree(a) && NulFree(d) && TokenKey(a', d') == TokenKey(a, d)
    ensures a' == a && d' == d
  {
    var key := TokenKey(a, d);
    assert key == TokenKey(a', d') && key[|a'|] == SEPARATOR;
    assert forall i :: 0 <= i < |key| && i != |a| ==> key[i] != SEPARATOR;
    assert |a'| == |a|;
    assert a == key[..|a|] == a' && d == key[|a| + 1..] == d';
  }

  /** Some other pair shares a pair's key exactly when its address or its domain contains the separator. */
  lemma WhenAKeyIsAmbiguous(a: string, d: string)
    ensures Ambiguous(a, d) <==> !NulFree(a) || !NulFree(d)
  {
    if i :| 0 <= i < |a| && a[i] == SEPARATOR {
      SeparatorInAddress(a, d, i);
    } else if i :| 0 <= i < |d| && d[i] == SEPARATOR {
      SeparatorInDomain(a, d, i);
    } else if Ambiguous(a, d) {
      var a', d' :| (a', d') != (a, d) && TokenKey(a', d') == TokenKey(a, d);
      OneSeparator(a, d, a', d');
    }
  }

  /** Without the condition one key stands for two pairs, and clearing one account clears another's entry. */
  lemma NulBreaksTheKey()
    ensures TokenKey("a", "b" + [SEPARATOR] + "c") == TokenKey("a" + [SEPARATOR] + "b", "c")
    ensures StartsWith(TokenKey("a" + [SEPARATOR] + "b", "c"), "a" + [SEPARATOR])
  {
    var key := TokenKey("a" + [SEPARATOR] + "b", "c");
    assert key == ("a" + [SEPARATOR]) + ("b" + [SEPARATOR] + "c");
    assert key == TokenKey("a", "b" + [SEPARATOR] + "c");
  }
}
