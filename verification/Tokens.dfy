/** Bearer tokens across signing-key rotation: prefixed raw tokens, keyed hashes and one-way lazy
    rekeying of legacy hashes (forensics/token_crypto.py). */
module Tokens {
  import opened Orders

  const SEPARATOR := '_'

  /** HMAC-SHA256 (section 2 of RFC 2104), taken as injective in key and message. */
  datatype Hash = Hmac(key: string, secret: string)

  datatype Token = Token(hash: Hash, active: bool, expires: Option<int>)

  /** Rows by their unique lookup prefix. */
  type Rows = map<string, Token>

  datatype Settings = Settings(secretKey: string, hashKey: string)

  // --------------------------------------------------------------------- raw tokens

  function RawToken(typePrefix: string, lookup: string, secret: string): string {
    typePrefix + [SEPARATOR] + (lookup + [SEPARATOR] + secret)
  }

  /** Index of the first separator, or the length when there is none. */
  function FirstSeparator(s: string): (i: nat)
    ensures i <= |s| && SEPARATOR !in s[..i] && (i < |s| ==> s[i] == SEPARATOR)
  {
    if s == "" then 0
    else if s[0] == SEPARATOR then 0
    else
      var i := FirstSeparator(s[1..]);
      assert s[..i + 1] == [s[0]] + s[1..][..i];
      i + 1
  }

  datatype Parts = Parts(typePrefix: string, lookup: string, secret: string) | TooFew

  /** `raw.split("_", 2)`, when it yields three parts. */
  function Split(raw: string): Parts {
    var i := FirstSeparator(raw);
    if i == |raw| then TooFew
    else
      var rest := raw[i + 1..];
      var j := FirstSeparator(rest);
      if j == |rest| then TooFew else Parts(raw[..i], rest[..j], rest[j + 1..])
  }

  lemma {:induction false} SeparatorAfter(a: string, b: string)
    requires SEPARATOR !in a
    ensures FirstSeparator(a + [SEPARATOR] + b) == |a|
  {
    if a != "" {
      assert a[0] in a;
      assert (a + [SEPARATOR] + b)[1..] == a[1..] + [SEPARATOR] + b;
      SeparatorAfter(a[1..], b);
    }
  }

  lemma {:induction false} SplitUndoesMinting(typePrefix: string, lookup: string, secret: string)
    requires SEPARATOR !in typePrefix && SEPARATOR !in lookup
    ensures Split(RawToken(typePrefix, lookup, secret)) == Parts(typePrefix, lookup, secret)
  {
    var rest := lookup + [SEPARATOR] + secret;
    var raw := typePrefix + [SEPARATOR] + rest;
    SeparatorAfter(typePrefix, rest);
    SeparatorAfter(lookup, secret);
    assert raw[|typePrefix| + 1..] == rest && raw[..|typePrefix|] == typePrefix;
    assert rest[..|lookup|] == lookup && rest[|lookup| + 1..] == secret;
  }

  lemma {:induction false} MintingUndoesSplit(raw: string)
    requires Split(raw).Parts?
    ensures var p := Split(raw); raw == RawToken(p.typePrefix, p.lookup, p.secret)
  {
    var i := FirstSeparator(raw);
    var rest := raw[i + 1..];
    JoinAt(raw, i);
    JoinAt(rest, FirstSeparator(rest));
  }

  lemma {:induction false} JoinAt(s: string, i: nat)
    requires i < |s| && s[i] == SEPARATOR
    ensures s == s[..i] + [SEPARATOR] + s[i + 1..]
  {
  }

  /** Splitting undoes minting, whatever the secret contains; and nothing else splits that way. */
  lemma {:induction false} SplitRoundTrip(typePrefix: string, lookup: string, secret: string, raw: string)
    requires SEPARATOR !in typePrefix && SEPARATOR !in lookup
    ensures Split(raw) == Parts(typePrefix, lookup, secret) <==> raw == RawToken(typePrefix, lookup, secret)
  {
    SplitUndoesMinting(typePrefix, lookup, secret);
    if Split(raw).Parts? { MintingUndoesSplit(raw); }
  }

  // ------------------------------------------------------------------- authentication

  predicate IsExpired(t: Token, now: int) { t.expires.Some? && now >= t.expires.value }

  /** `legacy_hash_keys`: the signing key, while it differs from the dedicated key. */
  predicate HasLegacyKey(s: Settings) { s.secretKey != "" && s.secretKey != s.hashKey }

  predicate MatchesCurrent(t: Token, secret: string, s: Settings) { t.hash == Hmac(s.hashKey, secret) }

  predicate MatchesLegacy(t: Token, secret: string, s: Settings) {
    HasLegacyKey(s) && t.hash == Hmac(s.secretKey, secret)
  }

  /** Who a raw token authenticates, if anyone: stated without the order of the checks. */
  ghost predicate Grants(rows: Rows, raw: string, typePrefix: string, s: Settings, now: int, lookup: string) {
    var p := Split(raw);
    && p.Parts? && p.typePrefix == typePrefix && p.lookup == lookup
    && lookup in rows && rows[lookup].active && Unexpired(rows[lookup], now)
    && (|| rows[lookup].hash == Hmac(s.hashKey, p.secret)
        || (s.secretKey != "" && s.secretKey != s.hashKey && rows[lookup].hash == Hmac(s.secretKey, p.secret)))
  }

  /** No expiry, or one that is still to come. */
  predicate Unexpired(t: Token, now: int) { t.expires.None? || now < t.expires.value }

  /** The table after an attempt: a granted legacy row is rekeyed, anything else is left alone. */
  function Attempt(rows: Rows, raw: string, typePrefix: string, s: Settings, now: int): (Option<string>, Rows) {
    var p := Split(raw);
    if p.TooFew? || p.typePrefix != typePrefix then (None, rows)
    else if p.lookup !in rows || !rows[p.lookup].active then (None, rows)
    else
      var t := rows[p.lookup];
      if !MatchesCurrent(t, p.secret, s) && !MatchesLegacy(t, p.secret, s) then (None, rows)
      else if IsExpired(t, now) then (None, rows)
      else if MatchesCurrent(t, p.secret, s) then (Some(p.lookup), rows)
      else (Some(p.lookup), rows[p.lookup := t.(hash := Hmac(s.hashKey, p.secret))])
  }

  class TokenTable {
    var rows: Rows

    /** `authenticate` */
    method Authenticate(raw: string, typePrefix: string, s: Settings, now: int) returns (found: Option<string>)
      modifies this
      ensures (found, rows) == Attempt(old(rows), raw, typePrefix, s, now)
      ensures forall l :: found == Some(l) <==> Grants(old(rows), raw, typePrefix, s, now, l)
      ensures found.None? ==> rows == old(rows)
      ensures found.Some? ==> MatchesCurrent(rows[found.value], Split(raw).secret, s) && rows.Keys == old(rows).Keys
    {
      if raw == "" { return None; }
      var p := Split(raw);
      if p.TooFew? || p.typePrefix != typePrefix { return None; }
      if p.lookup !in rows || !rows[p.lookup].active { return None; }
      var token := rows[p.lookup];
      var current := Hmac(s.hashKey, p.secret);
      var matchedLegacy := false;
      if token.hash != current {
        if HasLegacyKey(s) && token.hash == Hmac(s.secretKey, p.secret) {
          matchedLegacy := true;
        } else {
          return None;
        }
      }
      if IsExpired(token, now) { return None; }
      if matchedLegacy {
        rows := rows[p.lookup := token.(hash := current)];
      }
      return Some(p.lookup);
    }
  }

  // ----------------------------------------------------------------------- every run

  datatype Step =
    | Issue(lookup: string, secret: string, expires: Option<int>)
    | Login(raw: string, typePrefix: string, now: int)
    | RotateSigningKey(secretKey: string)

  datatype World = World(rows: Rows, settings: Settings)

  function Next(w: World, step: Step): World {
    match step
    case Issue(lookup, secret, expires) =>
      if lookup in w.rows then w
      else w.(rows := w.rows[lookup := Token(Hmac(w.settings.hashKey, secret), true, expires)])
    case Login(raw, typePrefix, now) => w.(rows := Attempt(w.rows, raw, typePrefix, w.settings, now).1)
    case RotateSigningKey(k) => w.(settings := w.settings.(secretKey := k))
  }

  function Run(w: World, steps: seq<Step>): World {
    if steps == [] then w else Next(Run(w, steps[..|steps| - 1]), steps[|steps| - 1])
  }

  /** The row is keyed on the dedicated key. */
  ghost predicate Settled(w: World, lookup: string, secret: string) {
    lookup in w.rows && w.rows[lookup].hash == Hmac(w.settings.hashKey, secret)
  }

  lemma {:induction false} SettledStays(w: World, lookup: string, secret: string, step: Step)
    requires Settled(w, lookup, secret)
    ensures Settled(Next(w, step), lookup, secret) && Next(w, step).rows[lookup] == w.rows[lookup]
    ensures Next(w, step).settings.hashKey == w.settings.hashKey
  {
  }

  /** A token stored under the dedicated key is never rewritten: through any logins, issues and
      signing-key rotations it authenticates exactly while it is active and unexpired. */
  lemma {:induction false} SettledForever(w: World, lookup: string, secret: string, steps: seq<Step>,
                                          typePrefix: string, now: int)
    requires Settled(w, lookup, secret) && SEPARATOR !in typePrefix && SEPARATOR !in lookup
    ensures var w' := Run(w, steps);
      && Settled(w', lookup, secret) && w'.rows[lookup] == w.rows[lookup] && w'.settings.hashKey == w.settings.hashKey
      && (Grants(w'.rows, RawToken(typePrefix, lookup, secret), typePrefix, w'.settings, now, lookup) <==>
            w.rows[lookup].active && Unexpired(w.rows[lookup], now))
  {
    SplitRoundTrip(typePrefix, lookup, secret, RawToken(typePrefix, lookup, secret));
    if steps != [] {
      var n := |steps| - 1;
      SettledForever(w, lookup, secret, steps[..n], typePrefix, now);
      SettledStays(Run(w, steps[..n]), lookup, secret, steps[n]);
    }
  }

  /** An issued token is on the dedicated key, and so works through everything that follows until it expires. A
      lookup prefix that is taken stays with its owner. */
  lemma {:induction false} IssuedWorks(w: World, lookup: string, secret: string, expires: Option<int>, steps: seq<Step>,
                                       typePrefix: string, now: int)
    requires lookup !in w.rows && SEPARATOR !in typePrefix && SEPARATOR !in lookup
    ensures var w' := Run(Next(w, Issue(lookup, secret, expires)), steps);
      && Settled(w', lookup, secret)
      && (Grants(w'.rows, RawToken(typePrefix, lookup, secret), typePrefix, w'.settings, now, lookup) <==>
            expires.None? || now < expires.value)
  {
    SettledForever(Next(w, Issue(lookup, secret, expires)), lookup, secret, steps, typePrefix, now);
  }

  /** A legacy token's first successful login settles it, so it then survives every rotation. */
  lemma {:induction false} LegacySettlesOnce(w: World, lookup: string, secret: string, typePrefix: string, now: int,
                                             steps: seq<Step>, later: int)
    requires SEPARATOR !in typePrefix && SEPARATOR !in lookup
    requires lookup in w.rows && MatchesLegacy(w.rows[lookup], secret, w.settings)
    requires Grants(w.rows, RawToken(typePrefix, lookup, secret), typePrefix, w.settings, now, lookup)
    ensures var raw := RawToken(typePrefix, lookup, secret);
      var w' := Run(Next(w, Login(raw, typePrefix, now)), steps);
      Grants(w'.rows, raw, typePrefix, w'.settings, later, lookup) <==> Unexpired(w.rows[lookup], later)
  {
    var raw := RawToken(typePrefix, lookup, secret);
    SplitRoundTrip(typePrefix, lookup, secret, raw);
    var after := Next(w, Login(raw, typePrefix, now));
    assert Settled(after, lookup, secret);
    SettledForever(after, lookup, secret, steps, typePrefix, later);
  }

  /** Exactly when an untouched legacy token still works: while the signing key it was hashed with is
      the current one. */
  lemma {:induction false} LegacyNeedsItsKey(rows: Rows, lookup: string, secret: string, oldKey: string, s: Settings,
                                             typePrefix: string, now: int)
    requires SEPARATOR !in typePrefix && SEPARATOR !in lookup
    requires lookup in rows && rows[lookup].active && Unexpired(rows[lookup], now)
    requires rows[lookup].hash == Hmac(oldKey, secret) && oldKey != s.hashKey && oldKey != ""
    ensures Grants(rows, RawToken(typePrefix, lookup, secret), typePrefix, s, now, lookup) <==> s.secretKey == oldKey
  {
    SplitRoundTrip(typePrefix, lookup, secret, RawToken(typePrefix, lookup, secret));
  }
}
