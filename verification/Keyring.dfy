/**
  The at-rest keyring (gw/security): the canonical rendering of a value's context, the checks a keyring conf must pass, and
  sealing and opening by key id. The cipher, the key derivation and the decoding of master keys are abstract.
 */
module Keyring {
  import opened Basics

  /** Bytes as numbers. */
  type Bytes = seq<nat>

  // ----- the context's rendering -----

  datatype Context = Context(app: Bytes, location: Bytes, field: Bytes)

  /** Seven bits a byte, least first, the high bit set on every byte but the last. */
  function Uvarint(x: nat): Bytes {
    if x < 128 then [x] else [128 + x % 128] + Uvarint(x / 128)
  }

  function Prefixed(part: Bytes): Bytes {
    Uvarint(|part|) + part
  }

  function Rendered(cc: Context): Bytes {
    Prefixed(cc.app) + Prefixed(cc.location) + Prefixed(cc.field)
  }

  method AppendUvarint(buf: Bytes, n: nat) returns (r: Bytes)
    ensures r == buf + Uvarint(n)
  {
    r := buf;
    var x := n;
    while x >= 128
      invariant r + Uvarint(x) == buf + Uvarint(n)
    {
      r := r + [128 + x % 128];
      x := x / 128;
    }
    r := r + [x];
  }

  /** The parts from the i-th on, each behind its length. */
  function PrefixedFrom(parts: seq<Bytes>, i: nat): Bytes
    requires i <= |parts|
    decreases |parts| - i
  {
    if i == |parts| then [] else Prefixed(parts[i]) + PrefixedFrom(parts, i + 1)
  }

  lemma ThreeParts(a: Bytes, b: Bytes, c: Bytes)
    ensures PrefixedFrom([a, b, c], 0) == Prefixed(a) + Prefixed(b) + Prefixed(c)
  {
    var parts := [a, b, c];
    assert PrefixedFrom(parts, 2) == Prefixed(c) + PrefixedFrom(parts, 3) == Prefixed(c);
    assert PrefixedFrom(parts, 1) == Prefixed(b) + Prefixed(c);
  }

  method Render(cc: Context) returns (buf: Bytes)
    ensures buf == Rendered(cc)
  {
    buf := RenderParts([cc.app, cc.location, cc.field]);
    ThreeParts(cc.app, cc.location, cc.field);
  }

  method RenderParts(parts: seq<Bytes>) returns (buf: Bytes)
    ensures buf == PrefixedFrom(parts, 0)
  {
    buf := [];
    var i := 0;
    while i < |parts|
      invariant 0 <= i <= |parts|
      invariant buf + PrefixedFrom(parts, i) == PrefixedFrom(parts, 0)
    {
      NextPart(buf, parts, i);
      buf := AppendUvarint(buf, |parts[i]|);
      buf := buf + parts[i];
      i := i + 1;
    }
  }

  lemma NextPart(buf: Bytes, parts: seq<Bytes>, i: nat)
    requires i < |parts|
    ensures buf + PrefixedFrom(parts, i) == buf + Uvarint(|parts[i]|) + parts[i] + PrefixedFrom(parts, i + 1)
  {}

  /** The number at the front of the bytes, and what follows it. */
  function ReadUvarint(s: Bytes): Option<(nat, Bytes)> {
    if s == [] then None
    else if s[0] < 128 then Some((s[0], s[1..]))
    else
      match ReadUvarint(s[1..])
      case None => None
      case Some((x, rest)) => Some((s[0] - 128 + 128 * x, rest))
  }

  lemma {:induction false} ReadOfUvarint(x: nat, rest: Bytes)
    ensures ReadUvarint(Uvarint(x) + rest) == Some((x, rest))
    decreases x
  {
    var s := Uvarint(x) + rest;
    if x < 128 {
      assert s[1..] == rest;
    } else {
      ReadOfUvarint(x / 128, rest);
      assert s[1..] == Uvarint(x / 128) + rest;
    }
  }

  lemma PrefixedInjective(a: Bytes, b: Bytes, more: Bytes, rest: Bytes)
    requires Prefixed(a) + more == Prefixed(b) + rest
    ensures a == b && more == rest
  {
    assert Prefixed(a) + more == Uvarint(|a|) + (a + more);
    assert Prefixed(b) + rest == Uvarint(|b|) + (b + rest);
    ReadOfUvarint(|a|, a + more);
    ReadOfUvarint(|b|, b + rest);
    assert (a + more)[..|a|] == a && (b + rest)[..|b|] == b;
    assert (a + more)[|a|..] == more && (b + rest)[|b|..] == rest;
  }

  /** A part behind its length, and what follows it. */
  function ReadPart(s: Bytes): Option<(Bytes, Bytes)> {
    match ReadUvarint(s)
    case None => None
    case Some((n, rest)) => if n <= |rest| then Some((rest[..n], rest[n..])) else None
  }

  /** Three parts and nothing else: the app, the location and the field, in this order. */
  function ReadContext(s: Bytes): Option<Context> {
    match ReadPart(s)
    case None => None
    case Some((app, s1)) =>
      match ReadPart(s1)
      case None => None
      case Some((location, s2)) =>
        match ReadPart(s2)
        case None => None
        case Some((field, s3)) => if s3 == [] then Some(Context(app, location, field)) else None
  }

  lemma PartReads(part: Bytes, rest: Bytes)
    ensures ReadPart(Prefixed(part) + rest) == Some((part, rest))
  {
    assert Prefixed(part) + rest == Uvarint(|part|) + (part + rest);
    ReadOfUvarint(|part|, part + rest);
    assert (part + rest)[..|part|] == part && (part + rest)[|part|..] == rest;
  }

  /** A rendered context reads back as it was, part by part. */
  lemma ContextReadsBack(cc: Context)
    ensures ReadContext(Rendered(cc)) == Some(cc)
  {
    var s2 := Prefixed(cc.field) + [];
    var s1 := Prefixed(cc.location) + s2;
    assert Rendered(cc) == Prefixed(cc.app) + s1;
    PartReads(cc.app, s1);
    PartReads(cc.location, s2);
    PartReads(cc.field, []);
  }

  /** Distinct contexts render distinctly, however their parts are cut. */
  lemma RenderInjective(cc: Context, cc': Context)
    ensures Rendered(cc) == Rendered(cc') <==> cc == cc'
  {
    if Rendered(cc) == Rendered(cc') {
      var more, rest := Prefixed(cc.location) + Prefixed(cc.field), Prefixed(cc'.location) + Prefixed(cc'.field);
      assert Rendered(cc) == Prefixed(cc.app) + more && Rendered(cc') == Prefixed(cc'.app) + rest;
      PrefixedInjective(cc.app, cc'.app, more, rest);
      PrefixedInjective(cc.location, cc'.location, Prefixed(cc.field), Prefixed(cc'.field));
      assert Prefixed(cc.field) + [] == Prefixed(cc.field) && Prefixed(cc'.field) + [] == Prefixed(cc'.field);
      PrefixedInjective(cc.field, cc'.field, [], []);
    }
  }

  // ----- the abstract cipher -----

  type Key = Bytes

  /**
    What the keyring is built on: decoding a master key from its text, deriving a working key from it under a label, and
    sealing and opening with associated data, a nonce given.
   */
  datatype Crypto = Crypto(
    decode: string -> Option<Bytes>,
    derive: (Bytes, string) -> Key,
    seal: (Key, Bytes, Bytes, Bytes) -> string,
    open: (Key, string, Bytes) -> Option<Bytes>)

  /** A sealed value opens with its key and its associated data, and with no other. */
  ghost predicate Authentic(c: Crypto) {
    forall key, nonce, plaintext, ad, key', ad' ::
      c.open(key', c.seal(key, nonce, plaintext, ad), ad') == if key' == key && ad' == ad then Some(plaintext) else None
  }

  // ----- the conf -----

  const ALG := "xchacha20poly1305"
  const KEY_SIZE := 32

  datatype KeyConf = KeyConf(alg: string, encKey: string)

  /** Entries by key id; an id may be there with no entry. */
  datatype Conf = Conf(active: string, keys: map<string, Option<KeyConf>>)

  datatype Error =
    | EmptyName
    | SeparatorInName
    | NoConf
    | BadActive
    | BadKey(kid: string)
    | EmptyLocation
    | NoKeyID
    | UnknownKey(kid: string)
    | OpenFailed(kid: string)

  /** What one entry must be. */
  predicate KeyOk(c: Crypto, kid: string, entry: Option<KeyConf>) {
    && kid != "" && '.' !in kid && entry.Some? && entry.value.alg == ALG
    && c.decode(entry.value.encKey).Some? && |c.decode(entry.value.encKey).value| == KEY_SIZE
  }

  ghost predicate ConfOk(c: Crypto, conf: Conf, app: string, purpose: string) {
    && app != "" && purpose != "" && ':' !in app && ':' !in purpose
    && conf.active != "" && conf.active in conf.keys
    && forall kid :: kid in conf.keys ==> KeyOk(c, kid, conf.keys[kid])
  }

  function InfoLabel(app: string, purpose: string): string {
    app + ":" + purpose
  }

  function WorkingKey(c: Crypto, entry: KeyConf, app: string, purpose: string): Key
    requires c.decode(entry.encKey).Some?
  {
    c.derive(c.decode(entry.encKey).value, InfoLabel(app, purpose))
  }

  /** Two pairs of app and purpose never share a derivation label. */
  lemma LabelsDiffer(app: string, purpose: string, app': string, purpose': string)
    requires ':' !in app && ':' !in app'
    ensures InfoLabel(app, purpose) == InfoLabel(app', purpose') <==> app == app' && purpose == purpose'
  {
    CutFirst(app, ':', purpose);
    CutFirst(app', ':', purpose');
    assert InfoLabel(app, purpose) == app + [':'] + purpose;
    assert InfoLabel(app', purpose') == app' + [':'] + purpose';
  }

  /** The app comes before the first colon. */
  lemma LabelReads(app: string, purpose: string)
    requires ':' !in app
    ensures Cut(InfoLabel(app, purpose), ':') == Some((app, purpose))
  {
    CutFirst(app, ':', purpose);
    assert InfoLabel(app, purpose) == app + [':'] + purpose;
  }

  datatype Cipher = Cipher(activeKid: string, ciphers: map<string, Key>)

  /** The cipher a good conf builds: its own active key, and every entry's working key. */
  ghost predicate Builds(c: Crypto, conf: Conf, app: string, purpose: string, k: Cipher)
    requires ConfOk(c, conf, app, purpose)
  {
    && k.activeKid == conf.active && k.ciphers.Keys == conf.keys.Keys
    && forall kid :: kid in conf.keys ==>
         KeyOk(c, kid, conf.keys[kid]) && k.ciphers[kid] == WorkingKey(c, conf.keys[kid].value, app, purpose)
  }

  /** The error names what is wrong, the first of these in this order; of several bad entries any one. */
  ghost predicate Explains(c: Crypto, conf: Option<Conf>, app: string, purpose: string, e: Error) {
    if app == "" || purpose == "" then e == EmptyName
    else if ':' in app || ':' in purpose then e == SeparatorInName
    else if conf.None? then e == NoConf
    else if conf.value.active == "" || conf.value.active !in conf.value.keys then e == BadActive
    else e.BadKey? && e.kid in conf.value.keys && !KeyOk(c, e.kid, conf.value.keys[e.kid])
  }

  /** Every misconfiguration is a construction failure, and nothing else is. */
  method NewKeyringCipher(c: Crypto, conf: Option<Conf>, app: string, purpose: string) returns (r: Result<Cipher, Error>)
    ensures r.Ok? <==> conf.Some? && ConfOk(c, conf.value, app, purpose)
    ensures r.Ok? ==> Builds(c, conf.value, app, purpose, r.value)
    ensures r.Err? ==> Explains(c, conf, app, purpose, r.error)
  {
    if app == "" || purpose == "" {
      return Err(EmptyName);
    }
    if ':' in app || ':' in purpose {
      return Err(SeparatorInName);
    }
    if conf.None? {
      return Err(NoConf);
    }
    var Conf(active, keys) := conf.value;
    if active == "" || |keys| == 0 || active !in keys {
      return Err(BadActive);
    }
    var ciphers: map<string, Key>, todo := map[], keys.Keys;
    while todo != {}
      invariant todo <= keys.Keys && ciphers.Keys == keys.Keys - todo
      invariant forall kid :: kid in keys && kid !in todo ==>
        KeyOk(c, kid, keys[kid]) && ciphers[kid] == WorkingKey(c, keys[kid].value, app, purpose)
      decreases |todo|
    {
      var kid :| kid in todo;
      todo := todo - {kid};
      if !KeyOk(c, kid, keys[kid]) {
        return Err(BadKey(kid));
      }
      ciphers := ciphers[kid := WorkingKey(c, keys[kid].value, app, purpose)];
    }
    return Ok(Cipher(active, ciphers));
  }

  // ----- sealing and opening -----

  function EncryptEncode(c: Crypto, k: Cipher, nonce: Bytes, plaintext: Bytes, cc: Context): Result<string, Error>
    requires k.activeKid in k.ciphers
  {
    if cc.location == [] then Err(EmptyLocation)
    else Ok(k.activeKid + "." + c.seal(k.ciphers[k.activeKid], nonce, plaintext, Rendered(cc)))
  }

  function DecodeDecrypt(c: Crypto, k: Cipher, encoded: string, cc: Context): Result<Bytes, Error> {
    if cc.location == [] then Err(EmptyLocation)
    else
      match Cut(encoded, '.')
      case None => Err(NoKeyID)
      case Some((kid, rest)) =>
        if kid !in k.ciphers then Err(UnknownKey(kid))
        else
          var plaintext := c.open(k.ciphers[kid], rest, Rendered(cc));
          if plaintext.Some? then Ok(plaintext.value) else Err(OpenFailed(kid))
  }

  /** A working key tells the master key and the label it was derived from. */
  ghost predicate Separates(c: Crypto) {
    forall key, info, key', info' :: c.derive(key, info) == c.derive(key', info') ==> key == key' && info == info'
  }

  lemma SealedIs(c: Crypto, conf: Conf, app: string, purpose: string, k: Cipher, nonce: Bytes, plaintext: Bytes, cc: Context)
    requires ConfOk(c, conf, app, purpose) && Builds(c, conf, app, purpose, k) && cc.location != []
    ensures var body := c.seal(k.ciphers[conf.active], nonce, plaintext, Rendered(cc));
      var sealed := EncryptEncode(c, k, nonce, plaintext, cc);
      sealed.Ok? && Cut(sealed.value, '.') == Some((conf.active, body))
  {
    var kid := conf.active;
    assert KeyOk(c, kid, conf.keys[kid]);
    var body := c.seal(k.ciphers[kid], nonce, plaintext, Rendered(cc));
    assert kid + "." + body == kid + ['.'] + body;
    CutFirst(kid, '.', body);
  }

  /**
    A value sealed under one configuration, read under another, whatever rotations came between: it opens to its
    plaintext under its own context and under no other, as long as its key's entry is in the ring unchanged; with the
    entry gone the failure names the key.
   */
  lemma OpensAfterRotations(c: Crypto, conf: Conf, conf': Conf, app: string, purpose: string, k: Cipher, k': Cipher,
                            nonce: Bytes, plaintext: Bytes, cc: Context, cc': Context)
    requires Authentic(c) && ConfOk(c, conf, app, purpose) && ConfOk(c, conf', app, purpose)
    requires Builds(c, conf, app, purpose, k) && Builds(c, conf', app, purpose, k')
    requires cc.location != [] && cc'.location != []
    ensures var kid := conf.active;
      var sealed := EncryptEncode(c, k, nonce, plaintext, cc);
      && sealed.Ok?
      && (kid in conf'.keys && conf'.keys[kid] == conf.keys[kid] ==>
            DecodeDecrypt(c, k', sealed.value, cc') == if cc' == cc then Ok(plaintext) else Err(OpenFailed(kid)))
      && (kid !in conf'.keys ==> DecodeDecrypt(c, k', sealed.value, cc') == Err(UnknownKey(kid)))
  {
    SealedIs(c, conf, app, purpose, k, nonce, plaintext, cc);
    assert KeyOk(c, conf.active, conf.keys[conf.active]);
    RenderInjective(cc, cc');
  }

  /**
    Given a derivation that separates, a sealed value opens for a reader of any app and purpose, under any configuration
    and context, exactly when the reader's app, purpose and context are its own and its key id still names its master key.
   */
  lemma OpensOnlyAtHome(c: Crypto, conf: Conf, conf': Conf, app: string, purpose: string, app': string, purpose': string,
                        k: Cipher, k': Cipher, nonce: Bytes, plaintext: Bytes, cc: Context, cc': Context)
    requires Authentic(c) && Separates(c) && ConfOk(c, conf, app, purpose) && ConfOk(c, conf', app', purpose')
    requires Builds(c, conf, app, purpose, k) && Builds(c, conf', app', purpose', k') && cc.location != []
    ensures var kid := conf.active;
      var sealed := EncryptEncode(c, k, nonce, plaintext, cc);
      var answer := DecodeDecrypt(c, k', sealed.value, cc');
      && (answer.Ok? ==> answer.value == plaintext)
      && (answer.Ok? <==>
            && app == app' && purpose == purpose' && cc == cc' && kid in conf'.keys
            && c.decode(conf'.keys[kid].value.encKey) == c.decode(conf.keys[kid].value.encKey))
  {
    var kid := conf.active;
    SealedIs(c, conf, app, purpose, k, nonce, plaintext, cc);
    assert KeyOk(c, kid, conf.keys[kid]) && (kid in conf'.keys ==> KeyOk(c, kid, conf'.keys[kid]));
    RenderInjective(cc, cc');
    LabelsDiffer(app, purpose, app', purpose');
  }
}
