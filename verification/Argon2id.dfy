/** The Argon2id password hasher's conf and its PHC string (auth/passwd/argon2id.go). The hash function is abstract. */
module Argon2id {
  import opened Basics
  import Base64
  import Decimal

  const MAX_MEMORY_KIB: nat := 4194304
  const UINT32_MAX: nat := 4294967295
  const VERSION: nat := 19

  datatype Conf = Conf(memoryKiB: nat, iterations: nat, parallelism: nat, saltLen: nat, keyLen: nat)

  /** The widths of the conf's fields. */
  predicate Fits(conf: Conf) {
    && conf.memoryKiB <= UINT32_MAX && conf.iterations <= UINT32_MAX && conf.parallelism <= 255
    && conf.saltLen <= UINT32_MAX && conf.keyLen <= UINT32_MAX
  }

  /** Memory and passes, any one row of which suffices. */
  const FLOOR: seq<(nat, nat)> := [(47104, 1), (19456, 2), (12288, 3), (9216, 4), (7168, 5)]

  predicate MeetsFloor(conf: Conf) {
    exists i :: 0 <= i < |FLOOR| && conf.memoryKiB >= FLOOR[i].0 && conf.iterations >= FLOOR[i].1
  }

  predicate Accepted(conf: Conf) {
    MeetsFloor(conf) && conf.memoryKiB <= MAX_MEMORY_KIB && conf.parallelism >= 1 && conf.saltLen >= 16 && conf.keyLen >= 32
  }

  datatype Error = BelowFloor | MemoryTooLarge | NoParallelism | SaltTooShort | KeyTooShort

  method NewArgon2id(conf: Conf) returns (r: Result<Conf, Error>)
    requires Fits(conf)
    ensures r.Ok? <==> Accepted(conf)
    ensures r.Ok? ==> r.value == conf && conf.memoryKiB >= 8 * conf.parallelism
    ensures r.Err? ==> match r.error
      case BelowFloor => !MeetsFloor(conf)
      case MemoryTooLarge => MeetsFloor(conf) && conf.memoryKiB > MAX_MEMORY_KIB
      case NoParallelism => conf.memoryKiB <= MAX_MEMORY_KIB && conf.parallelism == 0
      case SaltTooShort => conf.parallelism >= 1 && conf.saltLen < 16
      case KeyTooShort => conf.saltLen >= 16 && conf.keyLen < 32
  {
    var meets, i := false, 0;
    while i < |FLOOR| && !meets
      invariant 0 <= i <= |FLOOR|
      invariant meets ==> MeetsFloor(conf) && conf.memoryKiB >= 7168
      invariant !meets ==> forall k :: 0 <= k < i ==> !(conf.memoryKiB >= FLOOR[k].0 && conf.iterations >= FLOOR[k].1)
      decreases |FLOOR| - i, !meets
    {
      if conf.memoryKiB >= FLOOR[i].0 && conf.iterations >= FLOOR[i].1 {
        meets := true;
      } else {
        i := i + 1;
      }
    }
    if !meets {
      return Err(BelowFloor);
    }
    if conf.memoryKiB > MAX_MEMORY_KIB {
      return Err(MemoryTooLarge);
    }
    if conf.parallelism < 1 {
      return Err(NoParallelism);
    }
    if conf.saltLen < 16 {
      return Err(SaltTooShort);
    }
    if conf.keyLen < 32 {
      return Err(KeyTooShort);
    }
    return Ok(conf);
  }

  // ----- the string -----

  const ID := "argon2id"

  function Version(): string {
    "v=" + Decimal.Format(VERSION)
  }

  datatype Encoding = Encoding(memoryKiB: nat, iterations: nat, parallelism: nat, salt: seq<nat>, hash: seq<nat>)

  function Params(e: Encoding): string {
    "m=" + Decimal.Format(e.memoryKiB) + ",t=" + Decimal.Format(e.iterations) + ",p=" + Decimal.Format(e.parallelism)
  }

  function Written(e: Encoding): string
    requires Base64.Bytes(e.salt) && Base64.Bytes(e.hash)
  {
    "" + "$" + (ID + "$" + (Version() + "$" + (Params(e) + "$" + (Base64.Encode(e.salt) + "$" + Base64.Encode(e.hash)))))
  }

  /** A number behind its key. */
  function Keyed(key: string, s: string): Option<nat> {
    if key <= s then Decimal.ParseUint(s[|key|..], UINT32_MAX) else None
  }

  const KEYS: seq<string> := ["m=", "t=", "p="]

  /** What the hasher can run: RFC 9106 asks for memory of at least 8 times the lanes (section 3.1). */
  predicate Runnable(e: Encoding) {
    && 1 <= e.parallelism <= 255 && 1 <= e.iterations <= UINT32_MAX
    && 8 * e.parallelism <= e.memoryKiB <= MAX_MEMORY_KIB && |e.salt| >= 8 && |e.hash| >= 16
  }

  /** The parts of a strictly written encoding that can be run. */
  function Parsed(encoded: string): Option<Encoding> {
    var parts := Split(encoded, '$');
    if |parts| != 6 || parts[0] != "" || parts[1] != ID || parts[2] != Version() then None
    else
      var params := Split(parts[3], ',');
      if |params| != 3 then None
      else
        var m, t, p := Keyed("m=", params[0]), Keyed("t=", params[1]), Keyed("p=", params[2]);
        var salt, hash := Base64.Decode(parts[4]), Base64.Decode(parts[5]);
        if m.None? || t.None? || p.None? || salt.None? || hash.None? then None
        else
          var e := Encoding(m.value, t.value, p.value, salt.value, hash.value);
          if Runnable(e) then Some(e) else None
  }

  method ParseArgon2id(encoded: string) returns (r: Option<Encoding>)
    ensures r == Parsed(encoded)
  {
    var parts := Split(encoded, '$');
    if |parts| != 6 || parts[0] != "" || parts[1] != ID {
      return None;
    }
    if parts[2] != Version() {
      return None;
    }
    var params := Split(parts[3], ',');
    if |params| != 3 {
      return None;
    }
    var vals: seq<nat> := [];
    var i := 0;
    while i < 3
      invariant 0 <= i <= 3 && |vals| == i
      invariant forall k :: 0 <= k < i ==> Keyed(KEYS[k], params[k]) == Some(vals[k])
    {
      var v := Keyed(KEYS[i], params[i]);
      if v.None? {
        return None;
      }
      vals := vals + [v.value];
      i := i + 1;
    }
    if vals[2] < 1 || vals[2] > 255 || vals[1] < 1 {
      return None;
    }
    if vals[0] < 8 * vals[2] || vals[0] > MAX_MEMORY_KIB {
      return None;
    }
    var salt := Base64.Decode(parts[4]);
    if salt.None? || |salt.value| < 8 {
      return None;
    }
    var hash := Base64.Decode(parts[5]);
    if hash.None? || |hash.value| < 16 {
      return None;
    }
    return Some(Encoding(vals[0], vals[1], vals[2], salt.value, hash.value));
  }

  // ----- the round trip -----

  lemma KeyedOf(key: string, n: nat)
    ensures Keyed(key, key + Decimal.Format(n)) == if n <= UINT32_MAX then Some(n) else None
  {
    var s := key + Decimal.Format(n);
    assert key <= s && s[|key|..] == Decimal.Format(n);
    Decimal.ValueOfFormat(n);
  }

  lemma ParamsSplit(e: Encoding)
    ensures Split(Params(e), ',')
         == ["m=" + Decimal.Format(e.memoryKiB), "t=" + Decimal.Format(e.iterations), "p=" + Decimal.Format(e.parallelism)]
    ensures '$' !in Params(e)
  {
    var m, t, p := "m=" + Decimal.Format(e.memoryKiB), "t=" + Decimal.Format(e.iterations), "p=" + Decimal.Format(e.parallelism);
    assert ',' !in m && ',' !in t && ',' !in p && '$' !in m && '$' !in t && '$' !in p;
    var rest := t + [','] + p;
    assert Params(e) == m + [','] + rest;
    SplitFirst(m, ',', rest);
    SplitFirst(t, ',', p);
    SplitNone(p, ',');
  }

  lemma SplitFive(a: string, b: string, c: string, d: string, e: string)
    requires '$' !in a && '$' !in b && '$' !in c && '$' !in d && '$' !in e
    ensures Split("" + "$" + (a + "$" + (b + "$" + (c + "$" + (d + "$" + e)))), '$') == ["", a, b, c, d, e]
  {
    SplitFirst("", '$', a + "$" + (b + "$" + (c + "$" + (d + "$" + e))));
    SplitFirst(a, '$', b + "$" + (c + "$" + (d + "$" + e)));
    SplitFirst(b, '$', c + "$" + (d + "$" + e));
    SplitFirst(c, '$', d + "$" + e);
    SplitFirst(d, '$', e);
    SplitNone(e, '$');
  }

  lemma WrittenSplit(e: Encoding)
    requires Base64.Bytes(e.salt) && Base64.Bytes(e.hash)
    ensures Split(Written(e), '$') == ["", ID, Version(), Params(e), Base64.Encode(e.salt), Base64.Encode(e.hash)]
  {
    ParamsSplit(e);
    assert '$' !in ID && '$' !in Version() && '$' !in Base64.Encode(e.salt) && '$' !in Base64.Encode(e.hash);
    SplitFive(ID, Version(), Params(e), Base64.Encode(e.salt), Base64.Encode(e.hash));
  }

  /** What is written, part by part. */
  lemma WrittenReads(e: Encoding)
    requires Base64.Bytes(e.salt) && Base64.Bytes(e.hash)
    ensures var parts := Split(Written(e), '$');
      && |parts| == 6 && parts[0] == "" && parts[1] == "argon2id" && parts[2] == "v=19"
      && Split(parts[3], ',')
         == ["m=" + Decimal.Format(e.memoryKiB), "t=" + Decimal.Format(e.iterations), "p=" + Decimal.Format(e.parallelism)]
      && Base64.Decode(parts[4]) == Some(e.salt) && Base64.Decode(parts[5]) == Some(e.hash)
  {
    WrittenSplit(e);
    ParamsSplit(e);
    VersionIs();
    Base64.DecodeOfEncode(e.salt);
    Base64.DecodeOfEncode(e.hash);
  }

  lemma VersionIs()
    ensures Version() == "v=19"
  {
    assert Decimal.Format(19) == Decimal.Format(1) + [Decimal.Digit(9)];
  }

  /** A written encoding parses back to its parts exactly when it can be run, and is otherwise refused. */
  lemma ParsedOfWritten(e: Encoding)
    requires Base64.Bytes(e.salt) && Base64.Bytes(e.hash)
    ensures Parsed(Written(e)) == if Runnable(e) then Some(e) else None
  {
    WrittenSplit(e);
    ParamsSplit(e);
    KeyedOf("m=", e.memoryKiB);
    KeyedOf("t=", e.iterations);
    KeyedOf("p=", e.parallelism);
    Base64.DecodeOfEncode(e.salt);
    Base64.DecodeOfEncode(e.hash);
  }

  /** What Hash writes under a conf: its parameters, a salt and a hash of its lengths. */
  predicate Made(conf: Conf, e: Encoding) {
    && e.memoryKiB == conf.memoryKiB && e.iterations == conf.iterations && e.parallelism == conf.parallelism
    && |e.salt| == conf.saltLen && |e.hash| == conf.keyLen && Base64.Bytes(e.salt) && Base64.Bytes(e.hash)
  }

  function NeedsRehash(conf: Conf, encoded: string): Option<bool> {
    match Parsed(encoded)
    case None => None
    case Some(e) =>
      Some(e.memoryKiB != conf.memoryKiB || e.iterations != conf.iterations || e.parallelism != conf.parallelism
           || |e.salt| != conf.saltLen || |e.hash| != conf.keyLen)
  }

  /** The floor keeps an accepted conf's memory above eight times its lanes. */
  lemma AcceptedRuns(conf: Conf, e: Encoding)
    requires Fits(conf) && Accepted(conf) && Made(conf, e)
    ensures Runnable(e)
  {
    var i :| 0 <= i < |FLOOR| && conf.memoryKiB >= FLOOR[i].0 && conf.iterations >= FLOOR[i].1;
    assert FLOOR[i].0 >= 7168 && FLOOR[i].1 >= 1;
  }

  /**
    For every conf NewArgon2id accepts and every salt and hash of its lengths, the string parses back to the same parts,
    and a hasher at any conf wants it rehashed exactly when the two confs differ.
   */
  lemma HashesReadBack(conf: Conf, e: Encoding, other: Conf)
    requires Fits(conf) && Accepted(conf) && Made(conf, e)
    ensures Parsed(Written(e)) == Some(e)
    ensures NeedsRehash(other, Written(e)) == Some(other != conf)
  {
    AcceptedRuns(conf, e);
    ParsedOfWritten(e);
  }
}
