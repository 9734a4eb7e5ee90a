/** agent/internal/auth/token.go: digests, rotation configurations and the
    verifier. SHA-256 is any function to 32 bytes; instants are nanoseconds
    since the zero time. */
module Bearer {
  import opened Wrappers
  import Text

  newtype byte = x: int | 0 <= x < 256

  type Hash = string -> seq<byte>

  ghost predicate IsSum256(hash: Hash) {
    forall s :: |hash(s)| == 32
  }

  const SECOND: int := 1_000_000_000
  const DAY: int := 24 * 3600 * SECOND

  datatype Class = User | Admin | Unknown(name: string)

  // ---------------------------------------------------------------------
  // Digests
  // ---------------------------------------------------------------------

  const DIGEST_PREFIX := "sha256:"

  datatype DigestError = NoPrefix | WrongLength | NotLowerHex

  predicate IsLowerHex(c: char) {
    '0' <= c <= '9' || 'a' <= c <= 'f'
  }

  function FirstNotHex(h: string): (i: nat)
    ensures i <= |h| && forall k :: 0 <= k < i ==> IsLowerHex(h[k])
    ensures i < |h| ==> !IsLowerHex(h[i])
  {
    if h == "" || !IsLowerHex(h[0]) then 0 else 1 + FirstNotHex(h[1..])
  }

  /** Digest.Validate. */
  function CheckDigest(d: string): Option<DigestError> {
    if !(DIGEST_PREFIX <= d) then Some(NoPrefix)
    else
      var h := d[|DIGEST_PREFIX|..];
      if |h| != 64 then Some(WrongLength)
      else if FirstNotHex(h) < |h| then Some(NotLowerHex)
      else None
  }

  function HexDigit(n: byte): (c: char)
    requires n < 16
    ensures IsLowerHex(c)
  {
    if n < 10 then '0' + n as char else 'a' + (n - 10) as char
  }

  function HexEncode(bytes: seq<byte>): (h: string)
    ensures |h| == 2 * |bytes| && forall k :: 0 <= k < |h| ==> IsLowerHex(h[k])
  {
    if bytes == [] then ""
    else [HexDigit(bytes[0] / 16), HexDigit(bytes[0] % 16)] + HexEncode(bytes[1..])
  }

  function DigestBearer(hash: Hash, bearer: string): string {
    DIGEST_PREFIX + HexEncode(hash(bearer))
  }

  lemma HexDigitInjective(a: byte, b: byte)
    requires a < 16 && b < 16 && HexDigit(a) == HexDigit(b)
    ensures a == b
  {}

  lemma {:induction false} HexEncodeInjective(a: seq<byte>, b: seq<byte>)
    requires HexEncode(a) == HexEncode(b)
    ensures a == b
  {
    if a != [] && b != [] {
      var x, y := HexEncode(a), HexEncode(b);
      assert x[0] == y[0];
      HexDigitInjective(a[0] / 16, b[0] / 16);
      assert x[1] == y[1];
      HexDigitInjective(a[0] % 16, b[0] % 16);
      assert x[2..] == HexEncode(a[1..]) && y[2..] == HexEncode(b[1..]);
      HexEncodeInjective(a[1..], b[1..]);
    }
  }

  /** Every bearer has a well-formed digest, and two bearers share one exactly
      when their hashes collide. */
  lemma DigestsAreValid(hash: Hash, a: string, b: string)
    requires IsSum256(hash)
    ensures CheckDigest(DigestBearer(hash, a)) == None
    ensures DigestBearer(hash, a) == DigestBearer(hash, b) <==> hash(a) == hash(b)
  {
    var d, e := DigestBearer(hash, a), DigestBearer(hash, b);
    assert d[|DIGEST_PREFIX|..] == HexEncode(hash(a));
    assert e[|DIGEST_PREFIX|..] == HexEncode(hash(b));
    if d == e { HexEncodeInjective(hash(a), hash(b)); }
  }

  /** A digest passes exactly when it is the prefix and 64 lower-case hex digits. */
  lemma DigestFormat(d: string)
    ensures CheckDigest(d) == None <==>
      exists h: string :: d == DIGEST_PREFIX + h && |h| == 64 && forall k :: 0 <= k < 64 ==> IsLowerHex(h[k])
  {
    if CheckDigest(d) == None {
      var h := d[|DIGEST_PREFIX|..];
      assert d == DIGEST_PREFIX + h;
    }
    if h: string :| d == DIGEST_PREFIX + h && |h| == 64 && forall k :: 0 <= k < 64 ==> IsLowerHex(h[k]) {
      assert d[|DIGEST_PREFIX|..] == h;
    }
  }

  /** Each byte is two digits, the high one first. */
  lemma {:induction false} HexDigits(bytes: seq<byte>, k: nat)
    requires k < |bytes|
    ensures HexEncode(bytes)[2 * k] == "0123456789abcdef"[bytes[k] / 16]
    ensures HexEncode(bytes)[2 * k + 1] == "0123456789abcdef"[bytes[k] % 16]
  {
    if k > 0 { HexDigits(bytes[1..], k - 1); }
  }

  // ---------------------------------------------------------------------
  // Bearers
  // ---------------------------------------------------------------------

  datatype VerifyError = Malformed | WrongClass | Invalid

  function Prefix(c: Class): string
    requires !c.Unknown?
  {
    if c.User? then "hdn_u_" else "hdn_a_"
  }

  predicate IsBase64Url(c: char) {
    'A' <= c <= 'Z' || 'a' <= c <= 'z' || '0' <= c <= '9' || c == '-' || c == '_'
  }

  /** The unpadded base64url form of 32 bytes is 43 characters long. */
  predicate PayloadOk(p: string) {
    |p| == 43 && forall k :: 0 <= k < |p| ==> IsBase64Url(p[k])
  }

  /** parseBearerClass, trying the classes in the order given: Go does not say
      in which order a map is walked. */
  function ParseBearerClass(order: seq<Class>, raw: string): Result<Class, VerifyError>
    requires forall c :: c in order ==> !c.Unknown?
  {
    if order == [] then Err(Malformed)
    else if Prefix(order[0]) <= raw then
      if PayloadOk(raw[|Prefix(order[0])|..]) then Ok(order[0]) else Err(Malformed)
    else ParseBearerClass(order[1..], raw)
  }

  predicate WalkOrder(order: seq<Class>) {
    order == [User, Admin] || order == [Admin, User]
  }

  predicate IsBearer(c: Class, raw: string) {
    !c.Unknown? && Prefix(c) <= raw && PayloadOk(raw[|Prefix(c)|..])
  }

  /** The class does not depend on the order of the walk, and a bearer has one. */
  lemma ClassOfBearer(order: seq<Class>, raw: string)
    requires WalkOrder(order)
    ensures forall c :: ParseBearerClass(order, raw) == Ok(c) <==> IsBearer(c, raw)
    ensures ParseBearerClass(order, raw).Err? ==> ParseBearerClass(order, raw) == Err(Malformed)
    ensures forall c, d :: IsBearer(c, raw) && IsBearer(d, raw) ==> c == d
  {
    assert Prefix(User)[4] != Prefix(Admin)[4];
    assert Prefix(User) <= raw ==> raw[4] == 'u';
    assert Prefix(Admin) <= raw ==> raw[4] == 'a';
    var second := order[1..];
    assert second == [order[1]] && second[1..] == [];
    assert ParseBearerClass(second, raw)
        == if Prefix(order[1]) <= raw then
             if PayloadOk(raw[|Prefix(order[1])|..]) then Ok(order[1]) else Err(Malformed)
           else ParseBearerClass([], raw);
  }

  predicate Spells(c: Class, raw: string, payload: string) {
    && !c.Unknown?
    && raw == (if c == Admin then "hdn_a_" else "hdn_u_") + payload
    && |payload| == 43
    && forall x :: x in payload ==> x == '-' || x == '_' || '0' <= x <= '9' || 'A' <= x <= 'Z' || 'a' <= x <= 'z'
  }

  /** hdn_u_ or hdn_a_, and 43 characters of base64url. */
  lemma BearerFormat(c: Class, raw: string)
    ensures IsBearer(c, raw) <==> exists payload :: Spells(c, raw, payload)
  {
    if IsBearer(c, raw) {
      assert raw == Prefix(c) + raw[6..];
      assert Spells(c, raw, raw[6..]);
    }
    if payload :| Spells(c, raw, payload) {
      assert raw[6..] == payload && Prefix(c) <= raw;
      forall k | 0 <= k < 43 ensures IsBase64Url(payload[k]) { assert payload[k] in payload; }
    }
  }

  // ---------------------------------------------------------------------
  // Rotation configurations
  // ---------------------------------------------------------------------

  /** previousValidUntil 0 is the zero time. */
  datatype RotationConfig = RotationConfig(current: string, previous: string, previousValidUntil: int)

  datatype ConfigError = BadCurrent | UntilAlone | BadPrevious | SameDigest | NoUntil | TooLong

  /** RotationConfig.validate. */
  function Validate(cfg: RotationConfig, now: int): Option<ConfigError> {
    if CheckDigest(cfg.current).Some? then Some(BadCurrent)
    else if cfg.previous == "" then
      if cfg.previousValidUntil != 0 then Some(UntilAlone) else None
    else if CheckDigest(cfg.previous).Some? then Some(BadPrevious)
    else if cfg.previous == cfg.current then Some(SameDigest)
    else if cfg.previousValidUntil == 0 then Some(NoUntil)
    else if cfg.previousValidUntil - now > DAY then Some(TooLong)
    else None
  }

  /** A configuration is let in exactly when its current digest is one and it has no
      previous, or another digest with a time of at most a day from now. */
  lemma ValidateExactly(cfg: RotationConfig, now: int)
    ensures Validate(cfg, now) == None <==>
              && CheckDigest(cfg.current) == None
              && (if cfg.previous == "" then cfg.previousValidUntil == 0
                  else CheckDigest(cfg.previous) == None && cfg.previous != cfg.current
                       && 0 != cfg.previousValidUntil <= now + DAY)
  {
    hide CheckDigest;
  }

  datatype Verifier = Verifier(user: RotationConfig, admin: RotationConfig)

  /** newVerifierAt. */
  function NewVerifier(user: RotationConfig, admin: RotationConfig, now: int): Result<Verifier, (Class, ConfigError)> {
    match Validate(user, now)
    case Some(e) => Err((User, e))
    case None =>
      match Validate(admin, now)
      case Some(e) => Err((Admin, e))
      case None => Ok(Verifier(user, admin))
  }

  /** main.go's digest of a class that is not enabled: no bearer hashes to it. */
  const UNUSABLE: string := DIGEST_PREFIX + Text.Repeated('0', 64)

  function ConfigFor(v: Verifier, c: Class): RotationConfig {
    if c.Admin? then v.admin else v.user
  }

  datatype TokenInfo = TokenInfo(scope: string, userID: string, class_: Class, bearer: string)

  function Match(a: string, b: string): bv1 {
    if a == b then 1 else 0
  }

  /** Verifier.Verify: both comparisons are made, their bits combined. */
  function Verify(v: Verifier, hash: Hash, order: seq<Class>, now: int, raw: string,
                  required: Class): Result<TokenInfo, VerifyError>
    requires IsSum256(hash) && WalkOrder(order)
  {
    match ParseBearerClass(order, raw)
    case Err(e) => Err(e)
    case Ok(c) =>
      if c != required then Err(WrongClass)
      else
        var cfg := ConfigFor(v, c);
        var digest := DigestBearer(hash, raw);
        var currentMatch := Match(digest, cfg.current);
        var previousMatch :=
          if cfg.previous == "" then 0
          else Match(digest, cfg.previous) & (if now <= cfg.previousValidUntil then 1 else 0);
        if currentMatch | previousMatch != 1 then Err(Invalid)
        else Ok(TokenInfo(if c.Admin? then "hadron:admin" else "hadron:user", digest[|DIGEST_PREFIX|..][..16], c, raw))
  }

  /** The digests a configuration stands for at an instant. */
  function Accepted(cfg: RotationConfig, now: int): set<string> {
    {cfg.current} + if cfg.previous != "" && now <= cfg.previousValidUntil then {cfg.previous} else {}
  }

  /** Verify lets a bearer through exactly when it is a bearer of the class asked
      for and its digest is that class's current one, or its previous one until that
      expires; otherwise the first thing that is wrong decides the error. What it
      returns is the scope of the class and the first 16 digits of the digest. */
  lemma VerifyExactly(v: Verifier, hash: Hash, order: seq<Class>, now: int, raw: string, required: Class)
    requires IsSum256(hash) && WalkOrder(order)
    ensures var (r, digest) := (Verify(v, hash, order, now, raw, required), DigestBearer(hash, raw));
            var cfg := if required == Admin then v.admin else v.user;
            && (r.Ok? <==> IsBearer(required, raw)
                           && (digest == cfg.current
                               || (cfg.previous != "" && digest == cfg.previous && now <= cfg.previousValidUntil)))
            && (r == Err(Malformed) <==> forall c :: !IsBearer(c, raw))
            && (r == Err(WrongClass) <==> exists c :: IsBearer(c, raw) && c != required)
            && (r.Ok? ==> r.value == TokenInfo(if required == Admin then "hadron:admin" else "hadron:user",
                                               digest[7..23], required, raw))
  {
    ClassOfBearer(order, raw);
    var digest := DigestBearer(hash, raw);
    var cfg := ConfigFor(v, required);
    MatchBits(Match(digest, cfg.current), Match(digest, cfg.previous));
    assert digest[|DIGEST_PREFIX|..][..16] == digest[7..23];
  }

  /** Which is at most two digests. */
  lemma AcceptedExactly(cfg: RotationConfig, now: int, d: string)
    ensures d in Accepted(cfg, now) <==>
              d == cfg.current || (cfg.previous != "" && d == cfg.previous && now <= cfg.previousValidUntil)
    ensures |Accepted(cfg, now)| <= 2
  {
  }

  lemma MatchBits(a: bv1, b: bv1)
    ensures a | (b & 1) == 1 <==> a == 1 || b == 1
    ensures a | (b & 0) == 1 <==> a == 1
    ensures a | 0 == 1 <==> a == 1
  {}

  /** A configuration that was let in at now accepts one digest only from a day
      later on; of an expired or absent previous it never accepts any. */
  lemma WindowIsBounded(cfg: RotationConfig, now: int, t: int)
    requires Validate(cfg, now) == None
    ensures t > now + DAY ==> Accepted(cfg, t) == {cfg.current}
    ensures |Accepted(cfg, t)| == 2 <==> cfg.previous != "" && t <= cfg.previousValidUntil
  {
    if cfg.previous != "" && t <= cfg.previousValidUntil {
      assert Accepted(cfg, t) == {cfg.current, cfg.previous};
      assert |{cfg.current, cfg.previous} - {cfg.current}| == 1;
    } else {
      assert Accepted(cfg, t) == {cfg.current};
    }
  }
}
