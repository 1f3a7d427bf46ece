/**
 * Compact JSON Web Tokens signed with HS256: the claims the command issues, the token it builds, and
 * the decoding and checking of any token. HMAC and JSON are functions this module is given.
 */
module Jwt {
  import opened Common
  import Text
  import Base64Url

  /** A claim as JSON decoding gives it; `Numeral` is a number kept as text, with its integer value. */
  datatype Claim =
    | Number(value: real)
    | Numeral(integer: int)
    | Text(text: string)
    | Texts(items: seq<string>)
    | Other

  type Claims = map<string, Claim>

  /**
   * What the token code calls: the keyed hash of a message, JSON both ways, the reading of a number
   * from a text, and the conversion of a float that does not fit 64 bits.
   */
  datatype Host = Host(
    mac: (string, string) -> seq<Byte>,
    marshal: Claims -> seq<Byte>,
    unmarshal: seq<Byte> -> Option<Claims>,
    scan: string -> Option<int>,
    wide: real -> int)

  datatype TokenError =
    | InvalidFormat
    | HeaderDecode
    | PayloadDecode
    | HeaderJson
    | PayloadJson
    | SignatureDecode

  const HEADER: Claims := map["alg" := Text("HS256"), "typ" := Text("JWT")]

  // ---- issuing ----------------------------------------------------------------------------------

  function SigningInput(payload: Claims, h: Host): string {
    Base64Url.Encode(h.marshal(HEADER)) + "." + Base64Url.Encode(h.marshal(payload))
  }

  function Create(payload: Claims, secret: string, h: Host): string {
    var signing := SigningInput(payload, h);
    signing + "." + Base64Url.Encode(h.mac(secret, signing))
  }

  // ---- decoding and checking ------------------------------------------------------------------------

  function Decode(token: string, h: Host): Result<(Claims, Claims), TokenError> {
    var parts := Text.Split(token, '.');
    if |parts| != 3 then Err(InvalidFormat)
    else
      match (Base64Url.Decode(parts[0]), Base64Url.Decode(parts[1]))
      case (None, _) => Err(HeaderDecode)
      case (_, None) => Err(PayloadDecode)
      case (Some(hb), Some(pb)) =>
        match (h.unmarshal(hb), h.unmarshal(pb))
        case (None, _) => Err(HeaderJson)
        case (_, None) => Err(PayloadJson)
        case (Some(header), Some(payload)) => Ok((header, payload))
  }

  const TWO_63 := 0x8000_0000_0000_0000

  predicate InInt64(n: int) {
    -TWO_63 <= n < TWO_63
  }

  /** Conversion of a float to a 64-bit integer drops the fraction. */
  function ToInt64(x: real, wide: real -> int): int {
    var n := if x >= 0.0 then x.Floor else -(-x).Floor;
    if InInt64(n) then n else wide(x)
  }

  /** The seconds a claim stands for. */
  function Seconds(c: Claim, h: Host): Option<int> {
    match c
    case Number(x) => Some(ToInt64(x, h.wide))
    case Numeral(n) => Some(n)
    case Text(t) => h.scan(t)
    case _ => None
  }

  function CheckTimeClaims(p: Claims, now: int, h: Host): bool {
    && ("nbf" in p ==> Seconds(p["nbf"], h).Some? && now >= Seconds(p["nbf"], h).value)
    && ("iat" in p ==> Seconds(p["iat"], h).Some? && now >= Seconds(p["iat"], h).value)
    && ("exp" in p ==> Seconds(p["exp"], h).Some? && now < Seconds(p["exp"], h).value)
  }

  datatype Verdict = Verdict(
    sigValid: bool,
    timeValid: bool,
    computed: string,
    error: Option<TokenError>)

  function Verify(token: string, secret: string, now: int, h: Host): Verdict {
    var parts := Text.Split(token, '.');
    if |parts| != 3 then Verdict(false, false, "", Some(InvalidFormat))
    else
      var mac := h.mac(secret, parts[0] + "." + parts[1]);
      match Base64Url.Decode(parts[2])
      case None => Verdict(false, false, "", Some(SignatureDecode))
      case Some(sig) =>
        match Decode(token, h)
        case Err(e) => Verdict(sig == mac, false, Base64Url.Encode(mac), Some(e))
        case Ok(claims) =>
          Verdict(sig == mac, CheckTimeClaims(claims.1, now, h), Base64Url.Encode(mac), None)
  }

  // ---- round trip -------------------------------------------------------------------------------------

  /** JSON gives these claims back. */
  predicate Faithful(h: Host, p: Claims) {
    h.unmarshal(h.marshal(p)) == Some(p)
  }

  lemma ThreeParts(a: string, b: string, c: string)
    requires '.' !in a && '.' !in b && '.' !in c
    ensures Text.Split(a + "." + b + "." + c, '.') == [a, b, c]
  {
    assert a + "." + b + "." + c == a + ['.'] + (b + ['.'] + c);
    Text.SplitFirst(a, '.', b + ['.'] + c);
    Text.SplitFirst(b, '.', c);
    Text.SplitFirst(c, '.', []);
    assert [a] + ([b] + [c]) == [a, b, c];
  }

  /** A token has exactly three parts: the encodings of header, payload and signature. */
  lemma IssuedTokenParts(payload: Claims, secret: string, h: Host)
    ensures Text.Split(Create(payload, secret, h), '.')
            == [Base64Url.Encode(h.marshal(HEADER)), Base64Url.Encode(h.marshal(payload)),
                Base64Url.Encode(h.mac(secret, SigningInput(payload, h)))]
  {
    Base64Url.DecodeOfEncode(h.marshal(HEADER));
    Base64Url.DecodeOfEncode(h.marshal(payload));
    Base64Url.DecodeOfEncode(h.mac(secret, SigningInput(payload, h)));
    ThreeParts(Base64Url.Encode(h.marshal(HEADER)), Base64Url.Encode(h.marshal(payload)),
               Base64Url.Encode(h.mac(secret, SigningInput(payload, h))));
  }

  lemma IssuedTokenDecodes(payload: Claims, secret: string, h: Host)
    requires Faithful(h, HEADER) && Faithful(h, payload)
    ensures Decode(Create(payload, secret, h), h) == Ok((map["alg" := Text("HS256"), "typ" := Text("JWT")], payload))
  {
    IssuedTokenParts(payload, secret, h);
    Base64Url.DecodeOfEncode(h.marshal(HEADER));
    Base64Url.DecodeOfEncode(h.marshal(payload));
  }

  /**
   * An issued token is accepted under its own secret whatever that is, and its time claims are judged
   * as they were issued; under another secret exactly if the two keyed hashes coincide.
   */
  lemma IssuedTokenVerifies(payload: Claims, secret: string, other: string, now: int, h: Host)
    requires Faithful(h, HEADER) && Faithful(h, payload)
    ensures Verify(Create(payload, secret, h), secret, now, h)
            == Verdict(true, CheckTimeClaims(payload, now, h),
                       Base64Url.Encode(h.mac(secret, SigningInput(payload, h))), None)
    ensures Verify(Create(payload, secret, h), other, now, h).sigValid
            <==> h.mac(other, SigningInput(payload, h)) == h.mac(secret, SigningInput(payload, h))
  {
    IssuedTokenParts(payload, secret, h);
    IssuedTokenDecodes(payload, secret, h);
    Base64Url.DecodeOfEncode(h.mac(secret, SigningInput(payload, h)));
  }

  /**
   * Of any text whatever: its signature is valid exactly if it has three parts, the last of which decodes
   * to the keyed hash of the first two; and if anything about it cannot be read, its time is not valid.
   */
  lemma AnyTextIsJudged(token: string, secret: string, now: int, h: Host)
    ensures var parts, v := Text.Split(token, '.'), Verify(token, secret, now, h);
            && (v.sigValid <==>
                |parts| == 3 && Base64Url.Decode(parts[2]) == Some(h.mac(secret, parts[0] + "." + parts[1])))
            && (v.error == None <==> Decode(token, h).Ok? && Base64Url.Decode(parts[2]).Some?)
            && (v.error.Some? ==> !v.timeValid)
            && (|parts| != 3 <==> v.error == Some(InvalidFormat))
            && (|parts| == 3 && Base64Url.Decode(parts[2]).None? <==> v.error == Some(SignatureDecode))
  {
  }

  /** Changing header or payload after signing is noticed exactly if the keyed hash changes with it. */
  lemma TamperedTokenVerifies(payload: Claims, secret: string, a: string, b: string, now: int, h: Host)
    requires '.' !in a && '.' !in b
    ensures var sig := h.mac(secret, SigningInput(payload, h));
            var token := a + "." + b + "." + Base64Url.Encode(sig);
            Verify(token, secret, now, h).sigValid <==> h.mac(secret, a + "." + b) == sig
  {
    var sig := h.mac(secret, SigningInput(payload, h));
    Base64Url.DecodeOfEncode(sig);
    ThreeParts(a, b, Base64Url.Encode(sig));
  }

  // ---- the claims of the command ----------------------------------------------------------------------

  datatype Flags = Flags(
    userId: int,
    subject: string,
    roles: string,
    perms: string,
    ttlMin: int,
    noExpiry: bool)

  function Trimmed(s: string): string {
    Text.Trim(s, Text.IsGoSpace)
  }

  /** The items of a comma-separated list, trimmed, without the empty ones. */
  function Kept(parts: seq<string>): seq<string> {
    if parts == [] then []
    else if Trimmed(Last(parts)) == "" then Kept(Init(parts))
    else Kept(Init(parts)) + [Trimmed(Last(parts))]
  }

  function Items(list: string): seq<string> {
    Kept(Text.Split(list, ','))
  }

  lemma {:induction false} KeepsAll(parts: seq<string>)
    requires forall i :: 0 <= i < |parts| ==> parts[i] != "" && Trimmed(parts[i]) == parts[i]
    ensures Kept(parts) == parts
  {
    if parts != [] {
      KeepsAll(Init(parts));
      assert Init(parts) + [Last(parts)] == parts;
    }
  }

  /** A list of names without commas or outer space comes back from its comma-separated form. */
  lemma ItemsOfJoined(names: seq<string>)
    requires names != []
    requires forall i :: 0 <= i < |names| ==>
               names[i] != "" && Trimmed(names[i]) == names[i] && ',' !in names[i]
    ensures Items(Text.Join(names, ',')) == names
  {
    Text.SplitOfJoin(names, ',');
    KeepsAll(names);
  }

  lemma {:induction false} BlankTrims(s: string)
    ensures Trimmed(s) == "" <==> forall i :: 0 <= i < |s| ==> Text.IsGoSpace(s[i])
  {
    LeftBlank(s);
    var t := Text.TrimLeft(s, Text.IsGoSpace);
    if t != "" {
      RightKeepsFirst(t);
    }
  }

  lemma {:induction false} LeftBlank(s: string)
    ensures var t := Text.TrimLeft(s, Text.IsGoSpace);
            && (t == "" <==> forall i :: 0 <= i < |s| ==> Text.IsGoSpace(s[i]))
            && (t != "" ==> !Text.IsGoSpace(t[0]))
  {
    if s != "" {
      LeftBlank(s[1..]);
      if forall i :: 0 <= i < |s[1..]| ==> Text.IsGoSpace(s[1..][i]) {
        assert forall i :: 1 <= i < |s| ==> s[i] == s[1..][i - 1];
      } else {
        var i :| 0 <= i < |s[1..]| && !Text.IsGoSpace(s[1..][i]);
        assert s[i + 1] == s[1..][i];
      }
    }
  }

  lemma {:induction false} RightKeepsFirst(t: string)
    requires t != "" && !Text.IsGoSpace(t[0])
    ensures Text.TrimRight(t, Text.IsGoSpace) != ""
  {
    if |t| > 1 && Text.IsGoSpace(Last(t)) {
      RightKeepsFirst(Init(t));
    }
  }

  /** The guard before the list is split decides nothing: a blank list has no items. */
  lemma BlankListHasNoItems(list: string)
    requires Trimmed(list) == ""
    ensures Items(list) == []
  {
    BlankTrims(list);
    assert ',' !in list by {
      assert !Text.IsGoSpace(',');
    }
    Text.SplitFirst(list, ',', []);
    assert Init([list]) == [] && Last([list]) == list;
    assert Kept([list]) == Kept([]);
  }

  method CollectItems(list: string) returns (items: seq<string>)
    ensures items == Items(list)
  {
    items := [];
    if Trimmed(list) == "" {
      BlankListHasNoItems(list);
      return;
    }
    var parts := Text.Split(list, ',');
    var i := 0;
    while i < |parts|
      invariant 0 <= i <= |parts| && items == Kept(parts[..i])
    {
      assert Init(parts[..i + 1]) == parts[..i];
      var s := Trimmed(parts[i]);
      if s != "" {
        items := items + [s];
      }
      i := i + 1;
    }
    assert parts[..i] == parts;
  }

  const SECOND := 1_000_000_000
  const MINUTE := 60_000_000_000

  /** A product of durations wraps around at 64 bits. */
  function Wrap64(n: int): int {
    (n + TWO_63) % (2 * TWO_63) - TWO_63
  }

  /** Unix seconds of a time in nanoseconds. */
  function Unix(ns: int): int {
    ns / SECOND
  }

  function Expiry(now: int, ttlMin: int): int {
    Unix(now + Wrap64(ttlMin * MINUTE))
  }

  predicate OptionalTexts(p: Claims, key: string, items: seq<string>) {
    (key in p <==> items != []) && (key in p ==> p[key] == Texts(items))
  }

  /** Who the token is for, and when it was issued. */
  predicate IsIdentity(p: Claims, f: Flags, now: int) {
    && "iat" in p && p["iat"] == Number(Unix(now) as real)
    && ("user_id" in p <==> f.userId > 0) && (f.userId > 0 ==> p["user_id"] == Number(f.userId as real))
    && ("sub" in p <==> f.userId > 0 || f.subject != "")
    && ("sub" in p ==> p["sub"] == Text(if f.subject != "" then f.subject else Text.Decimal(f.userId)))
  }

  /** The claims of a token issued at `now` nanoseconds. */
  predicate IsPayload(p: Claims, f: Flags, now: int) {
    && p.Keys <= {"iat", "user_id", "sub", "roles", "perms", "exp"}
    && IsIdentity(p, f, now)
    && OptionalTexts(p, "roles", Items(f.roles))
    && OptionalTexts(p, "perms", Items(f.perms))
    && ("exp" in p <==> !f.noExpiry)
    && ("exp" in p ==> p["exp"] == Number(Expiry(now, f.ttlMin) as real))
  }

  method BuildIdentity(f: Flags, now: int) returns (p: Claims)
    ensures p.Keys <= {"iat", "user_id", "sub"} && IsIdentity(p, f, now)
  {
    p := map["iat" := Number(Unix(now) as real)];
    if f.userId > 0 {
      p := p["user_id" := Number(f.userId as real)];
      if f.subject == "" {
        p := p["sub" := Text(Text.Decimal(f.userId))];
      }
    }
    if f.subject != "" {
      p := p["sub" := Text(f.subject)];
    }
  }

  /** `q` is `p` and possibly a claim `key`. */
  predicate Adds(p: Claims, q: Claims, key: string) {
    && q.Keys <= p.Keys + {key}
    && forall k :: k in p ==> k in q && q[k] == p[k]
  }

  method AddItems(p: Claims, key: string, list: string) returns (q: Claims)
    requires key !in p
    ensures Adds(p, q, key) && OptionalTexts(q, key, Items(list))
  {
    q := p;
    var items := CollectItems(list);
    if items != [] {
      q := q[key := Texts(items)];
    }
  }

  method AddExpiry(p: Claims, key: string, f: Flags, now: int) returns (q: Claims)
    requires key !in p
    ensures Adds(p, q, key) && (key in q <==> !f.noExpiry)
    ensures key in q ==> q[key] == Number(Expiry(now, f.ttlMin) as real)
  {
    q := p;
    if !f.noExpiry {
      q := q[key := Number(Unix(now + Wrap64(f.ttlMin * MINUTE)) as real)];
    }
  }

  predicate IdentityKey(key: string) {
    key == "iat" || key == "user_id" || key == "sub"
  }

  lemma AddsKeepsIdentity(p: Claims, q: Claims, key: string, f: Flags, now: int)
    requires Adds(p, q, key) && IsIdentity(p, f, now) && !IdentityKey(key)
    ensures IsIdentity(q, f, now)
  {
    assert "user_id" in q ==> "user_id" in p;
    assert "sub" in q ==> "sub" in p;
  }

  lemma AddsKeepsTexts(p: Claims, q: Claims, key: string, other: string, items: seq<string>)
    requires Adds(p, q, key) && OptionalTexts(p, other, items) && other != key
    ensures OptionalTexts(q, other, items)
  {
    assert other in q ==> other in p;
  }

  method BuildPayload(f: Flags, now: int) returns (p: Claims)
    ensures IsPayload(p, f, now)
  {
    var roles, perms, exp := "roles", "perms", "exp";
    KeysAreDistinct(roles, perms, exp);
    var identity := BuildIdentity(f, now);
    var withRoles := AddItems(identity, roles, f.roles);
    AddsKeepsIdentity(identity, withRoles, roles, f, now);
    var withPerms := AddItems(withRoles, perms, f.perms);
    AddsKeepsIdentity(withRoles, withPerms, perms, f, now);
    AddsKeepsTexts(withRoles, withPerms, perms, roles, Items(f.roles));
    p := AddExpiry(withPerms, exp, f, now);
    AddsKeepsIdentity(withPerms, p, exp, f, now);
    AddsKeepsTexts(withPerms, p, exp, roles, Items(f.roles));
    AddsKeepsTexts(withPerms, p, exp, perms, Items(f.perms));
  }

  lemma KeysAreDistinct(roles: string, perms: string, exp: string)
    requires roles == "roles" && perms == "perms" && exp == "exp"
    ensures roles !in {"iat", "user_id", "sub"} && !IdentityKey(roles)
    ensures perms !in {"iat", "user_id", "sub", roles} && !IdentityKey(perms)
    ensures exp !in {"iat", "user_id", "sub", roles, perms} && !IdentityKey(exp)
  {
    assert roles[0] == 'r' && perms[0] == 'p' && exp[0] == 'e';
    assert "iat"[0] == 'i' && "user_id"[0] == 'u' && "sub"[0] == 's';
  }

  lemma WholeSeconds(now: int, k: int)
    ensures Unix(now + k * SECOND) == Unix(now) + k
  {
  }

  lemma WrapKeeps(n: int)
    ensures Wrap64(n) == n <==> InInt64(n)
    ensures !InInt64(n) ==> Wrap64(n) <= n - 2 * TWO_63 || Wrap64(n) >= n + 2 * TWO_63
  {
    var q, r := (n + TWO_63) / (2 * TWO_63), (n + TWO_63) % (2 * TWO_63);
    assert n + TWO_63 == 2 * TWO_63 * q + r;
  }

  /** The lifetime is the one asked for exactly as long as its nanoseconds fit 64 bits. */
  lemma LifetimeIsExact(now: int, ttlMin: int)
    ensures Expiry(now, ttlMin) == Unix(now) + 60 * ttlMin <==>
            -0x8000_0000_0000_0000 <= ttlMin * 60_000_000_000 < 0x8000_0000_0000_0000
  {
    var n := ttlMin * MINUTE;
    WrapKeeps(n);
    WholeSeconds(now, 60 * ttlMin);
    assert Unix(now + n) == Unix(now) + 60 * ttlMin;
  }

  lemma WholeNumberBack(n: int, wide: real -> int)
    requires InInt64(n)
    ensures ToInt64(n as real, wide) == n
  {
  }

  /**
   * What the flags put into a payload: the subject given, or else the user id in decimal, or none; the
   * user id if there is one; the names of a list as they were given; and the times.
   */
  lemma PayloadSays(p: Claims, f: Flags, now: int, roles: seq<string>)
    requires IsPayload(p, f, now)
    requires roles != [] && f.roles == Text.Join(roles, ',')
    requires forall i :: 0 <= i < |roles| ==> roles[i] != "" && Trimmed(roles[i]) == roles[i] && ',' !in roles[i]
    ensures "roles" in p && p["roles"] == Texts(roles)
    ensures Trimmed(f.perms) == "" ==> "perms" !in p
    ensures f.subject != "" ==> "sub" in p && p["sub"] == Text(f.subject)
    ensures f.subject == "" && f.userId > 0 ==> "sub" in p && p["sub"] == Text(Text.Decimal(f.userId))
    ensures f.subject == "" && f.userId <= 0 ==> "sub" !in p
    ensures if f.userId > 0 then "user_id" in p && p["user_id"] == Number(f.userId as real) else "user_id" !in p
    ensures "iat" in p && p["iat"] == Number(Unix(now) as real)
    ensures if f.noExpiry then "exp" !in p else "exp" in p && p["exp"] == Number(Expiry(now, f.ttlMin) as real)
    ensures forall key :: key in p ==> key in ["iat", "user_id", "sub", "roles", "perms", "exp"]
  {
    ItemsOfJoined(roles);
    if Trimmed(f.perms) == "" {
      BlankListHasNoItems(f.perms);
    }
  }

  /** `n` is `x` without its fraction. */
  predicate IsWholePart(x: real, n: int) {
    if x >= 0.0 then n as real <= x < (n + 1) as real else (n - 1) as real < x <= n as real
  }

  /** The whole part of `x` does not fit 64 bits. */
  predicate TooWide(x: real) {
    x >= 9_223_372_036_854_775_808.0 || x <= -9_223_372_036_854_775_809.0
  }

  /**
   * A time claim is not there, or stands for `n` seconds: as a numeral, as a text that reads so, or as a
   * number, whose fraction is dropped and which beyond 64 bits becomes what the conversion makes of it.
   */
  predicate SaysTime(p: Claims, key: string, n: Option<int>, h: Host) {
    if n.None? then key !in p
    else
      key in p &&
      match p[key]
      case Numeral(m) => m == n.value
      case Text(text) => h.scan(text) == n
      case Number(x) => if TooWide(x) then h.wide(x) == n.value else IsWholePart(x, n.value)
      case _ => false
  }

  lemma WholePartIsRead(x: real, n: int, h: Host)
    requires if TooWide(x) then h.wide(x) == n else IsWholePart(x, n)
    ensures ToInt64(x, h.wide) == n
  {
    if x >= 0.0 {
      assert x.Floor as real <= x < x.Floor as real + 1.0;
    } else {
      assert (-x).Floor as real <= -x < (-x).Floor as real + 1.0;
    }
  }

  /**
   * Any token, whoever made it: its time claims hold from its not-before and its issue on and until its
   * expiry, each only if it has that claim.
   */
  lemma AnyTokenWindow(p: Claims, nbf: Option<int>, iat: Option<int>, exp: Option<int>, secret: string, t: int,
                       h: Host)
    requires Faithful(h, HEADER) && Faithful(h, p)
    requires SaysTime(p, "nbf", nbf, h) && SaysTime(p, "iat", iat, h) && SaysTime(p, "exp", exp, h)
    ensures Verify(Create(p, secret, h), secret, t, h).timeValid
            <==> && (nbf.None? || nbf.value <= t)
                 && (iat.None? || iat.value <= t)
                 && (exp.None? || t < exp.value)
  {
    IssuedTokenVerifies(p, secret, secret, t, h);
    SaidTimeIsRead(p, "nbf", nbf, h);
    SaidTimeIsRead(p, "iat", iat, h);
    SaidTimeIsRead(p, "exp", exp, h);
  }

  lemma SaidTimeIsRead(p: Claims, key: string, n: Option<int>, h: Host)
    requires SaysTime(p, key, n, h)
    ensures n.None? ==> key !in p
    ensures n.Some? ==> key in p && Seconds(p[key], h) == n
  {
    if n.Some? && p[key].Number? {
      WholePartIsRead(p[key].value, n.value, h);
    }
  }

  /** A time claim that is no time - a list, an object, a text that does not read as a number - fails the token. */
  lemma NoTimeIsInvalid(p: Claims, key: string, secret: string, t: int, h: Host)
    requires Faithful(h, HEADER) && Faithful(h, p)
    requires key in ["nbf", "iat", "exp"] && key in p
    requires p[key].Texts? || p[key].Other? || (p[key].Text? && h.scan(p[key].text).None?)
    ensures !Verify(Create(p, secret, h), secret, t, h).timeValid
  {
    IssuedTokenVerifies(p, secret, secret, t, h);
  }

  lemma WindowOfPayload(p: Claims, f: Flags, now: int, t: int, h: Host)
    requires IsPayload(p, f, now) && InInt64(Unix(now)) && InInt64(Expiry(now, f.ttlMin))
    ensures CheckTimeClaims(p, t, h) <==> Unix(now) <= t && (f.noExpiry || t < Expiry(now, f.ttlMin))
  {
    WholeNumberBack(Unix(now), h.wide);
    WholeNumberBack(Expiry(now, f.ttlMin), h.wide);
    assert "nbf" !in p.Keys;
  }

  /**
   * A token the command issues is valid in time from its issue on and until its expiry, if it has
   * one; that is for as many minutes as asked for unless their nanoseconds overflow.
   */
  lemma IssuedTokenWindow(p: Claims, f: Flags, now: int, secret: string, t: int, h: Host)
    requires IsPayload(p, f, now) && Faithful(h, HEADER) && Faithful(h, p)
    requires InInt64(Unix(now)) && InInt64(Expiry(now, f.ttlMin))
    ensures Verify(Create(p, secret, h), secret, t, h).timeValid
            <==> Unix(now) <= t && (f.noExpiry || t < Expiry(now, f.ttlMin))
    ensures InInt64(f.ttlMin * MINUTE) ==>
              (Verify(Create(p, secret, h), secret, t, h).timeValid
               <==> Unix(now) <= t && (f.noExpiry || t < Unix(now) + 60 * f.ttlMin))
  {
    IssuedTokenVerifies(p, secret, secret, t, h);
    WindowOfPayload(p, f, now, t, h);
    LifetimeIsExact(now, f.ttlMin);
  }
}
