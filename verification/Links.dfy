/** Opaque vacancy tokens in `start` links. */
module VacancyToken {
  import opened Basics
  import opened Numerals

  const MAX_TOKEN_LEN := 64

  datatype Source = Hh | Osonish | VacancyGov

  function Name(s: Source): string {
    match s
    case Hh => "hh"
    case Osonish => "osonish"
    case VacancyGov => "vacancy_gov"
  }

  function Code(s: Source): char {
    match s
    case Hh => 'h'
    case Osonish => 'o'
    case VacancyGov => 'g'
  }

  /** `[1-9][0-9]{0,17}` */
  predicate IsId(s: string) { 1 <= |s| <= 18 && s[0] != '0' && AllDigits(s, 10) }

  predicate HasUid(uid: string, s: Source) { Name(s) + "_" <= uid && IsId(uid[|Name(s)| + 1..]) }

  function SourceOf(uid: string): Option<Source> {
    if HasUid(uid, Osonish) then Some(Osonish)
    else if HasUid(uid, Hh) then Some(Hh)
    else if HasUid(uid, VacancyGov) then Some(VacancyGov)
    else None
  }

  function IdOf(uid: string, s: Source): string
    requires HasUid(uid, s)
  {
    uid[|Name(s)| + 1..]
  }

  /** `_to_base36` */
  method ToBase36(number: nat) returns (out: string)
    ensures out == ToBase(number, 36)
  {
    out := "";
    var n := number;
    while n > 0
      invariant out == "" ==> n == number
      invariant out != "" ==> ToBase(number, 36) == (if n > 0 then ToBase(n, 36) else "") + out
    {
      NextDigit(n, out);
      out := [Digit(n % 36)] + out;
      n := n / 36;
    }
    if out == "" {
      out := "0";
    }
  }

  lemma NextDigit(n: nat, rest: string)
    ensures n / 36 == 0 ==> ToBase(n, 36) + rest == [Digit(n % 36)] + rest
    ensures n / 36 > 0 ==> ToBase(n, 36) + rest == ToBase(n / 36, 36) + ([Digit(n % 36)] + rest)
    ensures ToBase(n, 36) + "" == ToBase(n, 36)
  {
  }

  function Encode(uid: string): Option<string> {
    var s := SourceOf(uid);
    if s.None? then None
    else Some("v" + [Code(s.value)] + ToBase(FromBase(IdOf(uid, s.value), 10), 36))
  }

  function SourceForCode(c: char): Option<Source> {
    if c == 'h' then Some(Hh) else if c == 'o' then Some(Osonish) else if c == 'g' then Some(VacancyGov) else None
  }

  /** The groups of `v([hog])([0-9a-z]{1,14})`. */
  function TokenParts(token: string): Option<(Source, string)> {
    if !(3 <= |token| <= 16 && token[0] == 'v' && SourceForCode(token[1]).Some? && AllDigits(token[2..], 36)) then None
    else Some((SourceForCode(token[1]).value, token[2..]))
  }

  function UidFor(s: Source, id: string): Option<string> {
    if !IsId(id) then None else Some(Name(s) + "_" + id)
  }

  function Decode(token: string): Option<string> {
    match TokenParts(token)
    case None => None
    case Some((s, digits)) => UidFor(s, ToBase(FromBase(digits, 36), 10))
  }

  function UidFromStartParam(param: string): Option<string> {
    if param == "" || |param| > MAX_TOKEN_LEN then None
    else if "vacancy_" <= param then
      var uid := param[8..];
      if SourceOf(uid).Some? then Some(uid) else None
    else Decode(param)
  }

  lemma PowersCompare()
    ensures Pow(10, 18) <= Pow(36, 14)
  {
    assert Pow(10, 3) == 1000;
    assert Pow(10, 6) == 1_000_000;
    assert Pow(10, 9) == 1_000_000_000;
    assert Pow(10, 12) == 1_000_000_000_000;
    assert Pow(10, 15) == 1_000_000_000_000_000;
    assert Pow(10, 18) == 1_000_000_000_000_000_000;
    assert Pow(36, 2) == 1_296;
    assert Pow(36, 4) == 1_679_616;
    assert Pow(36, 6) == 2_176_782_336;
    assert Pow(36, 8) == 2_821_109_907_456;
    assert Pow(36, 10) == 3_656_158_440_062_976;
    assert Pow(36, 12) == 4_738_381_338_321_616_896;
    assert Pow(36, 14) == 4_738_381_338_321_616_896 * 1_296;
  }

  lemma {:induction false} PowGrows(b: nat, i: nat, j: nat)
    requires b >= 1 && i <= j
    ensures Pow(b, i) <= Pow(b, j)
    decreases j
  {
    if i < j {
      PowGrows(b, i, j - 1);
      MulLe(1, b, Pow(b, j - 1));
    }
  }

  /** The base-36 part of every well-formed uid fits the 14 digits a token may have. */
  lemma IdFits(id: string)
    requires IsId(id)
    ensures FromBase(id, 10) > 0 && |ToBase(FromBase(id, 10), 36)| <= 14
  {
    FromBaseBound(id, 10);
    PowGrows(10, |id|, 18);
    PowersCompare();
    ToBaseLength(FromBase(id, 10), 36, 14);
    Positive(id, 10);
  }

  lemma UidParts(uid: string, s: Source)
    requires SourceOf(uid) == Some(s)
    ensures HasUid(uid, s) && uid == Name(s) + "_" + IdOf(uid, s)
  {
    var n := |Name(s)| + 1;
    assert uid[..n] == Name(s) + "_";
    assert uid == uid[..n] + uid[n..];
  }

  function Spell(s: Source, digits: string): (token: string)
    ensures |token| == 2 + |digits| && token[0] == 'v' && token[1] == Code(s) && token[2..] == digits
  {
    "v" + [Code(s)] + digits
  }

  lemma EncodeOf(uid: string, s: Source)
    requires HasUid(uid, s)
    ensures SourceOf(uid) == Some(s)
    ensures Encode(uid) == Some(Spell(s, ToBase(FromBase(IdOf(uid, s), 10), 36)))
  {
    OneSource(uid, s);
  }

  lemma PartsOf(s: Source, digits: string)
    requires 1 <= |digits| <= 14 && AllDigits(digits, 36)
    ensures TokenParts(Spell(s, digits)) == Some((s, digits))
  {
    var token := Spell(s, digits);
    assert SourceForCode(token[1]) == Some(s);
    assert AllDigits(token[2..], 36);
  }

  lemma DecodeOf(s: Source, digits: string)
    requires 1 <= |digits| <= 14 && AllDigits(digits, 36)
    ensures Decode(Spell(s, digits)) == UidFor(s, ToBase(FromBase(digits, 36), 10))
  {
    PartsOf(s, digits);
  }

  lemma PartsSpell(token: string)
    requires TokenParts(token).Some?
    ensures var (s, digits) := TokenParts(token).value;
            token == Spell(s, digits) && digits != "" && AllDigits(digits, 36) && SourceForCode(token[1]) == Some(s)
            && digits[0] == token[2]
  {
  }

  /** One to eighteen decimal digits without a leading zero. */
  predicate DecimalId(s: string) {
    1 <= |s| <= 18 && s[0] != '0' && forall i :: 0 <= i < |s| ==> '0' <= s[i] <= '9'
  }

  /** The well-formed uids. */
  lemma UidForms(uid: string)
    ensures SourceOf(uid).Some? <==>
      || ("hh_" <= uid && DecimalId(uid[3..]))
      || ("osonish_" <= uid && DecimalId(uid[8..]))
      || ("vacancy_gov_" <= uid && DecimalId(uid[12..]))
  {
    UidForm(uid, Hh);
    UidForm(uid, Osonish);
    UidForm(uid, VacancyGov);
    assert Name(Hh) + "_" == "hh_" && Name(Osonish) + "_" == "osonish_" && Name(VacancyGov) + "_" == "vacancy_gov_";
  }

  lemma UidForm(uid: string, s: Source)
    ensures HasUid(uid, s) <==> Name(s) + "_" <= uid && DecimalId(uid[|Name(s)| + 1..])
  {
    if Name(s) + "_" <= uid {
      SameIds(uid[|Name(s)| + 1..]);
    }
  }

  /** The letter each source has in a token. */
  lemma TokenLetters(uid: string)
    requires SourceOf(uid).Some?
    ensures Encode(uid).Some? && |Encode(uid).value| > 2 && Encode(uid).value[0] == 'v'
    ensures Encode(uid).value[1] == if "hh_" <= uid then 'h' else if "osonish_" <= uid then 'o' else 'g'
  {
    var s := SourceOf(uid).value;
    UidParts(uid, s);
    EncodeOf(uid, s);
    ToBaseReadsBack(FromBase(IdOf(uid, s), 10), 36);
    assert uid[0] == Name(s)[0] && Name(Hh) + "_" == "hh_" && Name(Osonish) + "_" == "osonish_";
  }

  lemma SameIds(s: string)
    ensures IsId(s) <==> DecimalId(s)
  {
    forall i | 0 <= i < |s|
      ensures DigitValue(s[i]) < 10 <==> '0' <= s[i] <= '9'
    {
    }
  }

  /** Every well-formed uid survives its token. */
  lemma TokenRoundTrip(uid: string)
    requires SourceOf(uid).Some?
    ensures Encode(uid).Some? && Decode(Encode(uid).value) == Some(uid)
  {
    var s := SourceOf(uid).value;
    UidParts(uid, s);
    var id := IdOf(uid, s);
    IdFits(id);
    EncodeOf(uid, s);
    ToBaseReadsBack(FromBase(id, 10), 36);
    FromBaseWritesBack(id, 10);
    DecodeOf(s, ToBase(FromBase(id, 10), 36));
  }

  lemma OldForm(uid: string)
    requires SourceOf(uid).Some?
    ensures UidFromStartParam("vacancy_" + uid) == Some(uid)
  {
    var s := SourceOf(uid).value;
    UidParts(uid, s);
    assert |Name(s)| <= 11 && |uid| <= 30;
    var param := "vacancy_" + uid;
    assert param[..8] == "vacancy_" && param[8..] == uid;
  }

  lemma NewForm(token: string)
    requires 3 <= |token| <= 16 && token[1] != 'a'
    ensures UidFromStartParam(token) == Decode(token)
  {
    assert "vacancy_"[1] == 'a';
  }

  /** Both link forms of a well-formed uid parse back to it. */
  lemma LinksParseBack(uid: string)
    requires SourceOf(uid).Some?
    ensures Encode(uid).Some? && UidFromStartParam(Encode(uid).value) == Some(uid)
    ensures UidFromStartParam("vacancy_" + uid) == Some(uid)
  {
    TokenRoundTrip(uid);
    OldForm(uid);
    var token := Encode(uid).value;
    TokenShape(token);
    NewForm(token);
  }

  lemma TokenShape(token: string)
    requires Decode(token).Some?
    ensures 3 <= |token| <= 16 && token[1] != 'a'
  {
    PartsSpell(token);
  }

  /** Whatever decodes is a well-formed uid, and the token is its own spelling unless it has a leading zero. */
  lemma DecodedTokens(token: string)
    requires Decode(token).Some?
    ensures SourceOf(Decode(token).value) == SourceForCode(token[1])
    ensures Encode(Decode(token).value) == Some(token) <==> token[2] != '0'
  {
    PartsSpell(token);
    var (s, digits) := TokenParts(token).value;
    var number := FromBase(digits, 36);
    UidOf(s, ToBase(number, 10));
    ToBaseReadsBack(number, 10);
    LeadingZero(digits, ToBase(number, 10));
    SameSpelling(s, digits, ToBase(number, 36));
  }

  lemma SameSpelling(s: Source, a: string, b: string)
    ensures Spell(s, a) == Spell(s, b) <==> a == b
  {
    assert Spell(s, a)[2..] == a && Spell(s, b)[2..] == b;
  }

  lemma UidOf(s: Source, id: string)
    requires IsId(id)
    ensures var uid := Name(s) + "_" + id;
            HasUid(uid, s) && IdOf(uid, s) == id && SourceOf(uid) == Some(s)
            && Encode(uid) == Some(Spell(s, ToBase(FromBase(id, 10), 36)))
  {
    var uid := Name(s) + "_" + id;
    assert uid[..|Name(s)| + 1] == Name(s) + "_" && uid[|Name(s)| + 1..] == id;
    EncodeOf(uid, s);
  }

  lemma LeadingZero(digits: string, id: string)
    requires digits != "" && AllDigits(digits, 36) && id == ToBase(FromBase(digits, 36), 10) && IsId(id)
    ensures ToBase(FromBase(digits, 36), 36) == digits <==> digits[0] != '0'
  {
    ToBaseReadsBack(FromBase(digits, 36), 36);
    ToBaseReadsBack(FromBase(digits, 36), 10);
    Positive(id, 10);
    if digits[0] != '0' {
      FromBaseWritesBack(digits, 36);
    }
  }

  lemma OneSource(uid: string, s: Source)
    requires HasUid(uid, s)
    ensures SourceOf(uid) == Some(s)
  {
    assert uid[0] == Name(s)[0];
    forall other | HasUid(uid, other)
      ensures other == s
    {
      assert uid[0] == Name(other)[0];
    }
  }
}

/** Personal signed links of the bot's keyboards. */
module BotLink {
  import opened Basics
  import opened Base64Url

  const VERSION := 1
  const TTL_SECONDS := 7 * 86_400
  const SKEW_SECONDS := 60
  const TOKEN_LENGTH := 39
  const MAX_USER_ID := 0x1F_FFFF_FFFF_FFFF

  /** The first 16 bytes of the MAC. */
  type Tag = t: seq<Byte> | |t| == 16 witness seq(16, _ => 0)

  /** The keyed MAC under a secret, left uninterpreted. */
  type Mac = (string, seq<Byte>) -> Tag

  datatype Link = Link(userId: int, issuedAt: int, expiresAt: int)

  /** `n` in `width` bytes, most significant first. */
  function BigEndian(n: nat, width: nat): (b: seq<Byte>)
    ensures |b| == width
  {
    if width == 0 then [] else BigEndian(n / 256, width - 1) + [n % 256]
  }

  function FromBigEndian(b: seq<Byte>): nat {
    if b == [] then 0 else FromBigEndian(b[..|b| - 1]) * 256 + b[|b| - 1]
  }

  lemma {:induction false} ReadsBack(n: nat, width: nat)
    requires n < Pow(256, width)
    ensures FromBigEndian(BigEndian(n, width)) == n
  {
    if width > 0 {
      ReadsBack(n / 256, width - 1);
      assert BigEndian(n, width)[..width - 1] == BigEndian(n / 256, width - 1);
    }
  }

  lemma {:induction false} WritesBack(b: seq<Byte>)
    ensures BigEndian(FromBigEndian(b), |b|) == b
  {
    if b != [] {
      WritesBack(b[..|b| - 1]);
      assert b == b[..|b| - 1] + [b[|b| - 1]];
    }
  }

  function Payload(userId: nat, issuedAt: nat): (p: seq<Byte>)
    ensures |p| == 13
  {
    [VERSION] + BigEndian(userId, 8) + BigEndian(issuedAt, 4)
  }

  function Token(mac: Mac, secret: string, payload: seq<Byte>): string {
    Base64Url.Encode(payload + mac(secret, payload))
  }

  /** None where the source raises ValueError. */
  function Sign(mac: Mac, secret: string, userId: int, issuedAt: int): Option<string> {
    if !(1 <= userId <= MAX_USER_ID) || secret == "" || !(0 < issuedAt <= 0xFFFF_FFFF) then None
    else Some(Token(mac, secret, Payload(userId, issuedAt)))
  }

  function Verify(mac: Mac, secret: string, token: string, now: int): Option<Link> {
    if secret == "" || |token| != TOKEN_LENGTH || !AllSymbols(token) then None
    else
      var decoded := Base64Url.Decode(token);
      if decoded.None? || |decoded.value| != 29 || Base64Url.Encode(decoded.value) != token then None
      else
        var payload, tag := decoded.value[..13], decoded.value[13..];
        if payload[0] != VERSION || mac(secret, payload) != tag then None
        else
          var userId, issuedAt := FromBigEndian(payload[1..9]), FromBigEndian(payload[9..]);
          if !(1 <= userId <= MAX_USER_ID) || issuedAt > now + SKEW_SECONDS || now >= issuedAt + TTL_SECONDS then None
          else Some(Link(userId, issuedAt, issuedAt + TTL_SECONDS))
  }

  lemma Widths()
    ensures MAX_USER_ID < Pow(256, 8) && 0xFFFF_FFFF < Pow(256, 4)
  {
    assert Pow(256, 2) == 0x1_0000;
    assert Pow(256, 4) == 0x1_0000_0000;
    assert Pow(256, 6) == 0x1_0000_0000_0000;
    assert Pow(256, 8) == 0x1_0000_0000_0000_0000;
  }

  lemma PayloadReadsBack(userId: nat, issuedAt: nat)
    requires userId <= MAX_USER_ID && issuedAt <= 0xFFFF_FFFF
    ensures var p := Payload(userId, issuedAt);
            p[0] == VERSION && FromBigEndian(p[1..9]) == userId && FromBigEndian(p[9..]) == issuedAt
  {
    Widths();
    ReadsBack(userId, 8);
    ReadsBack(issuedAt, 4);
    var p := Payload(userId, issuedAt);
    assert p[1..9] == BigEndian(userId, 8);
    assert p[9..] == BigEndian(issuedAt, 4);
  }

  /** Which links can be signed, and the 29 bytes of one: version 1, user, date, and the MAC of these. */
  lemma SignedLayout(mac: Mac, secret: string, userId: int, issuedAt: int)
    ensures Sign(mac, secret, userId, issuedAt).Some? <==>
      secret != "" && 1 <= userId < 9_007_199_254_740_992 && 1 <= issuedAt < 4_294_967_296
    ensures Sign(mac, secret, userId, issuedAt).Some? ==>
      var token := Sign(mac, secret, userId, issuedAt).value;
      |token| == 39 && Base64Url.Decode(token).Some? &&
      var raw := Base64Url.Decode(token).value;
      && |raw| == 29 && raw[0] == 1 && FromBigEndian(raw[1..9]) == userId && FromBigEndian(raw[9..13]) == issuedAt
      && raw[13..] == mac(secret, raw[..13])
  {
    if Sign(mac, secret, userId, issuedAt).Some? {
      var payload := Payload(userId, issuedAt);
      var raw := payload + mac(secret, payload);
      Base64Url.DecodeInvertsEncode(raw);
      Base64Url.EncodedLength(raw);
      PayloadReadsBack(userId, issuedAt);
      assert raw[..13] == payload && raw[13..] == mac(secret, payload);
      assert raw[1..9] == payload[1..9] && raw[9..13] == payload[9..];
    }
  }

  /** A signed link verifies to its user and dates exactly while it is valid. */
  lemma SignedLinksVerify(mac: Mac, secret: string, userId: int, issuedAt: int, now: int)
    requires Sign(mac, secret, userId, issuedAt).Some?
    ensures Verify(mac, secret, Sign(mac, secret, userId, issuedAt).value, now)
         == if issuedAt - 60 <= now < issuedAt + 604_800 then Some(Link(userId, issuedAt, issuedAt + 604_800)) else None
  {
    var payload := Payload(userId, issuedAt);
    var raw := payload + mac(secret, payload);
    Base64Url.DecodeInvertsEncode(raw);
    Base64Url.EncodedLength(raw);
    PayloadReadsBack(userId, issuedAt);
    assert raw[..13] == payload && raw[13..] == mac(secret, payload);
  }

  /** An accepted token is the one spelling of its payload: what signing that user and date gives. */
  lemma AcceptedTokensAreSigned(mac: Mac, secret: string, token: string, now: int)
    requires Verify(mac, secret, token, now).Some?
    ensures var link := Verify(mac, secret, token, now).value;
            && secret != "" && 1 <= link.userId < 9_007_199_254_740_992
            && 0 <= link.issuedAt && link.expiresAt == link.issuedAt + 604_800
            && link.issuedAt - 60 <= now < link.expiresAt
            && token == Token(mac, secret, Payload(link.userId, link.issuedAt))
            && (link.issuedAt > 0 ==> Sign(mac, secret, link.userId, link.issuedAt) == Some(token))
  {
    var raw := Base64Url.Decode(token).value;
    var payload := raw[..13];
    var link := Verify(mac, secret, token, now).value;
    WritesBack(payload[1..9]);
    WritesBack(payload[9..]);
    assert payload == [VERSION] + payload[1..9] + payload[9..];
    assert payload == Payload(link.userId, link.issuedAt);
    assert raw == payload + raw[13..];
    FourByteBound(payload[9..]);
  }

  lemma {:induction false} BelowPower(b: seq<Byte>)
    ensures FromBigEndian(b) < Pow(256, |b|)
  {
    if b != [] {
      BelowPower(b[..|b| - 1]);
    }
  }

  lemma FourByteBound(b: seq<Byte>)
    requires |b| == 4
    ensures FromBigEndian(b) <= 0xFFFF_FFFF
  {
    BelowPower(b);
    assert Pow(256, 2) == 0x1_0000;
    assert Pow(256, 4) == 0x1_0000_0000;
  }

  /** The derived key of the last secret, kept between calls. */
  class KeyCache {
    const derive: string -> seq<Byte>
    var cached: Option<(string, seq<Byte>)>

    ghost predicate Valid()
      reads this
    {
      cached.Some? ==> cached.value.1 == derive(cached.value.0)
    }

    constructor (derive: string -> seq<Byte>)
      ensures Valid() && this.derive == derive
    {
      this.derive := derive;
      cached := None;
    }

    method DeriveKey(secret: string) returns (key: seq<Byte>)
      requires Valid()
      modifies this
      ensures Valid() && key == derive(secret) && cached == Some((secret, key))
    {
      if cached.Some? && cached.value.0 == secret {
        return cached.value.1;
      }
      key := derive(secret);
      cached := Some((secret, key));
    }
  }
}
