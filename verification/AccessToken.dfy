/** Building, parsing and verifying a Token007 string: round trip, truncation and canonical form. */
module AccessToken {
  import opened Wrappers
  import opened TokenBytes
  import opened TokenServices

  // ----- service order -----

  function OnlyIf(s: Service, kind: u16): seq<Service> {
    if TypeOf(s) == kind then [s] else []
  }

  /** GetServices: the services of one type in list order. */
  function OfType(ss: seq<Service>, kind: u16): seq<Service> {
    if ss == [] then [] else OnlyIf(ss[0], kind) + OfType(ss[1..], kind)
  }

  ghost predicate SameByType(a: seq<Service>, b: seq<Service>) {
    forall kind: u16 :: OfType(a, kind) == OfType(b, kind)
  }

  function InsertByType(s: Service, ss: seq<Service>): seq<Service> {
    if ss == [] || TypeOf(s) <= TypeOf(ss[0]) then [s] + ss else [ss[0]] + InsertByType(s, ss[1..])
  }

  /** The services in stable type order. */
  function ForPacking(ss: seq<Service>): seq<Service> {
    if ss == [] then [] else InsertByType(ss[0], ForPacking(ss[1..]))
  }

  predicate SortedByType(ss: seq<Service>) {
    forall i, j :: 0 <= i < j < |ss| ==> TypeOf(ss[i]) <= TypeOf(ss[j])
  }

  lemma {:induction false} InsertKeepsOrder(s: Service, ss: seq<Service>)
    requires SortedByType(ss)
    ensures SortedByType(InsertByType(s, ss)) && |InsertByType(s, ss)| == |ss| + 1
    ensures forall x :: x in InsertByType(s, ss) <==> x == s || x in ss
  {
    if ss != [] && TypeOf(s) > TypeOf(ss[0]) {
      InsertKeepsOrder(s, ss[1..]);
      var tail := InsertByType(s, ss[1..]);
      assert ss == [ss[0]] + ss[1..];
      forall i | 0 <= i < |tail|
        ensures TypeOf(ss[0]) <= TypeOf(tail[i])
      {
        assert tail[i] in tail;
      }
    }
  }

  /** Inserting before equals keeps the order within each type. */
  lemma {:induction false} InsertIsStable(s: Service, ss: seq<Service>, kind: u16)
    ensures OfType(InsertByType(s, ss), kind) == OnlyIf(s, kind) + OfType(ss, kind)
  {
    if ss == [] || TypeOf(s) <= TypeOf(ss[0]) {
      OfTypeCons(s, ss, kind);
    } else {
      InsertIsStable(s, ss[1..], kind);
      OfTypeCons(ss[0], InsertByType(s, ss[1..]), kind);
      assert OfType(ss, kind) == OnlyIf(ss[0], kind) + OfType(ss[1..], kind);
    }
  }

  lemma OfTypeCons(s: Service, ss: seq<Service>, kind: u16)
    ensures OfType([s] + ss, kind) == OnlyIf(s, kind) + OfType(ss, kind)
  {
    assert ([s] + ss)[1..] == ss;
  }

  lemma {:induction false} ForPackingSorted(ss: seq<Service>)
    ensures SortedByType(ForPacking(ss)) && |ForPacking(ss)| == |ss|
    ensures forall x :: x in ForPacking(ss) <==> x in ss
  {
    if ss != [] {
      ForPackingSorted(ss[1..]);
      InsertKeepsOrder(ss[0], ForPacking(ss[1..]));
      assert ss == [ss[0]] + ss[1..];
    }
  }

  lemma {:induction false} ForPackingStable(ss: seq<Service>, kind: u16)
    ensures OfType(ForPacking(ss), kind) == OfType(ss, kind)
  {
    if ss != [] {
      ForPackingStable(ss[1..], kind);
      InsertIsStable(ss[0], ForPacking(ss[1..]), kind);
    }
  }

  lemma ForPackingFacts(ss: seq<Service>)
    ensures SortedByType(ForPacking(ss)) && |ForPacking(ss)| == |ss|
    ensures forall x :: x in ForPacking(ss) <==> x in ss
    ensures SameByType(ForPacking(ss), ss)
  {
    ForPackingSorted(ss);
    forall kind: u16
      ensures OfType(ForPacking(ss), kind) == OfType(ss, kind)
    {
      ForPackingStable(ss, kind);
    }
  }

  lemma {:induction false} OfTypeMember(ss: seq<Service>, i: nat)
    requires i < |ss|
    ensures OfType(ss, TypeOf(ss[i])) != []
  {
    if i > 0 {
      OfTypeMember(ss[1..], i - 1);
    }
  }

  lemma {:induction false} OfTypeFrom(ss: seq<Service>, kind: u16)
    ensures OfType(ss, kind) != [] ==> exists i :: 0 <= i < |ss| && TypeOf(ss[i]) == kind
  {
    if ss != [] && TypeOf(ss[0]) != kind {
      OfTypeFrom(ss[1..], kind);
      if OfType(ss, kind) != [] {
        var i :| 0 <= i < |ss[1..]| && TypeOf(ss[1..][i]) == kind;
        assert TypeOf(ss[i + 1]) == kind;
      }
    }
  }

  lemma SameHead(a: seq<Service>, b: seq<Service>)
    requires SortedByType(a) && SortedByType(b) && a != [] && b != []
    requires SameByType(a, b)
    ensures a[0] == b[0]
  {
    OfTypeMember(a, 0);
    OfTypeFrom(b, TypeOf(a[0]));
    OfTypeMember(b, 0);
    OfTypeFrom(a, TypeOf(b[0]));
    assert TypeOf(a[0]) == TypeOf(b[0]);
    assert OfType(a, TypeOf(a[0]))[0] == a[0] && OfType(b, TypeOf(b[0]))[0] == b[0];
  }

  /** A type-sorted list is determined by its per-type lists, so the stable order is the only one. */
  lemma {:induction false} SortedIsDetermined(a: seq<Service>, b: seq<Service>)
    requires SortedByType(a) && SortedByType(b)
    requires SameByType(a, b)
    ensures a == b
  {
    if a == [] {
      if b != [] {
        OfTypeMember(b, 0);
      }
    } else if b == [] {
      OfTypeMember(a, 0);
    } else {
      SameHead(a, b);
      forall kind: u16
        ensures OfType(a[1..], kind) == OfType(b[1..], kind)
      {
        var head := OnlyIf(a[0], kind);
        assert OfType(a, kind) == head + OfType(a[1..], kind);
        assert OfType(b, kind) == head + OfType(b[1..], kind);
        assert OfType(a[1..], kind) == OfType(a, kind)[|head|..];
        assert OfType(b[1..], kind) == OfType(b, kind)[|head|..];
      }
      SortedIsDetermined(a[1..], b[1..]);
      assert a == [a[0]] + a[1..] && b == [b[0]] + b[1..];
    }
  }

  // ----- the service list -----

  function PackServices(ss: seq<Service>): Bytes {
    if ss == [] then [] else Pack(ss[0]) + PackServices(ss[1..])
  }

  /** The parsed services, and whether the list was read to its end or stopped at an unknown type. */
  datatype Listed = Listed(services: seq<Service>, complete: bool)

  function ReadServices(n: nat, bs: Bytes): Parsed<Listed> {
    if n == 0 then Ok(Listed([], true), bs)
    else
      var kind := ReadU16(bs);
      if kind.Fail? then Fail
      else if !KnownType(kind.value) then Ok(Listed([], false), kind.rest)
      else
        var service := ReadBody(kind.value, kind.rest);
        if service.Fail? then Fail else
        var tail := ReadServices(n - 1, service.rest);
        if tail.Fail? then Fail
        else Ok(Listed([service.value] + tail.value.services, tail.value.complete), tail.rest)
  }

  /** What a receiver understands of a list: everything up to the first unknown type. */
  function Understood(ss: seq<Service>): seq<Service> {
    if ss == [] || !KnownType(TypeOf(ss[0])) then [] else [Received(ss[0])] + Understood(ss[1..])
  }

  predicate PackableOne(s: Service) {
    Fits(s) && (s.Plain? ==> !KnownType(s.kind))
  }

  /** Services a token may carry: the eight kinds, or a plain one whose type number is not theirs. */
  predicate Packable(ss: seq<Service>) {
    forall s :: s in ss ==> PackableOne(s)
  }

  predicate NothingEmpty(ss: seq<Service>) {
    forall s :: s in ss && s.Rtm2? ==> NoEmptyInner(s.permissions)
  }

  predicate AllKnown(ss: seq<Service>) {
    forall s :: s in ss ==> Known(s)
  }

  lemma PackFirst(ss: seq<Service>, rest: Bytes)
    requires ss != []
    ensures PackServices(ss) + rest == PackU16(TypeOf(ss[0])) + (PackBody(ss[0]) + (PackServices(ss[1..]) + rest))
  {
    Assoc3(PackU16(TypeOf(ss[0])), PackBody(ss[0]), PackServices(ss[1..]), rest);
  }

  lemma KnownFirst(ss: seq<Service>, rest: Bytes)
    requires ss != [] && Known(ss[0]) && Fits(ss[0])
    requires ReadServices(|ss| - 1, PackServices(ss[1..]) + rest).Ok?
    ensures
      var p := ReadServices(|ss| - 1, PackServices(ss[1..]) + rest);
      ReadServices(|ss|, PackServices(ss) + rest)
        == Ok(Listed([Received(ss[0])] + p.value.services, p.value.complete), p.rest)
  {
    hide ReadU16, PackU16, ReadBody, PackBody, PackServices;
    var tail := PackServices(ss[1..]) + rest;
    PackFirst(ss, rest);
    U16RoundTrip(TypeOf(ss[0]), PackBody(ss[0]) + tail);
    BodyRoundTrip(ss[0], tail);
  }

  lemma UnknownFirst(ss: seq<Service>, rest: Bytes)
    requires ss != [] && !KnownType(TypeOf(ss[0]))
    ensures ReadServices(|ss|, PackServices(ss) + rest).Ok?
    ensures ReadServices(|ss|, PackServices(ss) + rest).value == Listed([], false)
  {
    PackFirst(ss, rest);
    U16RoundTrip(TypeOf(ss[0]), PackBody(ss[0]) + (PackServices(ss[1..]) + rest));
  }

  lemma ListCons(ss: seq<Service>)
    requires ss != []
    ensures AllKnown(ss) <==> Known(ss[0]) && AllKnown(ss[1..])
    ensures Packable(ss) <==> PackableOne(ss[0]) && Packable(ss[1..])
    ensures NothingEmpty(ss) <==> (ss[0].Rtm2? ==> NoEmptyInner(ss[0].permissions)) && NothingEmpty(ss[1..])
  {
    assert ss == [ss[0]] + ss[1..];
  }

  lemma NoServices(rest: Bytes)
    ensures ReadServices(0, PackServices([]) + rest) == Ok(Listed([], true), rest)
  {
    assert PackServices([]) + rest == rest;
  }

  /** A packed list reads back up to its first unknown type, and to its end if there is none. */
  lemma {:induction false} ServicesRoundTrip(ss: seq<Service>, rest: Bytes)
    requires Packable(ss)
    ensures ReadServices(|ss|, PackServices(ss) + rest).Ok?
    ensures ReadServices(|ss|, PackServices(ss) + rest).value == Listed(Understood(ss), AllKnown(ss))
    ensures AllKnown(ss) ==> ReadServices(|ss|, PackServices(ss) + rest).rest == rest
  {
    hide ReadServices, PackServices, Received, Fits;
    if ss == [] {
      NoServices(rest);
    } else {
      ListCons(ss);
      if Known(ss[0]) {
        ServicesRoundTrip(ss[1..], rest);
        KnownFirst(ss, rest);
      } else {
        UnknownFirst(ss, rest);
      }
    }
  }

  lemma {:induction false} ServicesExtend(n: nat, bs: Bytes, more: Bytes)
    requires ReadServices(n, bs).Ok?
    ensures ReadServices(n, bs + more) == Ok(ReadServices(n, bs).value, ReadServices(n, bs).rest + more)
  {
    hide ReadU16, ReadBody;
    if n > 0 {
      U16Extends(bs, more);
      var kind := ReadU16(bs);
      if KnownType(kind.value) {
        BodyExtends(kind.value, kind.rest, more);
        ServicesExtend(n - 1, ReadBody(kind.value, kind.rest).rest, more);
      }
    }
  }

  // ----- the signed part and the raw token -----

  datatype Header = Header(appId: Bytes, issueTs: u32, expire: u32, salt: u32)

  datatype Token = Token(header: Header, services: seq<Service>)

  function PackHeader(h: Header): Bytes {
    PackString(h.appId) + PackU32(h.issueTs) + (PackU32(h.expire) + PackU32(h.salt))
  }

  function ReadHeader(bs: Bytes): Parsed<Header> {
    var appId := ReadString(bs);
    if appId.Fail? then Fail else
    var issueTs := ReadU32(appId.rest);
    if issueTs.Fail? then Fail else
    var expire := ReadU32(issueTs.rest);
    if expire.Fail? then Fail else
    var salt := ReadU32(expire.rest);
    if salt.Fail? then Fail else
    Ok(Header(appId.value, issueTs.value, expire.value, salt.value), salt.rest)
  }

  lemma HeaderRoundTrip(h: Header, rest: Bytes)
    requires |h.appId| < LIMIT16
    ensures ReadHeader(PackHeader(h) + rest) == Ok(h, rest)
  {
    var last := PackU32(h.expire) + PackU32(h.salt);
    Assoc3(PackString(h.appId), PackU32(h.issueTs), last, rest);
    Assoc(PackU32(h.expire), PackU32(h.salt), rest);
    StringRoundTrip(h.appId, PackU32(h.issueTs) + (last + rest));
    U32RoundTrip(h.issueTs, last + rest);
    U32RoundTrip(h.expire, PackU32(h.salt) + rest);
    U32RoundTrip(h.salt, rest);
  }

  lemma HeaderExtends(bs: Bytes, more: Bytes)
    requires ReadHeader(bs).Ok?
    ensures ReadHeader(bs + more) == Ok(ReadHeader(bs).value, ReadHeader(bs).rest + more)
  {
    StringExtends(bs, more);
    var r1 := ReadString(bs).rest;
    U32Extends(r1, more);
    U32Extends(ReadU32(r1).rest, more);
    U32Extends(ReadU32(ReadU32(r1).rest).rest, more);
  }

  function PackCounted(ss: seq<Service>): Bytes {
    PackU16(|ss| % LIMIT16) + PackServices(ss)
  }

  /** The bytes that are signed. */
  function SigningInfo(t: Token): Bytes {
    PackHeader(t.header) + PackCounted(ForPacking(t.services))
  }

  function ReadCounted(bs: Bytes): Parsed<Listed> {
    match ReadU16(bs)
    case Fail => Fail
    case Ok(n, rest) => ReadServices(n, rest)
  }

  lemma CountedExtends(bs: Bytes, more: Bytes)
    requires ReadCounted(bs).Ok?
    ensures ReadCounted(bs + more) == Ok(ReadCounted(bs).value, ReadCounted(bs).rest + more)
  {
    U16Extends(bs, more);
    ServicesExtend(ReadU16(bs).value, ReadU16(bs).rest, more);
  }

  datatype Decoded = Decoded(signature: Bytes, signingInfo: Bytes, header: Header, services: seq<Service>, complete: bool)

  datatype Info = Info(header: Header, listed: Listed)

  function ReadInfo(info: Bytes): Parsed<Info> {
    var header := ReadHeader(info);
    if header.Fail? then Fail else
    var listed := ReadCounted(header.rest);
    if listed.Fail? then Fail else Ok(Info(header.value, listed.value), listed.rest)
  }

  /** The signature, then the signed bytes: everything after it, trailing bytes included. */
  function ReadRaw(raw: Bytes): Parsed<Decoded> {
    var signature := ReadString(raw);
    if signature.Fail? then Fail else
    var info := ReadInfo(signature.rest);
    if info.Fail? then Fail else
    Ok(Decoded(signature.value, signature.rest, info.value.header, info.value.listed.services, info.value.listed.complete), info.rest)
  }

  lemma CountedRoundTrip(ss: seq<Service>)
    requires Packable(ss) && |ss| < LIMIT16
    ensures ReadCounted(PackCounted(ss)).Ok?
    ensures ReadCounted(PackCounted(ss)).value == Listed(Understood(ss), AllKnown(ss))
    ensures AllKnown(ss) ==> ReadCounted(PackCounted(ss)).rest == []
  {
    hide ReadServices, PackServices, ReadU16, PackU16, Packable, AllKnown, Understood;
    CountRoundTrip(|ss|, PackServices(ss), []);
    ServicesRoundTrip(ss, []);
    assert PackCounted(ss) + [] == PackCounted(ss);
  }

  /** Everything a token can carry within its two-byte lengths. */
  predicate TokenFits(t: Token) {
    && |t.header.appId| < LIMIT16 && |t.services| < LIMIT16 && Packable(t.services)
  }

  lemma SortedPackable(ss: seq<Service>)
    requires Packable(ss)
    ensures Packable(ForPacking(ss)) && |ForPacking(ss)| == |ss|
    ensures AllKnown(ForPacking(ss)) <==> AllKnown(ss)
  {
    ForPackingSorted(ss);
  }

  lemma InfoRoundTrip(t: Token)
    requires TokenFits(t)
    ensures ReadInfo(SigningInfo(t)).Ok?
    ensures ReadInfo(SigningInfo(t)).value == Info(t.header, Listed(Understood(ForPacking(t.services)), AllKnown(t.services)))
    ensures AllKnown(t.services) ==> ReadInfo(SigningInfo(t)).rest == []
  {
    hide ReadHeader, PackHeader, ReadCounted, PackCounted, ForPacking, Understood, AllKnown;
    var ss := ForPacking(t.services);
    SortedPackable(t.services);
    HeaderRoundTrip(t.header, PackCounted(ss));
    CountedRoundTrip(ss);
  }

  lemma RawRoundTrip(signature: Bytes, t: Token)
    requires TokenFits(t) && |signature| < LIMIT16
    ensures
      var p := ReadRaw(PackString(signature) + SigningInfo(t));
      && p.Ok?
      && p.value == Decoded(signature, SigningInfo(t), t.header, Understood(ForPacking(t.services)), AllKnown(t.services))
      && (AllKnown(t.services) ==> p.rest == [])
  {
    hide ReadString, PackString, ReadInfo, SigningInfo, ForPacking, Understood, AllKnown;
    StringRoundTrip(signature, SigningInfo(t));
    InfoRoundTrip(t);
  }

  lemma InfoExtends(info: Bytes, more: Bytes)
    requires ReadInfo(info).Ok?
    ensures ReadInfo(info + more) == Ok(ReadInfo(info).value, ReadInfo(info).rest + more)
  {
    HeaderExtends(info, more);
    CountedExtends(ReadHeader(info).rest, more);
  }

  /** A raw token stays readable when bytes are appended; they only join the signed part. */
  lemma RawExtends(raw: Bytes, more: Bytes)
    requires ReadRaw(raw).Ok?
    ensures ReadRaw(raw + more) ==
      Ok(ReadRaw(raw).value.(signingInfo := ReadRaw(raw).value.signingInfo + more), ReadRaw(raw).rest + more)
  {
    StringExtends(raw, more);
    InfoExtends(ReadString(raw).rest, more);
  }

  lemma Split(raw: Bytes, k: nat)
    requires k <= |raw|
    ensures raw[..k] + raw[k..] == raw
  {
  }

  /** A prefix of a raw token is accepted only when it covers everything the full parse consumed. */
  lemma AcceptedPrefixCoversParse(raw: Bytes, k: nat)
    requires k <= |raw| && ReadRaw(raw[..k]).Ok?
    ensures ReadRaw(raw).Ok? && |raw| - |ReadRaw(raw).rest| <= k
  {
    RawExtends(raw[..k], raw[k..]);
    Split(raw, k);
  }

  /** Every strict prefix of the raw bytes of a token with known services is rejected. */
  lemma TruncationIsRejected(signature: Bytes, t: Token, k: nat)
    requires TokenFits(t) && AllKnown(t.services) && |signature| < LIMIT16
    ensures
      var raw := PackString(signature) + SigningInfo(t);
      k < |raw| ==> ReadRaw(raw[..k]).Fail?
  {
    hide ReadRaw, SigningInfo, PackString;
    var raw := PackString(signature) + SigningInfo(t);
    RawRoundTrip(signature, t);
    if k < |raw| && ReadRaw(raw[..k]).Ok? {
      AcceptedPrefixCoversParse(raw, k);
    }
  }

  // ----- signing, compression and text -----

  /** HMAC-SHA-256 (section 2 of RFC 2104), zlib (section 2.2 of RFC 1950) and Base64 (section 4 of
      RFC 4648), of which only the stated equations are used. */
  datatype Crypto = Crypto(
    hmac: (Bytes, Bytes) -> Bytes,
    deflate: Bytes -> Bytes,
    inflate: Bytes -> Option<Bytes>,
    encode64: Bytes -> Bytes,
    decode64: Bytes -> Option<Bytes>)
  {
    ghost predicate Valid() {
      && (forall key, message :: |hmac(key, message)| == 32)
      && (forall bs :: inflate(deflate(bs)) == Some(bs))
      && (forall bs :: decode64(encode64(bs)) == Some(bs))
    }
  }

  const VERSION: Bytes := [48, 48, 55]

  predicate IsUuid(s: Bytes) {
    |s| == 32 && forall i :: 0 <= i < 32 ==> 48 <= s[i] <= 57 || 65 <= s[i] <= 70 || 97 <= s[i] <= 102
  }

  /** The signing key: the certificate keyed by the timestamp, then keyed by the salt. */
  function SigningKey(c: Crypto, h: Header, cert: Bytes): Bytes {
    c.hmac(PackU32(h.salt), c.hmac(PackU32(h.issueTs), cert))
  }

  function Signature(c: Crypto, h: Header, cert: Bytes, info: Bytes): Bytes {
    c.hmac(SigningKey(c, h, cert), info)
  }

  /** The application and the certificate look like UUIDs and there is a service to grant. */
  predicate Buildable(t: Token, cert: Bytes) {
    IsUuid(t.header.appId) && IsUuid(cert) && t.services != []
  }

  function Build(c: Crypto, t: Token, cert: Bytes): Option<Bytes> {
    if !Buildable(t, cert) then None
    else
      var info := SigningInfo(t);
      var raw := PackString(Signature(c, t.header, cert, info)) + info;
      Some(VERSION + c.encode64(c.deflate(raw)))
  }

  function Parse(c: Crypto, token: Bytes): Option<Decoded> {
    if |token| < 3 || token[..3] != VERSION then None
    else match c.decode64(token[3..])
      case None => None
      case Some(zipped) =>
        match c.inflate(zipped)
        case None => None
        case Some(raw) =>
          match ReadRaw(raw)
          case Fail => None
          case Ok(decoded, _) => Some(decoded)
  }

  /** None is the error of a token that cannot be checked. */
  function VerifySignature(c: Crypto, d: Decoded, cert: Bytes): Option<bool> {
    if d.signature == [] || d.signingInfo == [] || !IsUuid(d.header.appId) || !IsUuid(cert) then None
    else Some(d.signature == Signature(c, d.header, cert, d.signingInfo))
  }

  /** What Parse must return for a token that Build produced. */
  function Expected(c: Crypto, t: Token, cert: Bytes): Decoded {
    Decoded(Signature(c, t.header, cert, SigningInfo(t)), SigningInfo(t), t.header,
            Understood(ForPacking(t.services)), AllKnown(t.services))
  }

  lemma ParseBuild(c: Crypto, t: Token, cert: Bytes)
    requires c.Valid() && Buildable(t, cert) && TokenFits(t)
    ensures Parse(c, Build(c, t, cert).value) == Some(Expected(c, t, cert))
  {
    var info := SigningInfo(t);
    var signature := Signature(c, t.header, cert, info);
    var raw := PackString(signature) + info;
    var token := VERSION + c.encode64(c.deflate(raw));
    assert token[..3] == VERSION && token[3..] == c.encode64(c.deflate(raw));
    RawRoundTrip(signature, t);
  }

  lemma {:induction false} UnderstoodIsAll(ss: seq<Service>)
    requires Packable(ss) && AllKnown(ss) && NothingEmpty(ss)
    ensures Understood(ss) == ss
  {
    if ss != [] {
      ListCons(ss);
      assert KnownType(TypeOf(ss[0])) && Received(ss[0]) == ss[0];
      UnderstoodIsAll(ss[1..]);
      assert ss == [ss[0]] + ss[1..];
    }
  }

  lemma ServicesSurvive(ss: seq<Service>)
    requires Packable(ss) && AllKnown(ss) && NothingEmpty(ss)
    ensures Understood(ForPacking(ss)) == ForPacking(ss)
  {
    ForPackingSorted(ss);
    SortedPackable(ss);
    UnderstoodIsAll(ForPacking(ss));
  }

  lemma ExpectedVerifies(c: Crypto, t: Token, cert: Bytes, other: Bytes)
    requires c.Valid() && IsUuid(t.header.appId)
    ensures IsUuid(other) ==> VerifySignature(c, Expected(c, t, cert), other) == Some(
      c.hmac(c.hmac(PackU32(t.header.salt), c.hmac(PackU32(t.header.issueTs), cert)), SigningInfo(t))
        == c.hmac(c.hmac(PackU32(t.header.salt), c.hmac(PackU32(t.header.issueTs), other)), SigningInfo(t)))
  {
    assert |SigningInfo(t)| >= |PackCounted(ForPacking(t.services))| >= 2;
    assert |Signature(c, t.header, cert, SigningInfo(t))| == 32;
  }

  /** Parsing a built token gives back its header and, type by type, its services in order; the
      signature verifies under the signing certificate, and under another one exactly when the keys
      derived from the two certificates sign these bytes alike. */
  lemma TokenRoundTrip(c: Crypto, t: Token, cert: Bytes, other: Bytes)
    requires c.Valid() && Buildable(t, cert) && TokenFits(t)
    requires AllKnown(t.services) && NothingEmpty(t.services)
    ensures
      var parsed := Parse(c, Build(c, t, cert).value);
      && parsed.Some? && parsed.value.complete
      && parsed.value.header == t.header
      && parsed.value.services == ForPacking(t.services)
      && VerifySignature(c, parsed.value, cert) == Some(true)
      && (IsUuid(other) ==> VerifySignature(c, parsed.value, other) == Some(
           c.hmac(c.hmac(PackU32(t.header.salt), c.hmac(PackU32(t.header.issueTs), cert)), SigningInfo(t))
             == c.hmac(c.hmac(PackU32(t.header.salt), c.hmac(PackU32(t.header.issueTs), other)), SigningInfo(t))))
    ensures SortedByType(ForPacking(t.services))
    ensures SameByType(ForPacking(t.services), t.services)
  {
    ParseBuild(c, t, cert);
    ForPackingFacts(t.services);
    ServicesSurvive(t.services);
    ExpectedVerifies(c, t, cert, cert);
    ExpectedVerifies(c, t, cert, other);
  }

  /** A token with services of unknown types still parses and verifies; the receiver gets the services
      that come before the first unknown type. */
  lemma UnknownTypesStillVerify(c: Crypto, t: Token, cert: Bytes)
    requires c.Valid() && Buildable(t, cert) && TokenFits(t)
    ensures
      var parsed := Parse(c, Build(c, t, cert).value);
      && parsed.Some?
      && parsed.value.services == Understood(ForPacking(t.services))
      && VerifySignature(c, parsed.value, cert) == Some(true)
  {
    ParseBuild(c, t, cert);
    ExpectedVerifies(c, t, cert, cert);
  }

  lemma SameServicesSameOrder(a: seq<Service>, b: seq<Service>)
    ensures SameByType(a, b) <==> ForPacking(a) == ForPacking(b)
  {
    ForPackingFacts(a);
    ForPackingFacts(b);
    if SameByType(a, b) {
      SortedIsDetermined(ForPacking(a), ForPacking(b));
    }
  }

  /** The encoding is canonical: two tokens have the same string exactly when they agree on the header
      and on each type's services in order. */
  lemma CanonicalForm(c: Crypto, t: Token, u: Token, cert: Bytes)
    requires c.Valid() && Buildable(t, cert) && Buildable(u, cert)
    requires TokenFits(t) && AllKnown(t.services) && NothingEmpty(t.services)
    requires TokenFits(u) && AllKnown(u.services) && NothingEmpty(u.services)
    ensures Build(c, t, cert) == Build(c, u, cert) <==>
      t.header == u.header && SameByType(t.services, u.services)
  {
    SameServicesSameOrder(t.services, u.services);
    if Build(c, t, cert) == Build(c, u, cert) {
      ParseBuild(c, t, cert);
      ParseBuild(c, u, cert);
      ServicesSurvive(t.services);
      ServicesSurvive(u.services);
    }
  }
}
