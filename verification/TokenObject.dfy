/** The AccessToken object: its methods build, parse and verify in place, as the functions of
    module AccessToken say. */
module TokenObject {
  import opened Wrappers
  import opened TokenBytes
  import opened TokenServices
  import opened AccessToken
  import opened TokenCodec

  lemma AppendServices(before: Bytes, ss: seq<Service>, i: nat)
    requires i < |ss|
    ensures before + PackServices(ss[i..]) == before + Pack(ss[i]) + PackServices(ss[i + 1..])
  {
    assert ss[i..][1..] == ss[i + 1..];
  }

  lemma HeaderParts(h: Header)
    ensures [] + PackString(h.appId) + PackU32(h.issueTs) + PackU32(h.expire) + PackU32(h.salt) == PackHeader(h)
  {
  }

  /** A parsed list put behind services already collected. */
  function Joined(head: seq<Service>, p: Parsed<Listed>): Parsed<Listed> {
    if p.Ok? then Ok(Listed(head + p.value.services, p.value.complete), p.rest) else Fail
  }

  lemma JoinStep(head: seq<Service>, n: nat, bs: Bytes)
    requires n > 0 && ReadU16(bs).Ok? && KnownType(ReadU16(bs).value)
    ensures
      var service := ReadBody(ReadU16(bs).value, ReadU16(bs).rest);
      Joined(head, ReadServices(n, bs)) ==
        if service.Ok? then Joined(head + [service.value], ReadServices(n - 1, service.rest)) else Fail
  {
    var service := ReadBody(ReadU16(bs).value, ReadU16(bs).rest);
    if service.Ok? && ReadServices(n - 1, service.rest).Ok? {
      var tail := ReadServices(n - 1, service.rest).value.services;
      assert head + ([service.value] + tail) == head + [service.value] + tail;
    }
  }

  // ----- what a parse leaves behind, complete or not -----

  /** The fields a parse fills. */
  datatype Fields = Fields(signature: Bytes, signingInfo: Bytes, header: Header, services: seq<Service>)

  const CLEARED: Fields := Fields([], [], Header([], 0, 0, 0), [])

  /** The services read before the first failure, the first unknown type or the end. */
  function ServicesRead(n: nat, bs: Bytes): seq<Service> {
    if n == 0 || ReadU16(bs).Fail? || !KnownType(ReadU16(bs).value) then []
    else
      var service := ReadBody(ReadU16(bs).value, ReadU16(bs).rest);
      if service.Fail? then [] else [service.value] + ServicesRead(n - 1, service.rest)
  }

  /** A field that fails to read stays zero, and with it all later ones. */
  function HeaderRead(bs: Bytes): Header {
    var appId := ReadString(bs);
    var issueTs := ReadU32(appId.After());
    var expire := ReadU32(issueTs.After());
    var salt := ReadU32(expire.After());
    Header(appId.ValueOr([]), issueTs.ValueOr(0), expire.ValueOr(0), salt.ValueOr(0))
  }

  function CountedRead(bs: Bytes): seq<Service> {
    if ReadU16(bs).Fail? then [] else ServicesRead(ReadU16(bs).value, ReadU16(bs).rest)
  }

  function ListRead(info: Bytes): seq<Service> {
    if ReadHeader(info).Fail? then [] else CountedRead(ReadHeader(info).rest)
  }

  function RawRead(raw: Bytes): Fields {
    if ReadString(raw).Fail? then CLEARED
    else
      var info := ReadString(raw).rest;
      Fields(ReadString(raw).value, info, HeaderRead(info), ListRead(info))
  }

  /** What the object holds after parsing a token, whatever it held before. */
  function Filled(c: Crypto, token: Bytes): Fields {
    if |token| < 3 || token[..3] != VERSION || c.decode64(token[3..]).None? then CLEARED
    else
      var raw := c.inflate(c.decode64(token[3..]).value);
      if raw.None? then CLEARED else RawRead(raw.value)
  }

  lemma {:induction false} AllServicesRead(n: nat, bs: Bytes)
    requires ReadServices(n, bs).Ok?
    ensures ServicesRead(n, bs) == ReadServices(n, bs).value.services
  {
    hide ReadU16, ReadBody;
    if n > 0 && KnownType(ReadU16(bs).value) {
      AllServicesRead(n - 1, ReadBody(ReadU16(bs).value, ReadU16(bs).rest).rest);
    }
  }

  /** A parse that succeeds has filled in everything it decoded. */
  lemma FilledWhenParsed(c: Crypto, token: Bytes)
    requires Parse(c, token).Some?
    ensures
      var d := Parse(c, token).value;
      Filled(c, token) == Fields(d.signature, d.signingInfo, d.header, d.services)
  {
    hide ReadString, ReadU32, ReadU16, ReadServices, ServicesRead;
    var info := ReadString(c.inflate(c.decode64(token[3..]).value).value).rest;
    var listed := ReadHeader(info).rest;
    AllServicesRead(ReadU16(listed).value, ReadU16(listed).rest);
  }

  /** The services a broken-off parse has filled are the beginning of those it fills from more bytes. */
  lemma {:induction false} ServicesReadGrow(n: nat, bs: Bytes, more: Bytes)
    ensures ServicesRead(n, bs) <= ServicesRead(n, bs + more)
  {
    hide ReadU16, ReadBody;
    if n > 0 && ReadU16(bs).Ok? {
      U16Extends(bs, more);
      var kind := ReadU16(bs).value;
      if KnownType(kind) && ReadBody(kind, ReadU16(bs).rest).Ok? {
        BodyExtends(kind, ReadU16(bs).rest, more);
        ServicesReadGrow(n - 1, ReadBody(kind, ReadU16(bs).rest).rest, more);
      }
    }
  }

  lemma ReadStep(head: seq<Service>, n: nat, bs: Bytes)
    requires n > 0 && ReadU16(bs).Ok? && KnownType(ReadU16(bs).value)
    ensures
      var service := ReadBody(ReadU16(bs).value, ReadU16(bs).rest);
      head + ServicesRead(n, bs) ==
        if service.Ok? then head + [service.value] + ServicesRead(n - 1, service.rest) else head
  {
    hide ReadU16, ReadBody;
    var service := ReadBody(ReadU16(bs).value, ReadU16(bs).rest);
    if service.Ok? {
      Assoc3Services(head, service.value, ServicesRead(n - 1, service.rest));
    } else {
      assert head + [] == head;
    }
  }

  lemma Assoc3Services(head: seq<Service>, service: Service, tail: seq<Service>)
    ensures head + ([service] + tail) == head + [service] + tail
  {
  }

  /** Where reading stops: at the end, at an unreadable type or at an unknown one. */
  lemma ReadStops(head: seq<Service>, n: nat, bs: Bytes)
    requires n == 0 || ReadU16(bs).Fail? || !KnownType(ReadU16(bs).value)
    ensures head + ServicesRead(n, bs) == head
    ensures Joined(head, ReadServices(n, bs)).Ok? <==> n == 0 || ReadU16(bs).Ok?
  {
    hide ReadU16, ReadBody;
    assert head + [] == head;
  }

  method ReadServicesFrom(buffer: Reader, n: nat) returns (services: seq<Service>, ok: bool)
    requires buffer.Valid()
    modifies buffer
    ensures ok <==> ReadServices(n, old(buffer.Remaining())).Ok?
    ensures services == ServicesRead(n, old(buffer.Remaining()))
  {
    hide ReadBody, ReadU16, ReadServices, ServicesRead;
    ghost var all := ServicesRead(n, buffer.Remaining());
    assert [] + all == all;
    ghost var goal := Joined([], ReadServices(n, buffer.Remaining()));
    services, ok := [], true;
    for i := 0 to n
      invariant buffer.Valid() && ok
      invariant goal == Joined(services, ReadServices(n - i, buffer.Remaining()))
      invariant all == services + ServicesRead(n - i, buffer.Remaining())
    {
      ghost var before := buffer.Remaining();
      var kind, service;
      kind, ok := buffer.UnPackUint16();
      if !ok {
        ReadStops(services, n - i, before);
        return;
      }
      if !KnownType(kind) {
        ReadStops(services, n - i, before);
        return;
      }
      JoinStep(services, n - i, before);
      ReadStep(services, n - i, before);
      service, ok := buffer.UnPackService(kind);
      if !ok {
        return;
      }
      services := services + [service];
    }
    ReadStops(services, 0, buffer.Remaining());
  }

  method ReadCountedFrom(buffer: Reader) returns (services: seq<Service>, ok: bool)
    requires buffer.Valid()
    modifies buffer
    ensures ok <==> ReadCounted(old(buffer.Remaining())).Ok?
    ensures services == CountedRead(old(buffer.Remaining()))
  {
    var count;
    services := [];
    count, ok := buffer.UnPackUint16();
    if ok {
      services, ok := ReadServicesFrom(buffer, count);
    }
  }

  method ReadHeaderFrom(buffer: Reader) returns (header: Header, ok: bool)
    requires buffer.Valid()
    modifies buffer
    ensures buffer.Valid() && (ok <==> ReadHeader(old(buffer.Remaining())).Ok?)
    ensures header == HeaderRead(old(buffer.Remaining()))
    ensures ok ==> buffer.Remaining() == ReadHeader(old(buffer.Remaining())).rest
  {
    hide ReadString;
    header := Header([], 0, 0, 0);
    var appId, issueTs, expire, salt;
    appId, ok := buffer.UnPackString();
    header := header.(appId := appId);
    if !ok {
      return;
    }
    issueTs, ok := buffer.UnPackUint32();
    header := header.(issueTs := issueTs);
    if !ok {
      return;
    }
    expire, ok := buffer.UnPackUint32();
    header := header.(expire := expire);
    if !ok {
      return;
    }
    salt, ok := buffer.UnPackUint32();
    header := header.(salt := salt);
  }

  method ReadInfoFrom(buffer: Reader) returns (header: Header, services: seq<Service>, ok: bool)
    requires buffer.Valid()
    modifies buffer
    ensures ok <==> ReadInfo(old(buffer.Remaining())).Ok?
    ensures header == HeaderRead(old(buffer.Remaining()))
    ensures services == ListRead(old(buffer.Remaining()))
  {
    hide ReadHeader, ReadCounted, HeaderRead, CountedRead;
    services := [];
    header, ok := ReadHeaderFrom(buffer);
    if ok {
      services, ok := ReadCountedFrom(buffer);
    }
  }

  lemma RawParts(raw: Bytes)
    ensures ReadRaw(raw).Ok? <==> ReadString(raw).Ok? && ReadInfo(ReadString(raw).rest).Ok?
    ensures ReadRaw(raw).Ok? ==>
      var info := ReadInfo(ReadString(raw).rest).value;
      ReadRaw(raw).value == Decoded(ReadString(raw).value, ReadString(raw).rest, info.header, info.listed.services, info.listed.complete)
  {
    hide ReadString, ReadInfo;
  }

  /** The raw token in reading order: the signed bytes are whatever follows the signature. */
  method ReadRawFrom(raw: Bytes) returns (fields: Fields, ok: bool)
    ensures ok <==> ReadRaw(raw).Ok?
    ensures fields == RawRead(raw)
  {
    hide ReadString, ReadInfo, ReadRaw, HeaderRead, ListRead, ReadU16;
    RawParts(raw);
    var buffer := new Reader(raw);
    fields := CLEARED;
    var signature, header, services;
    signature, ok := buffer.UnPackString();
    if !ok {
      return;
    }
    var signingInfo := raw[buffer.pos..];
    header, services, ok := ReadInfoFrom(buffer);
    fields := Fields(signature, signingInfo, header, services);
  }

  class AccessTokenObject {
    const crypto: Crypto
    var appCert: Bytes
    var header: Header
    var services: seq<Service>
    var signature: Bytes
    var signingInfo: Bytes
    var parsed: bool

    constructor (crypto: Crypto, appCert: Bytes, header: Header)
      ensures this.crypto == crypto && this.appCert == appCert && this.header == header
      ensures services == [] && !parsed
    {
      this.crypto, this.appCert, this.header := crypto, appCert, header;
      services, signature, signingInfo, parsed := [], [], [], false;
    }

    method AddService(service: Service)
      modifies this`services
      ensures services == old(services) + [service]
    {
      services := services + [service];
    }

    method GetServices(kind: u16) returns (found: seq<Service>)
      ensures found == OfType(services, kind)
    {
      found := [];
      assert services[0..] == services && [] + OfType(services, kind) == OfType(services, kind);
      for i := 0 to |services|
        invariant found + OfType(services[i..], kind) == OfType(services, kind)
      {
        OfTypeStep(found, services, i, kind);
        if TypeOf(services[i]) == kind {
          found := found + [services[i]];
        }
      }
      assert services[|services|..] == [];
    }

    lemma OfTypeStep(found: seq<Service>, services: seq<Service>, i: nat, kind: u16)
      requires i < |services|
      ensures found + OfType(services[i..], kind) ==
        (if TypeOf(services[i]) == kind then found + [services[i]] else found) + OfType(services[i + 1..], kind)
    {
      hide TypeOf;
      assert services[i..][1..] == services[i + 1..];
    }

    method PackSigningInfo() returns (buf: Buffer)
      ensures fresh(buf) && buf.data == SigningInfo(Token(header, services))
    {
      buf := new Buffer();
      PackStringTo(buf, header.appId);
      PackUint32(buf, header.issueTs);
      PackUint32(buf, header.expire);
      PackUint32(buf, header.salt);
      HeaderParts(header);
      var sorted := ForPacking(services);
      ghost var start := buf.data;
      Assoc(start, PackU16(|sorted| % LIMIT16), PackServices(sorted));
      PackUint16(buf, |sorted| % LIMIT16);
      ghost var counted := buf.data;
      for i := 0 to |sorted|
        invariant buf.data + PackServices(sorted[i..]) == counted + PackServices(sorted)
      {
        AppendServices(buf.data, sorted, i);
        PackService(buf, sorted[i]);
      }
      assert sorted[|sorted|..] == [] && buf.data + [] == buf.data;
    }

    /** Serialises and signs; it fails for malformed identifiers or without services. */
    method BuildToken() returns (res: Option<Bytes>)
      ensures res == Build(crypto, Token(header, services), appCert)
    {
      if !IsUuid(header.appId) || !IsUuid(appCert) || services == [] {
        return None;
      }
      var buf := PackSigningInfo();
      var signed := crypto.hmac(SigningKey(crypto, header, appCert), buf.data);
      var content := new Buffer();
      PackStringTo(content, signed);
      content.Write(buf.data);
      assert [] + PackString(signed) == PackString(signed);
      res := Some(VERSION + crypto.encode64(crypto.deflate(content.data)));
    }

    function Held(): Fields
      reads this
    {
      Fields(signature, signingInfo, header, services)
    }

    /** Parses a token in place. Whatever the object held before, it then holds what was read of this token,
        all of it or up to the failure. */
    method ParseToken(token: Bytes) returns (ok: bool)
      modifies this
      ensures ok <==> Parse(crypto, token).Some?
      ensures parsed <==> ok
      ensures Held() == Filled(crypto, token) && appCert == old(appCert)
    {
      hide ReadRaw, RawRead;
      header, services := Header([], 0, 0, 0), [];
      signature, signingInfo, parsed := [], [], false;
      if |token| < 3 || token[..3] != VERSION {
        return false;
      }
      var zipped := crypto.decode64(token[3..]);
      if zipped.None? {
        return false;
      }
      var raw := crypto.inflate(zipped.value);
      if raw.None? {
        return false;
      }
      var fields;
      fields, ok := ReadRawFrom(raw.value);
      signature, signingInfo, header, services := fields.signature, fields.signingInfo, fields.header, fields.services;
      parsed := ok;
    }

    /** Checks the parsed bytes without rebuilding them; None is the error of an unparsed token. */
    method Verify(certificate: Bytes) returns (res: Option<bool>)
      ensures parsed ==> res == VerifySignature(crypto, Decoded(signature, signingInfo, header, services, true), certificate)
      ensures res.None? <==>
        !parsed || signature == [] || signingInfo == [] || !IsUuid(header.appId) || !IsUuid(certificate)
      ensures res.Some? ==>
        var key := crypto.hmac(PackU32(header.salt), crypto.hmac(PackU32(header.issueTs), certificate));
        res.value == (signature == crypto.hmac(key, signingInfo))
    {
      if !parsed || signature == [] || signingInfo == [] {
        return None;
      }
      if !IsUuid(header.appId) || !IsUuid(certificate) {
        return None;
      }
      var key := crypto.hmac(PackU32(header.salt), crypto.hmac(PackU32(header.issueTs), certificate));
      res := Some(signature == crypto.hmac(key, signingInfo));
    }
  }
}
