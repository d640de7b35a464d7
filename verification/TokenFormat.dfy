/** A token as a flat list of numbers and strings, and what its signature rests on. */
module TokenFormat {
  import opened Wrappers
  import opened TokenBytes
  import opened TokenServices
  import opened AccessToken

  // ----- the layout -----

  datatype Field = Short(short: u16) | Word(word: u32) | Text(text: Bytes)

  function Encoded(fs: seq<Field>): Bytes {
    if fs == [] then []
    else
      (match fs[0]
       case Short(n) => PackU16(n)
       case Word(n) => PackU32(n)
       case Text(s) => PackString(s)) + Encoded(fs[1..])
  }

  /** A count, cut to the two bytes it is written in. */
  function Count(n: nat): Field {
    Short(n % LIMIT16)
  }

  function EntryFields(m: Privileges, ks: seq<u16>): seq<Field>
    requires forall k :: k in ks ==> k in m
  {
    if ks == [] then [] else [Short(ks[0]), Word(m[ks[0]])] + EntryFields(m, ks[1..])
  }

  function TextFields(ss: Resources): seq<Field> {
    if ss == [] then [] else [Text(ss[0])] + TextFields(ss[1..])
  }

  function PermissionFields(m: map<u16, Resources>, ks: seq<u16>): seq<Field>
    requires forall k :: k in ks ==> k in m
  {
    if ks == [] then []
    else [Short(ks[0]), Count(|m[ks[0]]|)] + TextFields(m[ks[0]]) + PermissionFields(m, ks[1..])
  }

  function TableFields(d: Details, ks: seq<u16>): seq<Field>
    requires forall k :: k in ks ==> k in d
  {
    if ks == [] then []
    else [Short(ks[0]), Count(|d[ks[0]]|)] + PermissionFields(d[ks[0]], Keys(d[ks[0]])) + TableFields(d, ks[1..])
  }

  /** The number that stands for each kind. */
  function KindNumber(s: Service): u16 {
    match s
    case Rtc(_, _, _) => 1
    case Rtm(_, _) => 2
    case Streaming(_, _, _) => 3
    case Fpa(_) => 4
    case Chat(_, _) => 5
    case FCdn(_, _, _) => 6
    case Apaas(_, _, _, _) => 7
    case Rtm2(_, _, _) => 8
    case Plain(_, kind) => kind
  }

  function OwnFields(s: Service): seq<Field> {
    match s
    case Rtc(_, channelName, uid) => [Text(channelName), Text(uid)]
    case Rtm(_, userId) => [Text(userId)]
    case Streaming(_, channelName, account) => [Text(channelName), Text(account)]
    case Fpa(_) => []
    case Chat(_, userId) => [Text(userId)]
    case FCdn(_, channelName, account) => [Text(channelName), Text(account)]
    case Apaas(_, roomUuid, userUuid, role) => [Text(roomUuid), Text(userUuid), Short(role % 0x1_0000)]
    case Rtm2(_, userId, d) => [Text(userId), Count(|d|)] + TableFields(d, Keys(d))
    case Plain(_, _) => []
  }

  function ServiceFields(s: Service): seq<Field> {
    [Short(KindNumber(s)), Count(|s.privileges|)] + EntryFields(s.privileges, Keys(s.privileges)) + OwnFields(s)
  }

  function ListFields(ss: seq<Service>): seq<Field> {
    if ss == [] then [] else ServiceFields(ss[0]) + ListFields(ss[1..])
  }

  /** The signed part, with the services in the order they are packed. */
  function InfoFields(h: Header, sorted: seq<Service>): seq<Field> {
    [Text(h.appId), Word(h.issueTs), Word(h.expire), Word(h.salt), Count(|sorted|)] + ListFields(sorted)
  }

  lemma {:induction false} EncodedJoin(a: seq<Field>, b: seq<Field>)
    ensures Encoded(a + b) == Encoded(a) + Encoded(b)
  {
    if a == [] {
      assert a + b == b;
    } else {
      assert (a + b)[0] == a[0] && (a + b)[1..] == a[1..] + b;
      EncodedJoin(a[1..], b);
    }
  }

  lemma EncodedTwo(a: Field, b: Field)
    ensures Encoded([a, b]) == Encoded([a]) + Encoded([b])
  {
    assert [a, b] == [a] + [b];
    EncodedJoin([a], [b]);
  }

  lemma EncodedOne(a: Field)
    ensures a.Short? ==> Encoded([a]) == PackU16(a.short)
    ensures a.Word? ==> Encoded([a]) == PackU32(a.word)
    ensures a.Text? ==> Encoded([a]) == PackString(a.text)
  {
    assert [a][1..] == [];
  }

  lemma {:induction false} EntriesFormat(m: Privileges, ks: seq<u16>)
    requires forall k :: k in ks ==> k in m
    ensures PackEntries(m, ks) == Encoded(EntryFields(m, ks))
    decreases |ks|
  {
    hide PackU16, PackU32, Encoded;
    if ks == [] {
      assert Encoded([]) == [] by {
        EncodedNone();
      }
    } else {
      var a, b := Short(ks[0]), Word(m[ks[0]]);
      EntriesFormat(m, ks[1..]);
      EncodedJoin([a, b], EntryFields(m, ks[1..]));
      EncodedTwo(a, b);
      EncodedOne(a);
      EncodedOne(b);
    }
  }

  lemma EncodedNone()
    ensures Encoded([]) == []
  {
  }

  lemma {:induction false} StringsFormat(ss: Resources)
    ensures PackStrings(ss) == Encoded(TextFields(ss))
  {
    hide PackString, Encoded;
    EncodedNone();
    if ss != [] {
      StringsFormat(ss[1..]);
      EncodedJoin([Text(ss[0])], TextFields(ss[1..]));
      EncodedOne(Text(ss[0]));
    }
  }

  /** Two numbers, a part and the rest. */
  lemma Parts(a: Field, b: Field, part: seq<Field>, rest: seq<Field>)
    requires a.Short? && b.Short?
    ensures Encoded([a, b] + part + rest) == PackU16(a.short) + (PackU16(b.short) + Encoded(part)) + Encoded(rest)
  {
    hide PackU16, Encoded;
    EncodedJoin([a, b] + part, rest);
    EncodedJoin([a, b], part);
    EncodedTwo(a, b);
    EncodedOne(a);
    EncodedOne(b);
  }

  lemma {:induction false} PermissionsFormat(m: map<u16, Resources>, ks: seq<u16>)
    requires forall k :: k in ks ==> k in m
    ensures PackPermissions(m, ks) == Encoded(PermissionFields(m, ks))
    decreases |ks|
  {
    hide PackU16, Encoded, TextFields;
    EncodedNone();
    if ks != [] {
      PermissionsFormat(m, ks[1..]);
      StringsFormat(m[ks[0]]);
      Parts(Short(ks[0]), Count(|m[ks[0]]|), TextFields(m[ks[0]]), PermissionFields(m, ks[1..]));
    }
  }

  lemma {:induction false} TableFormat(d: Details, ks: seq<u16>)
    requires forall k :: k in ks ==> k in d
    ensures PackTable(d, ks) == Encoded(TableFields(d, ks))
    decreases |ks|
  {
    hide PackU16, Encoded, PermissionFields, PackPermissions;
    EncodedNone();
    if ks != [] {
      var m := d[ks[0]];
      TableFormat(d, ks[1..]);
      KeysFacts(m);
      PermissionsFormat(m, Keys(m));
      Parts(Short(ks[0]), Count(|m|), PermissionFields(m, Keys(m)), TableFields(d, ks[1..]));
    }
  }

  lemma PairFormat(a: Bytes, b: Bytes)
    ensures PackString(a) + PackString(b) == Encoded([Text(a), Text(b)])
  {
    EncodedTwo(Text(a), Text(b));
    EncodedOne(Text(a));
    EncodedOne(Text(b));
  }

  lemma RoomFormat(s: Service)
    requires s.Apaas?
    ensures PackTail(s) == Encoded(OwnFields(s))
  {
    hide Encoded, PackString;
    assert s.role % 0x1_0000 == if s.role < 0 then s.role + 0x1_0000 else s.role;
    assert OwnFields(s) == [Text(s.roomUuid), Text(s.userUuid)] + [Short(s.role % 0x1_0000)];
    EncodedJoin([Text(s.roomUuid), Text(s.userUuid)], [Short(s.role % 0x1_0000)]);
    PairFormat(s.roomUuid, s.userUuid);
    EncodedOne(Short(s.role % 0x1_0000));
  }

  lemma TableOwnFormat(s: Service)
    requires s.Rtm2?
    ensures PackTail(s) == Encoded(OwnFields(s))
  {
    hide Encoded, PackString, PackU16, TableFields, PackTable;
    var d := s.permissions;
    KeysFacts(d);
    TableFormat(d, Keys(d));
    EncodedJoin([Text(s.userId), Count(|d|)], TableFields(d, Keys(d)));
    EncodedTwo(Text(s.userId), Count(|d|));
    EncodedOne(Text(s.userId));
    EncodedOne(Count(|d|));
    Assoc(PackString(s.userId), PackU16(|d| % LIMIT16), PackTable(d, Keys(d)));
  }

  lemma OwnFormat(s: Service)
    ensures PackTail(s) == Encoded(OwnFields(s))
  {
    hide Encoded, PackString, PackU16, TableFields, PackTable;
    EncodedNone();
    match s
    case Rtc(_, channelName, uid) => PairFormat(channelName, uid);
    case Rtm(_, userId) => EncodedOne(Text(userId));
    case Streaming(_, channelName, account) => PairFormat(channelName, account);
    case Chat(_, userId) => EncodedOne(Text(userId));
    case FCdn(_, channelName, account) => PairFormat(channelName, account);
    case Apaas(_, _, _, _) => RoomFormat(s);
    case Rtm2(_, _, _) => TableOwnFormat(s);
    case _ =>
  }

  /** A service on the wire: its type number, its privileges under ascending keys, its own fields. The type
      numbers a receiver knows are those of the eight kinds. */
  lemma ServiceFormat(s: Service)
    ensures Pack(s) == Encoded(ServiceFields(s))
    ensures TypeOf(s) == KindNumber(s)
    ensures !s.Plain? ==> KnownType(KindNumber(s))
    ensures forall kind: u16 :: KnownType(kind) <==> kind in {1, 2, 3, 4, 5, 6, 7, 8}
  {
    hide Encoded, PackString, PackU16, EntryFields, PackEntries, PackTail, OwnFields;
    var m := s.privileges;
    KeysFacts(m);
    EntriesFormat(m, Keys(m));
    OwnFormat(s);
    Parts(Short(KindNumber(s)), Count(|m|), EntryFields(m, Keys(m)), OwnFields(s));
    Assoc(PackU16(TypeOf(s)), PackMap(m), PackTail(s));
  }

  lemma {:induction false} ListFormat(ss: seq<Service>)
    ensures PackServices(ss) == Encoded(ListFields(ss))
  {
    hide Encoded, Pack, ServiceFields;
    EncodedNone();
    if ss != [] {
      ServiceFormat(ss[0]);
      ListFormat(ss[1..]);
      EncodedJoin(ServiceFields(ss[0]), ListFields(ss[1..]));
    }
  }

  lemma HeaderFormat(h: Header, last: Field)
    ensures Encoded([Text(h.appId), Word(h.issueTs), Word(h.expire), Word(h.salt), last]) == PackHeader(h) + Encoded([last])
  {
    hide Encoded, PackString, PackU32;
    var appId, issueTs, expire, salt := Text(h.appId), Word(h.issueTs), Word(h.expire), Word(h.salt);
    assert [appId, issueTs, expire, salt, last] == [appId, issueTs] + ([expire, salt] + [last]);
    EncodedJoin([appId, issueTs], [expire, salt] + [last]);
    EncodedJoin([expire, salt], [last]);
    EncodedTwo(appId, issueTs);
    EncodedTwo(expire, salt);
    EncodedOne(appId);
    EncodedOne(issueTs);
    EncodedOne(expire);
    EncodedOne(salt);
  }

  /** The signed part on the wire: the header, the number of services and the services by ascending type. */
  lemma InfoFormat(t: Token)
    ensures SigningInfo(t) == Encoded(InfoFields(t.header, ForPacking(t.services)))
  {
    hide Encoded, PackHeader, PackU16, PackServices, ListFields, ForPacking;
    var h, ss := t.header, ForPacking(t.services);
    ForPackingSorted(t.services);
    ListFormat(ss);
    HeaderFormat(h, Count(|ss|));
    EncodedOne(Count(|ss|));
    EncodedJoin([Text(h.appId), Word(h.issueTs), Word(h.expire), Word(h.salt), Count(|ss|)], ListFields(ss));
  }

  /** A string on the wire: its length modulo 65536, then its bytes. */
  lemma StringFormat(s: Bytes)
    ensures |PackString(s)| == 2 + |s| && PackString(s)[2..] == s
    ensures At16(PackString(s), 0) == |s| % LIMIT16
  {
    var length := PackU16(|s| % LIMIT16);
    assert At16(length, 0) == At16(length + s, 0);
  }

  lemma OnlyPackedShortsRead(bs: Bytes)
    ensures ReadU16(bs).Ok? <==> |bs| >= 2
    ensures ReadU16(bs).Ok? ==>
      && ReadU16(bs).value == At16(bs, 0) && ReadU16(bs).rest == bs[2..]
      && bs == PackU16(ReadU16(bs).value) + ReadU16(bs).rest
  {
  }

  /** Nothing but a packed string reads as one. */
  lemma OnlyPackedStringsRead(bs: Bytes)
    ensures ReadString(bs).Ok? <==> |bs| >= 2 && |bs| - 2 >= At16(bs, 0)
    ensures ReadString(bs).Ok? ==> bs == PackString(ReadString(bs).value) + ReadString(bs).rest
  {
    hide ReadU16, PackU16, At16;
    OnlyPackedShortsRead(bs);
    if ReadString(bs).Ok? {
      var s, rest := ReadString(bs).value, ReadString(bs).rest;
      TakeDrop(ReadU16(bs).rest, |s|);
      Assoc(PackU16(|s|), s, rest);
    }
  }

  lemma TakeDrop(bs: Bytes, n: nat)
    requires n <= |bs|
    ensures bs == bs[..n] + bs[n..]
  {
  }

  lemma FourDigits(b0: int, b1: int, b2: int, b3: int)
    requires 0 <= b0 < 0x100 && 0 <= b1 < 0x100 && 0 <= b2 < 0x100 && 0 <= b3 < 0x100
    ensures
      var n := b0 + 0x100 * b1 + 0x1_0000 * b2 + 0x100_0000 * b3;
      n % 0x100 == b0 && n / 0x100 % 0x100 == b1 && n / 0x1_0000 % 0x100 == b2 && n / 0x100_0000 == b3
  {
    var n := b0 + 0x100 * b1 + 0x1_0000 * b2 + 0x100_0000 * b3;
    assert n / 0x100 == b1 + 0x100 * b2 + 0x1_0000 * b3;
    assert n / 0x1_0000 == b2 + 0x100 * b3;
  }

  lemma OnlyPackedWordsRead(bs: Bytes)
    requires ReadU32(bs).Ok?
    ensures bs == PackU32(ReadU32(bs).value) + ReadU32(bs).rest
  {
    hide At32, At16;
    FourDigits(bs[0], bs[1], bs[2], bs[3]);
    assert PackU32(ReadU32(bs).value) == bs[..4];
    TakeDrop(bs, 4);
  }

  /** A successful parse of the header has consumed exactly its packed form. */
  lemma OnlyPackedHeadersRead(bs: Bytes)
    requires ReadHeader(bs).Ok?
    ensures bs == PackHeader(ReadHeader(bs).value) + ReadHeader(bs).rest
  {
    hide PackString, PackU32, ReadString, ReadU32;
    var appId := ReadString(bs);
    var issueTs := ReadU32(appId.rest);
    var expire := ReadU32(issueTs.rest);
    var salt := ReadU32(expire.rest);
    OnlyPackedStringsRead(bs);
    OnlyPackedWordsRead(appId.rest);
    OnlyPackedWordsRead(issueTs.rest);
    OnlyPackedWordsRead(expire.rest);
    Assoc(PackU32(expire.value), PackU32(salt.value), salt.rest);
    Assoc3(PackString(appId.value), PackU32(issueTs.value), PackU32(expire.value) + PackU32(salt.value), salt.rest);
  }

  /** A service without its empty resource types. */
  function Trimmed(s: Service): Service {
    if s.Rtm2? then s.(permissions := DropEmpty(s.permissions)) else s
  }

  lemma FirstUnderstood(ss: seq<Service>)
    requires Packable(ss) && ss != []
    ensures ss[0].Plain? ==> Understood(ss) == [] && ss[0].kind !in {1, 2, 3, 4, 5, 6, 7, 8}
    ensures !ss[0].Plain? ==> Understood(ss) == [Trimmed(ss[0])] + Understood(ss[1..])
    ensures Packable(ss[1..])
  {
    hide DropEmpty, Fits;
    ListCons(ss);
    assert PackableOne(ss[0]);
  }

  /** What a receiver gets of a list: the services before the first one of a foreign type, each without its empty
      resource types. */
  lemma {:induction false} UnderstoodUpToForeign(ss: seq<Service>)
    requires Packable(ss)
    ensures |Understood(ss)| <= |ss|
    ensures |Understood(ss)| < |ss| ==>
      ss[|Understood(ss)|].Plain? && ss[|Understood(ss)|].kind !in {1, 2, 3, 4, 5, 6, 7, 8}
    ensures forall i :: 0 <= i < |Understood(ss)| ==> !ss[i].Plain? && Understood(ss)[i] == Trimmed(ss[i])
  {
    hide Packable, Trimmed, Understood;
    if ss == [] {
      NothingUnderstood();
    } else {
      FirstUnderstood(ss);
      UnderstoodUpToForeign(ss[1..]);
      forall i | 0 <= i < |Understood(ss)|
        ensures !ss[i].Plain? && Understood(ss)[i] == Trimmed(ss[i])
      {
        if i > 0 {
          assert ss[i] == ss[1..][i - 1] && Understood(ss)[i] == Understood(ss[1..])[i - 1];
        }
      }
    }
  }

  lemma NothingUnderstood()
    ensures Understood([]) == []
  {
  }

  // ----- the signature -----

  const HEX := "0123456789abcdefABCDEF"

  /** 32 hexadecimal digits. */
  lemma UuidFormat(s: Bytes)
    ensures IsUuid(s) <==> |s| == 32 && forall i :: 0 <= i < 32 ==> s[i] as char in HEX
  {
    if |s| == 32 {
      forall i | 0 <= i < 32
        ensures 48 <= s[i] <= 57 || 65 <= s[i] <= 70 || 97 <= s[i] <= 102 <==> s[i] as char in HEX
      {
        HexDigit(s[i]);
      }
    }
  }

  lemma HexDigit(b: byte)
    ensures 48 <= b <= 57 || 65 <= b <= 70 || 97 <= b <= 102 <==> b as char in HEX
  {
    assert HEX[0] == 48 as char;
  }

  /** The built string: the version 007 and the encoded, compressed raw token, whose signature is keyed by the
      certificate under the timestamp under the salt. */
  lemma BuiltToken(c: Crypto, t: Token, cert: Bytes)
    ensures Build(c, t, cert).None? <==> !IsUuid(t.header.appId) || !IsUuid(cert) || t.services == []
    ensures Build(c, t, cert).Some? ==>
      var info := InfoFields(t.header, ForPacking(t.services));
      var key := c.hmac(PackU32(t.header.salt), c.hmac(PackU32(t.header.issueTs), cert));
      Build(c, t, cert).value == [48, 48, 55] + c.encode64(c.deflate(Encoded([Text(c.hmac(key, Encoded(info)))] + info)))
  {
    hide Encoded, PackString, InfoFields, SigningInfo;
    InfoFormat(t);
    var info := InfoFields(t.header, ForPacking(t.services));
    var signature := Text(c.hmac(c.hmac(PackU32(t.header.salt), c.hmac(PackU32(t.header.issueTs), cert)), Encoded(info)));
    EncodedOne(signature);
    EncodedJoin([signature], info);
  }

  /** A token signed under one certificate fails under every other one that hmac tells apart from it: under the
      timestamp, then under the salt, then as a key of the signed bytes. */
  lemma AnotherCertificateFails(c: Crypto, t: Token, cert: Bytes, other: Bytes)
    requires c.Valid() && Buildable(t, cert) && TokenFits(t) && IsUuid(other)
    requires
      var mine, theirs := c.hmac(PackU32(t.header.issueTs), cert), c.hmac(PackU32(t.header.issueTs), other);
      var myKey, theirKey := c.hmac(PackU32(t.header.salt), mine), c.hmac(PackU32(t.header.salt), theirs);
      c.hmac(myKey, SigningInfo(t)) != c.hmac(theirKey, SigningInfo(t))
    ensures
      var parsed := Parse(c, Build(c, t, cert).value);
      parsed.Some? && VerifySignature(c, parsed.value, other) == Some(false)
  {
    hide Parse, Build, SigningInfo, PackU32;
    ParseBuild(c, t, cert);
    ExpectedVerifies(c, t, cert, other);
  }

  /** The first 32 bytes, filled up with zeros. */
  function Cut32(s: Bytes): (r: Bytes)
    ensures |r| == 32
  {
    if |s| >= 32 then s[..32] else s + seq(32 - |s|, _ => 0)
  }

  /** A transparent stand-in: a key shows in front of what it keys, and nothing is compressed. */
  function Transparent(): Crypto {
    Crypto((key, message) => Cut32(key + message), bs => bs, bs => Some(bs), bs => bs, bs => Some(bs))
  }

  /** With the stand-in the key can be read off the token: first the salt, then the timestamp, then the certificate. */
  lemma SaltOutsideTimestampInside(t: Token, cert: Bytes)
    requires Buildable(t, cert)
    ensures Transparent().Valid()
    ensures
      var key := PackU32(t.header.salt) + PackU32(t.header.issueTs) + cert[..24];
      Build(Transparent(), t, cert) == Some([48, 48, 55] + (PackString(key) + SigningInfo(t)))
  {
    hide PackU32, PackString, SigningInfo;
    var c, ts, salt := Transparent(), PackU32(t.header.issueTs), PackU32(t.header.salt);
    assert Cut32(ts + cert) == ts + cert[..28];
    assert Cut32(salt + (ts + cert[..28])) == salt + ts + cert[..24];
    var key := salt + ts + cert[..24];
    assert Cut32(key + SigningInfo(t)) == key;
    assert Signature(c, t.header, cert, SigningInfo(t)) == key;
  }
}
