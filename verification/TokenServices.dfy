/** The eight service kinds of a token and their byte codec, including the nested RTM2 permission table. */
module TokenServices {
  import opened TokenBytes

  // ----- RTM2 permissions -----

  type Resources = seq<Bytes>
  type Details = map<u16, map<u16, Resources>>

  /** The permissions of one resource type, empty when the table has none. */
  function InnerOf(table: Details, resourceType: u16): map<u16, Resources> {
    if resourceType in table then table[resourceType] else map[]
  }

  /** Adds or replaces the resources of one resource and permission type. */
  function Add(table: Details, resourceType: u16, permissionType: u16, resources: Resources): Details {
    table[resourceType := InnerOf(table, resourceType)[permissionType := resources]]
  }

  function PackStrings(ss: Resources): Bytes {
    if ss == [] then [] else PackString(ss[0]) + PackStrings(ss[1..])
  }

  function PackPermissions(m: map<u16, Resources>, ks: seq<u16>): Bytes
    requires forall k :: k in ks ==> k in m
  {
    if ks == [] then []
    else PackU16(ks[0]) + (PackU16(|m[ks[0]]| % LIMIT16) + PackStrings(m[ks[0]])) + PackPermissions(m, ks[1..])
  }

  function PackInner(m: map<u16, Resources>): Bytes {
    PackU16(|m| % LIMIT16) + PackPermissions(m, Keys(m))
  }

  function PackTable(d: Details, ks: seq<u16>): Bytes
    requires forall k :: k in ks ==> k in d
  {
    if ks == [] then [] else PackU16(ks[0]) + PackInner(d[ks[0]]) + PackTable(d, ks[1..])
  }

  function PackDetails(d: Details): Bytes {
    PackU16(|d| % LIMIT16) + PackTable(d, Keys(d))
  }

  function ReadStrings(n: nat, bs: Bytes, read: Resources): Parsed<Resources> {
    if n == 0 then Ok(read, bs)
    else
      var s := ReadString(bs);
      if s.Fail? then Fail else ReadStrings(n - 1, s.rest, read + [s.value])
  }

  function ReadPermissions(n: nat, bs: Bytes, resourceType: u16, table: Details): Parsed<Details> {
    if n == 0 then Ok(table, bs)
    else
      var permissionType := ReadU16(bs);
      if permissionType.Fail? then Fail else
      var count := ReadU16(permissionType.rest);
      if count.Fail? then Fail else
      var resources := ReadStrings(count.value, count.rest, []);
      if resources.Fail? then Fail else
      ReadPermissions(n - 1, resources.rest, resourceType, Add(table, resourceType, permissionType.value, resources.value))
  }

  function ReadTable(n: nat, bs: Bytes, table: Details): Parsed<Details> {
    if n == 0 then Ok(table, bs)
    else
      var resourceType := ReadU16(bs);
      if resourceType.Fail? then Fail else
      var count := ReadU16(resourceType.rest);
      if count.Fail? then Fail else
      var inner := ReadPermissions(count.value, count.rest, resourceType.value, table);
      if inner.Fail? then Fail else
      ReadTable(n - 1, inner.rest, inner.value)
  }

  function ReadDetails(bs: Bytes): Parsed<Details> {
    match ReadU16(bs)
    case Fail => Fail
    case Ok(n, rest) => ReadTable(n, rest, map[])
  }

  predicate StringsFit(ss: Resources) {
    |ss| < LIMIT16 && forall i :: 0 <= i < |ss| ==> |ss[i]| < LIMIT16
  }

  predicate InnerFits(m: map<u16, Resources>) {
    |m| < LIMIT16 && forall k :: k in m ==> StringsFit(m[k])
  }

  predicate DetailsFit(d: Details) {
    |d| < LIMIT16 && forall k :: k in d ==> InnerFits(d[k])
  }

  lemma {:induction false} StringsRoundTrip(ss: Resources, rest: Bytes, read: Resources)
    requires forall i :: 0 <= i < |ss| ==> |ss[i]| < LIMIT16
    ensures ReadStrings(|ss|, PackStrings(ss) + rest, read) == Ok(read + ss, rest)
    decreases |ss|
  {
    hide ReadString, PackString;
    if ss == [] {
      assert PackStrings(ss) + rest == rest && read + ss == read;
    } else {
      StringRoundTrip(ss[0], PackStrings(ss[1..]) + rest);
      Assoc(PackString(ss[0]), PackStrings(ss[1..]), rest);
      StringsRoundTrip(ss[1..], rest, read + [ss[0]]);
      assert read + [ss[0]] + ss[1..] == read + ss;
    }
  }

  /** `table` after adding the entries of m at the keys ks under one resource type. */
  function AddAll(table: Details, resourceType: u16, m: map<u16, Resources>, ks: seq<u16>): Details
    requires forall k :: k in ks ==> k in m
    decreases |ks|
  {
    if ks == [] then table
    else AddAll(Add(table, resourceType, ks[0], m[ks[0]]), resourceType, m, ks[1..])
  }

  lemma PermissionStep(n: nat, key: u16, ss: Resources, tail: Bytes, t: u16, table: Details)
    requires StringsFit(ss)
    ensures ReadPermissions(n + 1, PackU16(key) + (PackU16(|ss| % LIMIT16) + PackStrings(ss) + tail), t, table)
         == ReadPermissions(n, tail, t, Add(table, t, key, ss))
  {
    U16RoundTrip(key, PackU16(|ss| % LIMIT16) + PackStrings(ss) + tail);
    CountRoundTrip(|ss|, PackStrings(ss), tail);
    StringsRoundTrip(ss, tail, []);
    assert [] + ss == ss;
  }

  lemma {:induction false} PermissionsRoundTrip(m: map<u16, Resources>, ks: seq<u16>, resourceType: u16, table: Details, rest: Bytes)
    requires forall k :: k in ks ==> k in m && StringsFit(m[k])
    ensures ReadPermissions(|ks|, PackPermissions(m, ks) + rest, resourceType, table)
         == Ok(AddAll(table, resourceType, m, ks), rest)
    decreases |ks|
  {
    if ks == [] {
      assert PackPermissions(m, ks) + rest == rest;
    } else {
      var head, tail := ks[0], PackPermissions(m, ks[1..]) + rest;
      Assoc3(PackU16(head), PackU16(|m[head]| % LIMIT16) + PackStrings(m[head]), PackPermissions(m, ks[1..]), rest);
      PermissionStep(|ks| - 1, head, m[head], tail, resourceType, table);
      PermissionsRoundTrip(m, ks[1..], resourceType, Add(table, resourceType, head, m[head]), rest);
    }
  }

  lemma {:induction false} AddAllEntries(table: Details, t: u16, m: map<u16, Resources>, ks: seq<u16>, k: u16)
    requires forall k :: k in ks ==> k in m
    ensures
      var r := InnerOf(AddAll(table, t, m, ks), t);
      && (k in r <==> k in InnerOf(table, t) || k in ks)
      && (k in ks ==> r[k] == m[k])
      && (k in InnerOf(table, t) && k !in ks ==> r[k] == InnerOf(table, t)[k])
    decreases |ks|
  {
    if ks != [] {
      AddAllEntries(Add(table, t, ks[0], m[ks[0]]), t, m, ks[1..], k);
      assert ks == [ks[0]] + ks[1..];
    }
  }

  lemma {:induction false} AddAllFrame(table: Details, t: u16, m: map<u16, Resources>, ks: seq<u16>)
    requires forall k :: k in ks ==> k in m
    ensures AddAll(table, t, m, ks) ==
      if ks == [] then table else table[t := InnerOf(AddAll(table, t, m, ks), t)]
    decreases |ks|
  {
    if ks != [] {
      var table' := Add(table, t, ks[0], m[ks[0]]);
      AddAllFrame(table', t, m, ks[1..]);
      var r := AddAll(table, t, m, ks);
      var last := InnerOf(r, t);
      assert table'[t := last] == table[t := last];
      assert ks[1..] == [] ==> r == table';
    }
  }

  /** The table a receiver can see: resource types without any permission leave no trace. */
  function DropEmpty(d: Details): Details {
    map t | t in d && d[t] != map[] :: d[t]
  }

  /** Adding a whole inner map to a fresh resource type installs it, unless it is empty. */
  lemma AddWholeInner(table: Details, t: u16, m: map<u16, Resources>)
    requires t !in table
    ensures forall k :: k in Keys(m) <==> k in m
    ensures AddAll(table, t, m, Keys(m)) == if m == map[] then table else table[t := m]
  {
    KeysFacts(m);
    AddAllFrame(table, t, m, Keys(m));
    var inner := InnerOf(AddAll(table, t, m, Keys(m)), t);
    forall k
      ensures k in inner <==> k in m
      ensures k in m ==> inner[k] == m[k]
    {
      AddAllEntries(table, t, m, Keys(m), k);
    }
    assert inner == m;
  }

  /** `table` with a non-empty inner map installed. */
  function PutInner(table: Details, t: u16, m: map<u16, Resources>): Details {
    if m == map[] then table else table[t := m]
  }

  lemma InnerRoundTrip(m: map<u16, Resources>, t: u16, table: Details, rest: Bytes)
    requires InnerFits(m) && t !in table
    ensures
      var count := ReadU16(PackInner(m) + rest);
      && count.Ok?
      && ReadPermissions(count.value, count.rest, t, table) == Ok(PutInner(table, t, m), rest)
  {
    KeysFacts(m);
    AddWholeInner(table, t, m);
    CountRoundTrip(|m|, PackPermissions(m, Keys(m)), rest);
    PermissionsRoundTrip(m, Keys(m), t, table, rest);
  }

  /** `table` extended by the non-empty inner maps of d at the keys ks. */
  function PutTable(table: Details, d: Details, ks: seq<u16>): Details
    requires forall k :: k in ks ==> k in d
    decreases |ks|
  {
    if ks == [] then table
    else PutTable(PutInner(table, ks[0], d[ks[0]]), d, ks[1..])
  }

  lemma {:induction false} PutTableEntries(table: Details, d: Details, ks: seq<u16>, t: u16)
    requires forall k :: k in ks ==> k in d && k !in table
    requires Distinct(ks)
    ensures t in PutTable(table, d, ks) <==> t in table || (t in ks && d[t] != map[])
    ensures t in ks && d[t] != map[] ==> PutTable(table, d, ks)[t] == d[t]
    ensures t in table ==> PutTable(table, d, ks)[t] == table[t]
    decreases |ks|
  {
    if ks != [] {
      assert ks == [ks[0]] + ks[1..] && ks[0] !in ks[1..];
      PutTableEntries(PutInner(table, ks[0], d[ks[0]]), d, ks[1..], t);
    }
  }

  lemma TableStep(n: nat, t: u16, m: map<u16, Resources>, tail: Bytes, table: Details)
    requires InnerFits(m) && t !in table
    ensures ReadTable(n + 1, PackU16(t) + (PackInner(m) + tail), table) == ReadTable(n, tail, PutInner(table, t, m))
  {
    U16RoundTrip(t, PackInner(m) + tail);
    InnerRoundTrip(m, t, table, tail);
  }

  lemma {:induction false} TableRoundTrip(d: Details, ks: seq<u16>, table: Details, rest: Bytes)
    requires forall k :: k in ks ==> k in d && k !in table && InnerFits(d[k])
    requires Distinct(ks)
    ensures ReadTable(|ks|, PackTable(d, ks) + rest, table) == Ok(PutTable(table, d, ks), rest)
    decreases |ks|
  {
    hide ReadU16, PackU16, PackInner, ReadPermissions;
    if ks == [] {
      assert PackTable(d, ks) + rest == rest;
    } else {
      var head, tail := ks[0], PackTable(d, ks[1..]) + rest;
      Assoc3(PackU16(head), PackInner(d[head]), PackTable(d, ks[1..]), rest);
      TableStep(|ks| - 1, head, d[head], tail, table);
      assert ks == [ks[0]] + ks[1..] && ks[0] !in ks[1..];
      TableRoundTrip(d, ks[1..], PutInner(table, head, d[head]), rest);
    }
  }

  lemma WholeTable(d: Details)
    ensures forall k :: k in Keys(d) <==> k in d
    ensures PutTable(map[], d, Keys(d)) == DropEmpty(d)
  {
    KeysFacts(d);
    forall t
      ensures t in PutTable(map[], d, Keys(d)) <==> t in DropEmpty(d)
      ensures t in DropEmpty(d) ==> PutTable(map[], d, Keys(d))[t] == DropEmpty(d)[t]
    {
      PutTableEntries(map[], d, Keys(d), t);
    }
  }

  /** A permission table comes back without its empty resource types and with everything else intact. */
  lemma DetailsRoundTrip(d: Details, rest: Bytes)
    requires DetailsFit(d)
    ensures ReadDetails(PackDetails(d) + rest) == Ok(DropEmpty(d), rest)
  {
    KeysFacts(d);
    WholeTable(d);
    CountRoundTrip(|d|, PackTable(d, Keys(d)), rest);
    TableRoundTrip(d, Keys(d), map[], rest);
  }

  predicate NoEmptyInner(d: Details) {
    forall t :: t in d ==> d[t] != map[]
  }

  /** Exactly the tables without an empty inner map survive, and Add builds no others. */
  lemma DropEmptyIdentityIff(d: Details)
    ensures DropEmpty(d) == d <==> NoEmptyInner(d)
    ensures forall t :: t in DropEmpty(d) <==> t in d && d[t] != map[]
    ensures forall t :: t in DropEmpty(d) ==> DropEmpty(d)[t] == d[t]
  {
    if NoEmptyInner(d) {
      assert DropEmpty(d) == d;
    } else {
      var t :| t in d && d[t] == map[];
      assert t !in DropEmpty(d);
    }
  }

  lemma AddKeepsNoEmptyInner(d: Details, resourceType: u16, permissionType: u16, resources: Resources)
    requires NoEmptyInner(d)
    ensures NoEmptyInner(Add(d, resourceType, permissionType, resources))
    ensures Add(d, resourceType, permissionType, resources)[resourceType][permissionType] == resources
  {
    assert permissionType in Add(d, resourceType, permissionType, resources)[resourceType];
  }

  lemma {:induction false} StringsExtend(n: nat, bs: Bytes, read: Resources, more: Bytes)
    requires ReadStrings(n, bs, read).Ok?
    ensures ReadStrings(n, bs + more, read) == Ok(ReadStrings(n, bs, read).value, ReadStrings(n, bs, read).rest + more)
  {
    if n > 0 {
      StringExtends(bs, more);
      StringsExtend(n - 1, ReadString(bs).rest, read + [ReadString(bs).value], more);
    }
  }

  lemma {:induction false} PermissionsExtend(n: nat, bs: Bytes, t: u16, table: Details, more: Bytes)
    requires ReadPermissions(n, bs, t, table).Ok?
    ensures ReadPermissions(n, bs + more, t, table)
      == Ok(ReadPermissions(n, bs, t, table).value, ReadPermissions(n, bs, t, table).rest + more)
  {
    hide ReadU16, ReadStrings, Add;
    if n > 0 {
      U16Extends(bs, more);
      var permissionType := ReadU16(bs);
      U16Extends(permissionType.rest, more);
      var count := ReadU16(permissionType.rest);
      StringsExtend(count.value, count.rest, [], more);
      var resources := ReadStrings(count.value, count.rest, []);
      PermissionsExtend(n - 1, resources.rest, t, Add(table, t, permissionType.value, resources.value), more);
    }
  }

  lemma {:induction false} TableExtends(n: nat, bs: Bytes, table: Details, more: Bytes)
    requires ReadTable(n, bs, table).Ok?
    ensures ReadTable(n, bs + more, table) == Ok(ReadTable(n, bs, table).value, ReadTable(n, bs, table).rest + more)
  {
    hide ReadU16, ReadPermissions;
    if n > 0 {
      U16Extends(bs, more);
      var resourceType := ReadU16(bs);
      U16Extends(resourceType.rest, more);
      var count := ReadU16(resourceType.rest);
      PermissionsExtend(count.value, count.rest, resourceType.value, table, more);
      var inner := ReadPermissions(count.value, count.rest, resourceType.value, table);
      TableExtends(n - 1, inner.rest, inner.value, more);
    }
  }

  lemma DetailsExtend(bs: Bytes, more: Bytes)
    requires ReadDetails(bs).Ok?
    ensures ReadDetails(bs + more) == Ok(ReadDetails(bs).value, ReadDetails(bs).rest + more)
  {
    U16Extends(bs, more);
    TableExtends(ReadU16(bs).value, ReadU16(bs).rest, map[], more);
  }

  // ----- services -----

  const RTC: u16 := 1
  const RTM: u16 := 2
  const STREAMING: u16 := 3
  const FPA: u16 := 4
  const CHAT: u16 := 5
  const FCDN: u16 := 6
  const APAAS: u16 := 7
  const RTM2: u16 := 8

  /** A plain service carries a type of its own choosing and privileges only. */
  datatype Service =
    | Rtc(privileges: Privileges, channelName: Bytes, uid: Bytes)
    | Rtm(privileges: Privileges, userId: Bytes)
    | Streaming(privileges: Privileges, channelName: Bytes, account: Bytes)
    | Fpa(privileges: Privileges)
    | Chat(privileges: Privileges, userId: Bytes)
    | FCdn(privileges: Privileges, channelName: Bytes, account: Bytes)
    | Apaas(privileges: Privileges, roomUuid: Bytes, userUuid: Bytes, role: i16)
    | Rtm2(privileges: Privileges, userId: Bytes, permissions: Details)
    | Plain(privileges: Privileges, kind: u16)

  predicate KnownType(kind: u16) {
    RTC <= kind <= RTM2
  }

  function TypeOf(s: Service): u16 {
    match s
    case Rtc(_, _, _) => RTC
    case Rtm(_, _) => RTM
    case Streaming(_, _, _) => STREAMING
    case Fpa(_) => FPA
    case Chat(_, _) => CHAT
    case FCdn(_, _, _) => FCDN
    case Apaas(_, _, _, _) => APAAS
    case Rtm2(_, _, _) => RTM2
    case Plain(_, kind) => kind
  }

  /** The fields of a service after its privileges. */
  function PackTail(s: Service): Bytes {
    match s
    case Rtc(_, channelName, uid) => PackString(channelName) + PackString(uid)
    case Rtm(_, userId) => PackString(userId)
    case Streaming(_, channelName, account) => PackString(channelName) + PackString(account)
    case Fpa(_) => []
    case Chat(_, userId) => PackString(userId)
    case FCdn(_, channelName, account) => PackString(channelName) + PackString(account)
    case Apaas(_, roomUuid, userUuid, role) => PackString(roomUuid) + PackString(userUuid) + PackI16(role)
    case Rtm2(_, userId, permissions) => PackString(userId) + PackDetails(permissions)
    case Plain(_, _) => []
  }

  /** The bytes after the service type. */
  function PackBody(s: Service): Bytes {
    PackMap(s.privileges) + PackTail(s)
  }

  function Pack(s: Service): Bytes {
    PackU16(TypeOf(s)) + PackBody(s)
  }

  datatype Pair = Pair(first: Bytes, second: Bytes)

  function ReadPair(bs: Bytes): Parsed<Pair> {
    var first := ReadString(bs);
    if first.Fail? then Fail else
    var second := ReadString(first.rest);
    if second.Fail? then Fail else Ok(Pair(first.value, second.value), second.rest)
  }

  /** RTC does not look at the error of its first string: only the second read decides. */
  function ReadRtcPair(bs: Bytes): Parsed<Pair> {
    var channelName := ReadString(bs);
    var uid := ReadString(channelName.After());
    if uid.Fail? then Fail else Ok(Pair(channelName.ValueOr([]), uid.value), uid.rest)
  }

  datatype Room = Room(roomUuid: Bytes, userUuid: Bytes, role: i16)

  /** APaaS reports only the error of its last read. */
  function ReadRoom(bs: Bytes): Parsed<Room> {
    var roomUuid := ReadString(bs);
    var userUuid := ReadString(roomUuid.After());
    var role := ReadI16(userUuid.After());
    if role.Fail? then Fail else Ok(Room(roomUuid.ValueOr([]), userUuid.ValueOr([]), role.value), role.rest)
  }

  /** The overwritten errors hide nothing: a failed read drains the reader, so the last read fails too. */
  lemma OverwrittenErrorsStillFail(bs: Bytes)
    ensures ReadRtcPair(bs) == ReadPair(bs)
    ensures ReadRoom(bs).Ok? <==>
      ReadPair(bs).Ok? && ReadI16(ReadPair(bs).rest).Ok?
    ensures ReadRoom(bs).Ok? ==>
      ReadRoom(bs) == Ok(Room(ReadPair(bs).value.first, ReadPair(bs).value.second, ReadI16(ReadPair(bs).rest).value),
                         ReadI16(ReadPair(bs).rest).rest)
  {
    assert ReadString([]).Fail? && ReadI16([]).Fail?;
  }

  function ReadTail(kind: u16, privileges: Privileges, bs: Bytes): Parsed<Service>
    requires KnownType(kind)
  {
    if kind == RTC then
      var p := ReadRtcPair(bs);
      if p.Fail? then Fail else Ok(Rtc(privileges, p.value.first, p.value.second), p.rest)
    else if kind == STREAMING || kind == FCDN then
      var p := ReadPair(bs);
      if p.Fail? then Fail
      else if kind == STREAMING then Ok(Streaming(privileges, p.value.first, p.value.second), p.rest)
      else Ok(FCdn(privileges, p.value.first, p.value.second), p.rest)
    else if kind == RTM || kind == CHAT then
      var userId := ReadString(bs);
      if userId.Fail? then Fail
      else if kind == RTM then Ok(Rtm(privileges, userId.value), userId.rest)
      else Ok(Chat(privileges, userId.value), userId.rest)
    else if kind == FPA then Ok(Fpa(privileges), bs)
    else if kind == APAAS then
      var p := ReadRoom(bs);
      if p.Fail? then Fail else Ok(Apaas(privileges, p.value.roomUuid, p.value.userUuid, p.value.role), p.rest)
    else
      var userId := ReadString(bs);
      if userId.Fail? then Fail else
      var permissions := ReadDetails(userId.rest);
      if permissions.Fail? then Fail else Ok(Rtm2(privileges, userId.value, permissions.value), permissions.rest)
  }

  /** UnPack of a service whose type has been consumed. */
  function ReadBody(kind: u16, bs: Bytes): Parsed<Service>
    requires KnownType(kind)
  {
    match ReadMap(bs)
    case Fail => Fail
    case Ok(privileges, rest) => ReadTail(kind, privileges, rest)
  }

  /** Every length and count of the service fits its two-byte prefix. */
  predicate Fits(s: Service) {
    && |s.privileges| < LIMIT16
    && match s
       case Rtc(_, channelName, uid) => |channelName| < LIMIT16 && |uid| < LIMIT16
       case Rtm(_, userId) => |userId| < LIMIT16
       case Streaming(_, channelName, account) => |channelName| < LIMIT16 && |account| < LIMIT16
       case Fpa(_) => true
       case Chat(_, userId) => |userId| < LIMIT16
       case FCdn(_, channelName, account) => |channelName| < LIMIT16 && |account| < LIMIT16
       case Apaas(_, roomUuid, userUuid, _) => |roomUuid| < LIMIT16 && |userUuid| < LIMIT16
       case Rtm2(_, userId, permissions) => |userId| < LIMIT16 && DetailsFit(permissions)
       case Plain(_, _) => true
  }

  /** A service of one of the eight kinds; plain services with a borrowed type number are not. */
  predicate Known(s: Service) {
    !s.Plain?
  }

  /** What a receiver gets: RTM2 loses its empty resource types, the other kinds lose nothing. */
  function Received(s: Service): (r: Service)
    ensures TypeOf(r) == TypeOf(s)
    ensures r == s <==> (s.Rtm2? ==> NoEmptyInner(s.permissions))
  {
    match s
    case Rtm2(privileges, userId, permissions) =>
      DropEmptyIdentityIff(permissions);
      Rtm2(privileges, userId, DropEmpty(permissions))
    case _ => s
  }

  lemma PairRoundTrip(first: Bytes, second: Bytes, rest: Bytes)
    requires |first| < LIMIT16 && |second| < LIMIT16
    ensures ReadPair(PackString(first) + PackString(second) + rest) == Ok(Pair(first, second), rest)
  {
    Assoc(PackString(first), PackString(second), rest);
    StringRoundTrip(first, PackString(second) + rest);
    StringRoundTrip(second, rest);
  }

  lemma RoomRoundTrip(room: Room, rest: Bytes)
    requires |room.roomUuid| < LIMIT16 && |room.userUuid| < LIMIT16
    ensures ReadRoom(PackString(room.roomUuid) + PackString(room.userUuid) + PackI16(room.role) + rest) == Ok(room, rest)
  {
    var tail := PackI16(room.role) + rest;
    Assoc(PackString(room.roomUuid) + PackString(room.userUuid), PackI16(room.role), rest);
    PairRoundTrip(room.roomUuid, room.userUuid, tail);
    I16RoundTrip(room.role, rest);
    OverwrittenErrorsStillFail(PackString(room.roomUuid) + PackString(room.userUuid) + tail);
  }

  lemma Rtm2RoundTrip(s: Service, rest: Bytes)
    requires s.Rtm2? && Fits(s)
    ensures ReadTail(RTM2, s.privileges, PackString(s.userId) + PackDetails(s.permissions) + rest) == Ok(Received(s), rest)
  {
    hide ReadString, PackString, PackDetails, ReadDetails;
    Assoc(PackString(s.userId), PackDetails(s.permissions), rest);
    StringRoundTrip(s.userId, PackDetails(s.permissions) + rest);
    DetailsRoundTrip(s.permissions, rest);
  }

  lemma PairKindRoundTrip(s: Service, rest: Bytes)
    requires (s.Rtc? || s.Streaming? || s.FCdn?) && Fits(s)
    ensures ReadTail(TypeOf(s), s.privileges, PackTail(s) + rest) == Ok(s, rest)
  {
    var first := s.channelName;
    var second := if s.Rtc? then s.uid else s.account;
    PairRoundTrip(first, second, rest);
    OverwrittenErrorsStillFail(PackString(first) + PackString(second) + rest);
  }

  lemma UserKindRoundTrip(s: Service, rest: Bytes)
    requires (s.Rtm? || s.Chat?) && Fits(s)
    ensures ReadTail(TypeOf(s), s.privileges, PackTail(s) + rest) == Ok(s, rest)
  {
    StringRoundTrip(s.userId, rest);
  }

  lemma ApaasRoundTrip(s: Service, rest: Bytes)
    requires s.Apaas? && Fits(s)
    ensures ReadTail(APAAS, s.privileges, PackTail(s) + rest) == Ok(s, rest)
  {
    hide ReadRoom, PackString, PackI16;
    RoomRoundTrip(Room(s.roomUuid, s.userUuid, s.role), rest);
  }

  lemma TailRoundTrip(s: Service, rest: Bytes)
    requires Known(s) && Fits(s)
    ensures ReadTail(TypeOf(s), s.privileges, PackTail(s) + rest) == Ok(Received(s), rest)
  {
    hide PackMap, ReadMap, PackString, ReadString, PackDetails, ReadDetails, ReadRoom, ReadPair, ReadRtcPair, PackI16;
    if s.Rtc? || s.Streaming? || s.FCdn? {
      PairKindRoundTrip(s, rest);
    } else if s.Rtm? || s.Chat? {
      UserKindRoundTrip(s, rest);
    } else if s.Fpa? {
      assert PackTail(s) + rest == rest;
    } else if s.Apaas? {
      ApaasRoundTrip(s, rest);
    } else {
      Rtm2RoundTrip(s, rest);
    }
  }

  /** Decoding a packed service followed by any bytes returns that service and those bytes. */
  lemma BodyRoundTrip(s: Service, rest: Bytes)
    requires Known(s) && Fits(s)
    ensures ReadBody(TypeOf(s), PackBody(s) + rest) == Ok(Received(s), rest)
  {
    hide ReadMap, PackMap, ReadTail, PackTail, Received;
    Assoc(PackMap(s.privileges), PackTail(s), rest);
    MapRoundTrip(s.privileges, PackTail(s) + rest);
    TailRoundTrip(s, rest);
  }

  lemma PairExtends(bs: Bytes, more: Bytes)
    requires ReadPair(bs).Ok?
    ensures ReadPair(bs + more) == Ok(ReadPair(bs).value, ReadPair(bs).rest + more)
  {
    StringExtends(bs, more);
    StringExtends(ReadString(bs).rest, more);
  }

  lemma RoomExtends(bs: Bytes, more: Bytes)
    requires ReadRoom(bs).Ok?
    ensures ReadRoom(bs + more) == Ok(ReadRoom(bs).value, ReadRoom(bs).rest + more)
  {
    OverwrittenErrorsStillFail(bs);
    OverwrittenErrorsStillFail(bs + more);
    PairExtends(bs, more);
    I16Extends(ReadPair(bs).rest, more);
  }

  lemma TailExtends(kind: u16, privileges: Privileges, bs: Bytes, more: Bytes)
    requires KnownType(kind) && ReadTail(kind, privileges, bs).Ok?
    ensures ReadTail(kind, privileges, bs + more)
      == Ok(ReadTail(kind, privileges, bs).value, ReadTail(kind, privileges, bs).rest + more)
  {
    if kind == RTC {
      OverwrittenErrorsStillFail(bs);
      OverwrittenErrorsStillFail(bs + more);
      PairExtends(bs, more);
    } else if kind == STREAMING || kind == FCDN {
      PairExtends(bs, more);
    } else if kind == RTM || kind == CHAT {
      StringExtends(bs, more);
    } else if kind == APAAS {
      RoomExtends(bs, more);
    } else if kind == RTM2 {
      StringExtends(bs, more);
      DetailsExtend(ReadString(bs).rest, more);
    }
  }

  lemma BodyExtends(kind: u16, bs: Bytes, more: Bytes)
    requires KnownType(kind) && ReadBody(kind, bs).Ok?
    ensures ReadBody(kind, bs + more) == Ok(ReadBody(kind, bs).value, ReadBody(kind, bs).rest + more)
  {
    MapExtends(bs, more);
    TailExtends(kind, ReadMap(bs).value, ReadMap(bs).rest, more);
  }
}
