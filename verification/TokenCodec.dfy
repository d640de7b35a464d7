/** The token codec as it runs: writers that append to a buffer, readers that advance through one, and
    the AccessToken object, each proved against the byte format of the other token modules. */
module TokenCodec {
  import opened TokenBytes
  import opened TokenServices

  // ----- writing -----

  class Buffer {
    var data: Bytes

    constructor ()
      ensures data == []
    {
      data := [];
    }

    method Write(bs: Bytes)
      modifies this
      ensures data == old(data) + bs
    {
      data := data + bs;
    }
  }

  method PackUint16(w: Buffer, n: u16)
    modifies w
    ensures w.data == old(w.data) + PackU16(n)
  {
    w.Write([n % 256, n / 256]);
  }

  method PackUint32(w: Buffer, n: u32)
    modifies w
    ensures w.data == old(w.data) + PackU32(n)
  {
    w.Write([n % 256, n / 0x100 % 256, n / 0x1_0000 % 256, n / 0x100_0000]);
  }

  method PackStringTo(w: Buffer, s: Bytes)
    modifies w
    ensures w.data == old(w.data) + PackString(s)
  {
    PackUint16(w, |s| % LIMIT16);
    w.Write(s);
  }

  predicate Ascending(ks: seq<u16>) {
    forall i, j :: 0 <= i < j < |ks| ==> ks[i] < ks[j]
  }

  /** The keys of a map arrive in any order; sorting them gives the one ascending list. */
  method SortedKeys<V>(m: map<u16, V>) returns (ks: seq<u16>)
    ensures ks == Keys(m)
  {
    ks := [];
    var rest := m.Keys;
    while rest != {}
      invariant rest <= m.Keys && Ascending(ks)
      invariant forall k :: k in ks <==> k in m.Keys && k !in rest
      decreases |rest|
    {
      var k :| k in rest;
      rest := rest - {k};
      ks := InsertKey(ks, k);
    }
    AscendingIsUnique(ks, Keys(m));
  }

  method InsertKey(ks: seq<u16>, k: u16) returns (r: seq<u16>)
    requires Ascending(ks) && k !in ks
    ensures Ascending(r) && forall x :: x in r <==> x == k || x in ks
  {
    var i := 0;
    while i < |ks| && ks[i] < k
      invariant 0 <= i <= |ks| && forall j :: 0 <= j < i ==> ks[j] < k
    {
      i := i + 1;
    }
    assert i < |ks| ==> ks[i] in ks;
    Inserted(ks, k, i);
    r := ks[..i] + [k] + ks[i..];
  }

  lemma Inserted(ks: seq<u16>, k: u16, i: nat)
    requires Ascending(ks) && i <= |ks|
    requires forall j :: 0 <= j < i ==> ks[j] < k
    requires i < |ks| ==> k < ks[i]
    ensures Ascending(ks[..i] + [k] + ks[i..])
    ensures forall x :: x in ks[..i] + [k] + ks[i..] <==> x == k || x in ks
  {
    assert ks == ks[..i] + ks[i..];
  }

  method PackMapUint32(w: Buffer, m: Privileges)
    modifies w
    ensures w.data == old(w.data) + PackMap(m)
  {
    var keys := SortedKeys(m);
    KeysFacts(m);
    Assoc(w.data, PackU16(|m| % LIMIT16), PackEntries(m, keys));
    PackUint16(w, |m| % LIMIT16);
    PackSortedEntries(w, m, keys);
  }

  method PackSortedEntries(w: Buffer, m: Privileges, keys: seq<u16>)
    requires forall k :: k in keys ==> k in m
    modifies w
    ensures w.data == old(w.data) + PackEntries(m, keys)
  {
    ghost var start := w.data;
    for i := 0 to |keys|
      invariant w.data + PackEntries(m, keys[i..]) == start + PackEntries(m, keys)
    {
      EntriesStep(w.data, m, keys, i);
      PackUint16(w, keys[i]);
      PackUint32(w, m[keys[i]]);
    }
    assert keys[|keys|..] == [] && w.data + [] == w.data;
  }

  lemma EntriesStep(before: Bytes, m: Privileges, keys: seq<u16>, i: nat)
    requires i < |keys| && forall k :: k in keys ==> k in m
    ensures before + PackEntries(m, keys[i..])
      == before + PackU16(keys[i]) + PackU32(m[keys[i]]) + PackEntries(m, keys[i + 1..])
  {
    assert keys[i..][1..] == keys[i + 1..];
    Assoc3(before, PackU16(keys[i]), PackU32(m[keys[i]]), PackEntries(m, keys[i + 1..]));
    Assoc(PackU16(keys[i]), PackU32(m[keys[i]]), PackEntries(m, keys[i + 1..]));
  }

  method PackResources(w: Buffer, resources: Resources)
    modifies w
    ensures w.data == old(w.data) + PackStrings(resources)
  {
    ghost var goal := w.data + PackStrings(resources);
    for i := 0 to |resources|
      invariant w.data + PackStrings(resources[i..]) == goal
    {
      Assoc(w.data, PackString(resources[i]), PackStrings(resources[i + 1..]));
      assert resources[i..][1..] == resources[i + 1..];
      PackStringTo(w, resources[i]);
    }
    assert resources[|resources|..] == [] && w.data + [] == w.data;
  }

  method PackPermissionMap(w: Buffer, permissionMap: map<u16, Resources>)
    modifies w
    ensures w.data == old(w.data) + PackInner(permissionMap)
  {
    var permissionTypes := SortedKeys(permissionMap);
    KeysFacts(permissionMap);
    Assoc(w.data, PackU16(|permissionMap| % LIMIT16), PackPermissions(permissionMap, permissionTypes));
    PackUint16(w, |permissionMap| % LIMIT16);
    PackSortedPermissions(w, permissionMap, permissionTypes);
  }

  method PackSortedPermissions(w: Buffer, permissionMap: map<u16, Resources>, permissionTypes: seq<u16>)
    requires forall k :: k in permissionTypes ==> k in permissionMap
    modifies w
    ensures w.data == old(w.data) + PackPermissions(permissionMap, permissionTypes)
  {
    ghost var start := w.data;
    for i := 0 to |permissionTypes|
      invariant w.data + PackPermissions(permissionMap, permissionTypes[i..])
        == start + PackPermissions(permissionMap, permissionTypes)
    {
      var resources := permissionMap[permissionTypes[i]];
      PermissionsStep(w.data, permissionMap, permissionTypes, i);
      PackUint16(w, permissionTypes[i]);
      PackUint16(w, |resources| % LIMIT16);
      PackResources(w, resources);
    }
    assert permissionTypes[|permissionTypes|..] == [] && w.data + [] == w.data;
  }

  lemma PermissionsStep(before: Bytes, m: map<u16, Resources>, keys: seq<u16>, i: nat)
    requires i < |keys| && forall k :: k in keys ==> k in m
    ensures before + PackPermissions(m, keys[i..])
      == before + PackU16(keys[i]) + PackU16(|m[keys[i]]| % LIMIT16) + PackStrings(m[keys[i]]) + PackPermissions(m, keys[i + 1..])
  {
    assert keys[i..][1..] == keys[i + 1..];
    OneEntry(before, PackU16(keys[i]), PackU16(|m[keys[i]]| % LIMIT16), PackStrings(m[keys[i]]), PackPermissions(m, keys[i + 1..]));
  }

  lemma OneEntry(before: Bytes, a: Bytes, b: Bytes, c: Bytes, rest: Bytes)
    ensures before + a + b + c + rest == before + (a + (b + c) + rest)
  {
  }

  method PackPermissionTable(w: Buffer, details: Details)
    modifies w
    ensures w.data == old(w.data) + PackDetails(details)
  {
    var resourceTypes := SortedKeys(details);
    KeysFacts(details);
    Assoc(w.data, PackU16(|details| % LIMIT16), PackTable(details, resourceTypes));
    PackUint16(w, |resourceTypes| % LIMIT16);
    PackSortedTable(w, details, resourceTypes);
  }

  method PackSortedTable(w: Buffer, details: Details, resourceTypes: seq<u16>)
    requires forall k :: k in resourceTypes ==> k in details
    modifies w
    ensures w.data == old(w.data) + PackTable(details, resourceTypes)
  {
    ghost var start := w.data;
    for i := 0 to |resourceTypes|
      invariant w.data + PackTable(details, resourceTypes[i..]) == start + PackTable(details, resourceTypes)
    {
      TableStepFrom(w.data, details, resourceTypes, i);
      PackUint16(w, resourceTypes[i]);
      PackPermissionMap(w, details[resourceTypes[i]]);
    }
    assert resourceTypes[|resourceTypes|..] == [] && w.data + [] == w.data;
  }

  lemma TableStepFrom(before: Bytes, d: Details, keys: seq<u16>, i: nat)
    requires i < |keys| && forall k :: k in keys ==> k in d
    ensures before + PackTable(d, keys[i..])
      == before + PackU16(keys[i]) + PackInner(d[keys[i]]) + PackTable(d, keys[i + 1..])
  {
    assert keys[i..][1..] == keys[i + 1..];
    Assoc3(before, PackU16(keys[i]), PackInner(d[keys[i]]), PackTable(d, keys[i + 1..]));
    Assoc(PackU16(keys[i]), PackInner(d[keys[i]]), PackTable(d, keys[i + 1..]));
  }

  /** Pack of each service kind: its type, its privileges, then its own fields. */
  method PackService(w: Buffer, s: Service)
    modifies w
    ensures w.data == old(w.data) + Pack(s)
  {
    Assoc3(w.data, PackU16(TypeOf(s)), PackMap(s.privileges), PackTail(s));
    PackUint16(w, TypeOf(s));
    PackMapUint32(w, s.privileges);
    PackFields(w, s);
  }

  method PackPair(w: Buffer, first: Bytes, second: Bytes)
    modifies w
    ensures w.data == old(w.data) + (PackString(first) + PackString(second))
  {
    Assoc(w.data, PackString(first), PackString(second));
    PackStringTo(w, first);
    PackStringTo(w, second);
  }

  method PackFields(w: Buffer, s: Service)
    modifies w
    ensures w.data == old(w.data) + PackTail(s)
  {
    match s {
      case Rtc(_, channelName, uid) =>
        PackPair(w, channelName, uid);
      case Rtm(_, userId) =>
        PackStringTo(w, userId);
      case Streaming(_, channelName, account) =>
        PackPair(w, channelName, account);
      case Fpa(_) =>
      case Chat(_, userId) =>
        PackStringTo(w, userId);
      case FCdn(_, channelName, account) =>
        PackPair(w, channelName, account);
      case Apaas(_, roomUuid, userUuid, role) =>
        Assoc(w.data, PackString(roomUuid) + PackString(userUuid), PackI16(role));
        PackPair(w, roomUuid, userUuid);
        PackUint16(w, if role < 0 then role + 0x1_0000 else role);
      case Rtm2(_, userId, permissions) =>
        Assoc(w.data, PackString(userId), PackDetails(permissions));
        PackStringTo(w, userId);
        PackPermissionTable(w, permissions);
      case Plain(_, _) =>
    }
  }

  // ----- reading -----

  class Reader {
    const data: Bytes
    var pos: nat

    ghost predicate Valid()
      reads this
    {
      pos <= |data|
    }

    function Remaining(): Bytes
      requires Valid()
      reads this
    {
      data[pos..]
    }

    constructor (data: Bytes)
      ensures Valid() && this.data == data && Remaining() == data
    {
      this.data := data;
      pos := 0;
    }

    /** A full read takes n bytes; a short one takes all that is left and fails. */
    method ReadFull(n: nat) returns (buf: Bytes, ok: bool)
      requires Valid()
      modifies this
      ensures Valid()
      ensures ok <==> |old(Remaining())| >= n
      ensures ok ==> buf == old(Remaining())[..n] && Remaining() == old(Remaining())[n..]
      ensures !ok ==> buf == old(Remaining()) && Remaining() == []
    {
      if |data| - pos < n {
        buf, ok := data[pos..], false;
        pos := |data|;
      } else {
        buf, ok := data[pos..pos + n], true;
        pos := pos + n;
      }
    }

    method UnPackUint16() returns (n: u16, ok: bool)
      requires Valid()
      modifies this
      ensures Valid() && (ok <==> ReadU16(old(Remaining())).Ok?)
      ensures n == ReadU16(old(Remaining())).ValueOr(0) && Remaining() == ReadU16(old(Remaining())).After()
    {
      var buf;
      buf, ok := ReadFull(2);
      if !ok {
        return 0, false;
      }
      var b0: int, b1: int := buf[0], buf[1];
      n := b0 + 0x100 * b1;
    }

    method UnPackUint32() returns (n: u32, ok: bool)
      requires Valid()
      modifies this
      ensures Valid() && (ok <==> ReadU32(old(Remaining())).Ok?)
      ensures n == ReadU32(old(Remaining())).ValueOr(0) && Remaining() == ReadU32(old(Remaining())).After()
    {
      var buf;
      buf, ok := ReadFull(4);
      if !ok {
        return 0, false;
      }
      var b0: int, b1: int, b2: int, b3: int := buf[0], buf[1], buf[2], buf[3];
      n := b0 + 0x100 * b1 + 0x1_0000 * b2 + 0x100_0000 * b3;
    }

    method UnPackInt16() returns (n: i16, ok: bool)
      requires Valid()
      modifies this
      ensures Valid() && (ok <==> ReadI16(old(Remaining())).Ok?)
      ensures n == ReadI16(old(Remaining())).ValueOr(0) && Remaining() == ReadI16(old(Remaining())).After()
    {
      var word;
      word, ok := UnPackUint16();
      var wide: int := word;
      n := if wide >= 0x8000 then wide - 0x1_0000 else wide;
    }

    method UnPackString() returns (s: Bytes, ok: bool)
      requires Valid()
      modifies this
      ensures Valid() && (ok <==> ReadString(old(Remaining())).Ok?)
      ensures s == ReadString(old(Remaining())).ValueOr([]) && Remaining() == ReadString(old(Remaining())).After()
    {
      var n, buf;
      n, ok := UnPackUint16();
      if !ok {
        return [], false;
      }
      buf, ok := ReadFull(n);
      s := if ok then buf else [];
    }

    method UnPackMapUint32() returns (data: Privileges, ok: bool)
      requires Valid()
      modifies this
      ensures Valid() && (ok <==> ReadMap(old(Remaining())).Ok?)
      ensures ok ==> data == ReadMap(old(Remaining())).value
      ensures Remaining() == ReadMap(old(Remaining())).After()
    {
      data := map[];
      var len;
      len, ok := UnPackUint16();
      if !ok {
        return;
      }
      ghost var goal := ReadEntries(len, Remaining(), map[]);
      for i := 0 to len
        invariant Valid() && ok
        invariant ReadEntries(len - i, Remaining(), data) == goal
      {
        var key, value;
        key, ok := UnPackUint16();
        if !ok {
          return;
        }
        value, ok := UnPackUint32();
        if !ok {
          return;
        }
        data := data[key := value];
      }
    }

    method UnPackResources(n: nat) returns (resources: Resources, ok: bool)
      requires Valid()
      modifies this
      ensures Valid() && (ok <==> ReadStrings(n, old(Remaining()), []).Ok?)
      ensures ok ==> resources == ReadStrings(n, old(Remaining()), []).value
      ensures Remaining() == ReadStrings(n, old(Remaining()), []).After()
    {
      resources, ok := [], true;
      ghost var goal := ReadStrings(n, Remaining(), []);
      for k := 0 to n
        invariant Valid() && ok
        invariant ReadStrings(n - k, Remaining(), resources) == goal
      {
        var resource;
        resource, ok := UnPackString();
        if !ok {
          return;
        }
        resources := resources + [resource];
      }
    }

    method UnPackPermissions(n: nat, resourceType: u16, table: Details) returns (details: Details, ok: bool)
      requires Valid()
      modifies this
      ensures Valid() && (ok <==> ReadPermissions(n, old(Remaining()), resourceType, table).Ok?)
      ensures ok ==> details == ReadPermissions(n, old(Remaining()), resourceType, table).value
      ensures Remaining() == ReadPermissions(n, old(Remaining()), resourceType, table).After()
    {
      details, ok := table, true;
      ghost var goal := ReadPermissions(n, Remaining(), resourceType, table);
      for j := 0 to n
        invariant Valid() && ok
        invariant ReadPermissions(n - j, Remaining(), resourceType, details) == goal
      {
        var permissionType, count, resources;
        permissionType, ok := UnPackUint16();
        if !ok {
          return;
        }
        count, ok := UnPackUint16();
        if !ok {
          return;
        }
        resources, ok := UnPackResources(count);
        if !ok {
          return;
        }
        details := Add(details, resourceType, permissionType, resources);
      }
    }

    method UnPackTable(n: nat) returns (details: Details, ok: bool)
      requires Valid()
      modifies this
      ensures Valid() && (ok <==> ReadTable(n, old(Remaining()), map[]).Ok?)
      ensures ok ==> details == ReadTable(n, old(Remaining()), map[]).value
      ensures Remaining() == ReadTable(n, old(Remaining()), map[]).After()
    {
      details, ok := map[], true;
      ghost var goal := ReadTable(n, Remaining(), map[]);
      for i := 0 to n
        invariant Valid() && ok
        invariant ReadTable(n - i, Remaining(), details) == goal
      {
        var resourceType, permissionCount;
        resourceType, ok := UnPackUint16();
        if !ok {
          return;
        }
        permissionCount, ok := UnPackUint16();
        if !ok {
          return;
        }
        details, ok := UnPackPermissions(permissionCount, resourceType, details);
        if !ok {
          return;
        }
      }
    }

    method UnPackPermissionTable() returns (details: Details, ok: bool)
      requires Valid()
      modifies this
      ensures Valid() && (ok <==> ReadDetails(old(Remaining())).Ok?)
      ensures ok ==> details == ReadDetails(old(Remaining())).value
      ensures Remaining() == ReadDetails(old(Remaining())).After()
    {
      details := map[];
      var resourceCount;
      resourceCount, ok := UnPackUint16();
      if ok {
        details, ok := UnPackTable(resourceCount);
      }
    }

    method UnPackPair() returns (pair: Pair, ok: bool)
      requires Valid()
      modifies this
      ensures Valid() && (ok <==> ReadPair(old(Remaining())).Ok?)
      ensures ok ==> pair == ReadPair(old(Remaining())).value
      ensures Remaining() == ReadPair(old(Remaining())).After()
    {
      var first, second := [], [];
      first, ok := UnPackString();
      if ok {
        second, ok := UnPackString();
      }
      pair := Pair(first, second);
    }

    /** The error of the first string is overwritten by the second read. */
    method UnPackRtcPair() returns (pair: Pair, ok: bool)
      requires Valid()
      modifies this
      ensures Valid() && (ok <==> ReadRtcPair(old(Remaining())).Ok?)
      ensures ok ==> pair == ReadRtcPair(old(Remaining())).value
      ensures Remaining() == ReadRtcPair(old(Remaining())).After()
    {
      var channelName, uid;
      channelName, ok := UnPackString();
      uid, ok := UnPackString();
      pair := Pair(channelName, uid);
    }

    method UnPackRoom() returns (room: Room, ok: bool)
      requires Valid()
      modifies this
      ensures Valid() && (ok <==> ReadRoom(old(Remaining())).Ok?)
      ensures ok ==> room == ReadRoom(old(Remaining())).value
      ensures Remaining() == ReadRoom(old(Remaining())).After()
    {
      var roomUuid, userUuid, role;
      roomUuid, ok := UnPackString();
      userUuid, ok := UnPackString();
      role, ok := UnPackInt16();
      room := Room(roomUuid, userUuid, role);
    }

    method UnPackRtm2Fields(privileges: Privileges) returns (service: Service, ok: bool)
      requires Valid()
      modifies this
      ensures Valid() && (ok <==> ReadTail(RTM2, privileges, old(Remaining())).Ok?)
      ensures ok ==> service == ReadTail(RTM2, privileges, old(Remaining())).value
      ensures Remaining() == ReadTail(RTM2, privileges, old(Remaining())).After()
    {
      var userId, permissions := [], map[];
      userId, ok := UnPackString();
      if ok {
        permissions, ok := UnPackPermissionTable();
      }
      service := Rtm2(privileges, userId, permissions);
    }

    method UnPackFields(kind: u16, privileges: Privileges) returns (service: Service, ok: bool)
      requires Valid() && KnownType(kind)
      modifies this
      ensures Valid() && (ok <==> ReadTail(kind, privileges, old(Remaining())).Ok?)
      ensures ok ==> service == ReadTail(kind, privileges, old(Remaining())).value
      ensures Remaining() == ReadTail(kind, privileges, old(Remaining())).After()
    {
      if kind == FPA {
        service, ok := Fpa(privileges), true;
      } else if kind == RTC {
        var pair;
        pair, ok := UnPackRtcPair();
        service := Rtc(privileges, pair.first, pair.second);
      } else if kind == RTM || kind == CHAT {
        var userId;
        userId, ok := UnPackString();
        service := if kind == RTM then Rtm(privileges, userId) else Chat(privileges, userId);
      } else if kind == STREAMING || kind == FCDN {
        var pair;
        pair, ok := UnPackPair();
        service := if kind == STREAMING then Streaming(privileges, pair.first, pair.second)
                   else FCdn(privileges, pair.first, pair.second);
      } else if kind == APAAS {
        var room;
        room, ok := UnPackRoom();
        service := Apaas(privileges, room.roomUuid, room.userUuid, room.role);
      } else {
        service, ok := UnPackRtm2Fields(privileges);
      }
    }

    method UnPackService(kind: u16) returns (service: Service, ok: bool)
      requires Valid() && KnownType(kind)
      modifies this
      ensures Valid() && (ok <==> ReadBody(kind, old(Remaining())).Ok?)
      ensures ok ==> service == ReadBody(kind, old(Remaining())).value
      ensures Remaining() == ReadBody(kind, old(Remaining())).After()
    {
      service := Fpa(map[]);
      var privileges;
      privileges, ok := UnPackMapUint32();
      if ok {
        service, ok := UnPackFields(kind, privileges);
      }
    }
  }
}
