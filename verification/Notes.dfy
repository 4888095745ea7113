/** Maestro notes, and their serialisation. */
module Notes {
  import opened MsgPack

  // Note types
  const REQUEST := 0
  const RESPONSE := 1
  const NOTIFICATION := 2

  // Note commands
  const START_RECEIVER := 0
  const STOP_RECEIVER := 1
  const START_SENDER := 2
  const STOP_SENDER := 3
  const FLUSH := 6
  const SET := 7
  const STATS := 8
  const HALT := 9
  const PING := 10
  const OK := 11
  const PROTOCOL_ERROR := 12
  const INTERNAL_ERROR := 13
  const NOTIFY_FAIL := 15
  const NOTIFY_SUCCESS := 16

  datatype ReplyBody =
    | EmptyBody
    | PingBody(elapsed: nat)
    | StatsBody(childCount: nat, role: Bytes, roleInfo: Bytes, statType: nat,
                timestamp: Bytes, count: nat, rate: nat, latency: nat)

  datatype Payload =
    | NoPayload
    | SetOption(opt: int, value: Bytes)
    | PingTime(sec: nat, usec: nat)
    | Reply(id: Bytes, name: Bytes, body: ReplyBody)
    | Notice(id: Bytes, name: Bytes, message: Bytes)

  datatype Note = Note(kind: nat, command: nat, payload: Payload)

  // ----- The values that the fields of the C structures can hold

  predicate CString(s: Bytes) {
    |s| < 0x8000_0000 && forall i :: 0 <= i < |s| ==> s[i] != 0
  }

  predicate U32(n: nat) { n < 0x1_0000_0000 }

  predicate U64(n: nat) { n < 0x1_0000_0000_0000_0000 }

  predicate BodyInRange(b: ReplyBody) {
    match b
    case EmptyBody => true
    case PingBody(elapsed) => U64(elapsed)
    case StatsBody(children, role, info, stat, ts, count, rate, latency) =>
      && U32(children) && CString(role) && CString(info) && U32(stat)
      && CString(ts) && U64(count) && U64(rate) && U64(latency)
  }

  predicate InRange(n: Note) {
    && U32(n.kind) && U32(n.command)
    && match n.payload
       case NoPayload => true
       case SetOption(opt, value) => -0x8000_0000_0000_0000 <= opt < 0x8000_0000_0000_0000 && CString(value)
       case PingTime(sec, usec) => U64(sec) && U64(usec)
       case Reply(id, name, body) => CString(id) && CString(name) && BodyInRange(body)
       case Notice(id, name, message) => CString(id) && CString(name) && CString(message)
  }

  /** The payload that the encoder of this type and command reads is there. */
  predicate Carries(n: Note) {
    if n.kind == REQUEST then
      && (n.command == SET ==> n.payload.SetOption?)
      && (n.command == PING ==> n.payload.PingTime?)
    else if n.kind == RESPONSE then
      && n.payload.Reply?
      && (n.command == PING ==> n.payload.body.PingBody?)
      && (n.command == STATS ==> n.payload.body.StatsBody?)
    else
      n.kind == NOTIFICATION && n.payload.Notice?
  }

  /** The notes that can be told apart on the wire: nothing is carried that is not encoded. */
  predicate WellFormed(n: Note) {
    && InRange(n) && Carries(n)
    && (n.kind == REQUEST && n.command != SET && n.command != PING ==> n.payload.NoPayload?)
    && (n.kind == RESPONSE && n.command != PING && n.command != STATS ==> n.payload.body.EmptyBody?)
    && (n.payload.Reply? && n.payload.body.StatsBody? ==> n.payload.body.statType < 0x100)
  }

  // ----- The wire format: a sequence of MessagePack objects

  function BodyFields(command: nat, body: ReplyBody): seq<Obj>
    requires command == PING ==> body.PingBody?
    requires command == STATS ==> body.StatsBody?
  {
    if command == PING then [Int(body.elapsed)]
    else if command == STATS then
      [Int(body.childCount), Str(body.role), Str(body.roleInfo), Int(body.statType % 0x100),
       Str(body.timestamp), Int(body.count), Float(body.rate), Float(body.latency)]
    else []
  }

  function Fields(n: Note): seq<Obj>
    requires Carries(n)
  {
    var p := n.payload;
    if n.kind == REQUEST then
      if n.command == SET then [Int(p.opt), Str(p.value)]
      else if n.command == PING then [Int(p.sec), Int(p.usec)]
      else []
    else if n.kind == RESPONSE then [Str(p.id), Str(p.name)] + BodyFields(n.command, p.body)
    else [Str(p.id), Str(p.name), Str(p.message)]
  }

  function Wire(n: Note): seq<Obj>
    requires Carries(n)
  {
    [Int(n.kind), Int(n.command)] + Fields(n)
  }

  /** The six shapes, field by field, with the numbers of the protocol. */
  lemma WireForms(n: Note)
    requires Carries(n)
    ensures n.kind == 0 && n.command == 7 ==> Wire(n) == [Int(0), Int(7), Int(n.payload.opt), Str(n.payload.value)]
    ensures n.kind == 0 && n.command == 10 ==> Wire(n) == [Int(0), Int(10), Int(n.payload.sec), Int(n.payload.usec)]
    ensures n.kind == 0 && n.command != 7 && n.command != 10 ==> Wire(n) == [Int(0), Int(n.command)]
    ensures n.kind == 1 ==> Wire(n)[..4] == [Int(1), Int(n.command), Str(n.payload.id), Str(n.payload.name)]
    ensures n.kind == 1 && n.command == 10 ==> Wire(n)[4..] == [Int(n.payload.body.elapsed)]
    ensures n.kind == 1 && n.command == 8 ==>
      var s := n.payload.body;
      Wire(n)[4..] == [Int(s.childCount), Str(s.role), Str(s.roleInfo), Int(s.statType % 256),
                       Str(s.timestamp), Int(s.count), Float(s.rate), Float(s.latency)]
    ensures n.kind == 1 && n.command != 10 && n.command != 8 ==> Wire(n)[4..] == []
    ensures n.kind == 2 ==>
      Wire(n) == [Int(2), Int(n.command), Str(n.payload.id), Str(n.payload.name), Str(n.payload.message)]
    ensures n.kind <= 2
  {
    WireHead(n);
  }

  lemma CommandNumbers()
    ensures [START_RECEIVER, STOP_RECEIVER, START_SENDER, STOP_SENDER] == [0, 1, 2, 3]
    ensures [FLUSH, SET, STATS, HALT, PING] == [6, 7, 8, 9, 10]
    ensures [OK, PROTOCOL_ERROR, INTERNAL_ERROR] == [11, 12, 13] && [NOTIFY_FAIL, NOTIFY_SUCCESS] == [15, 16]
  {
  }

  lemma WireHead(n: Note)
    requires Carries(n)
    ensures |Wire(n)| == 2 + |Fields(n)| && Wire(n)[2..] == Fields(n)
    ensures Wire(n)[0] == Int(n.kind) && Wire(n)[1] == Int(n.command)
  {
    hide Fields;
  }

  predicate AllPackable(objs: seq<Obj>) {
    forall i :: 0 <= i < |objs| ==> Packable(objs[i])
  }

  function PackAll(objs: seq<Obj>): Bytes
    requires AllPackable(objs)
  {
    if objs == [] then [] else Pack(objs[0]) + PackAll(objs[1..])
  }

  lemma WirePackable(n: Note)
    requires InRange(n) && Carries(n)
    ensures AllPackable(Wire(n))
  {
  }

  function Serialise(n: Note): Bytes
    requires InRange(n) && Carries(n)
  {
    WirePackable(n);
    PackAll(Wire(n))
  }

  lemma ConcatAssociates(a: Bytes, b: Bytes, c: Bytes)
    ensures a + (b + c) == a + b + c
  {
  }

  lemma {:induction false} PackAllConcat(a: seq<Obj>, b: seq<Obj>)
    requires AllPackable(a) && AllPackable(b)
    ensures PackAll(a + b) == PackAll(a) + PackAll(b)
  {
    if a == [] {
      assert a + b == b;
    } else {
      PackAllConcat(a[1..], b);
      assert (a + b)[1..] == a[1..] + b;
      ConcatAssociates(Pack(a[0]), PackAll(a[1..]), PackAll(b));
    }
  }

  // ----- The encoders

  /** The growing buffer that the packers write to. */
  class Packer {
    var data: Bytes
    ghost var packed: seq<Obj>

    ghost predicate Valid()
      reads this
    {
      AllPackable(packed) && data == PackAll(packed)
    }

    constructor ()
      ensures Valid() && packed == []
    {
      data, packed := [], [];
    }

    method Put(o: Obj)
      requires Valid() && Packable(o)
      modifies this
      ensures Valid() && packed == old(packed) + [o]
    {
      PackAllConcat(packed, [o]);
      assert PackAll([o]) == Pack(o) + [];
      data, packed := data + Pack(o), packed + [o];
    }

    /** Type and command, which open every note. */
    method PutHeading(n: Note)
      requires Valid() && InRange(n)
      modifies this
      ensures Valid() && packed == old(packed) + [Int(n.kind), Int(n.command)]
    {
      Put(Int(n.kind));
      Put(Int(n.command));
    }

    method PutHeader(id: Bytes, name: Bytes)
      requires Valid() && CString(id) && CString(name)
      modifies this
      ensures Valid() && packed == old(packed) + [Str(id), Str(name)]
    {
      Put(Str(id));
      Put(Str(name));
    }

    method PutChildren(stats: ReplyBody)
      requires Valid() && BodyInRange(stats) && stats.StatsBody?
      modifies this
      ensures Valid()
      ensures packed == old(packed)
        + [Int(stats.childCount), Str(stats.role), Str(stats.roleInfo), Int(stats.statType % 0x100)]
    {
      Put(Int(stats.childCount));
      Put(Str(stats.role));
      Put(Str(stats.roleInfo));
      Put(Int(stats.statType % 0x100));
    }

    method PutPerformance(stats: ReplyBody)
      requires Valid() && BodyInRange(stats) && stats.StatsBody?
      modifies this
      ensures Valid()
      ensures packed == old(packed) + [Str(stats.timestamp), Int(stats.count), Float(stats.rate), Float(stats.latency)]
    {
      Put(Str(stats.timestamp));
      Put(Int(stats.count));
      Put(Float(stats.rate));
      Put(Float(stats.latency));
    }
  }

  method SerialiseEmpty(n: Note) returns (out: Bytes)
    requires InRange(n) && Carries(n) && n.kind != NOTIFICATION
    requires n.command != PING
    requires (n.kind == REQUEST ==> n.command != SET) && (n.kind == RESPONSE ==> n.command != STATS)
    ensures out == Serialise(n)
  {
    var pk := new Packer();
    pk.PutHeading(n);
    if n.kind == RESPONSE {
      pk.PutHeader(n.payload.id, n.payload.name);
    }
    assert pk.packed == Wire(n);
    out := pk.data;
  }

  method SerialiseSetRequest(n: Note) returns (ok: bool, out: Bytes)
    requires InRange(n) && n.kind == REQUEST && n.command == SET && (n.payload.NoPayload? || n.payload.SetOption?)
    ensures ok <==> !n.payload.NoPayload?
    ensures ok ==> out == Serialise(n)
  {
    var pk := new Packer();
    pk.PutHeading(n);
    if n.payload.NoPayload? {
      return false, [];
    }
    pk.Put(Int(n.payload.opt));
    pk.Put(Str(n.payload.value));
    assert pk.packed == Wire(n);
    return true, pk.data;
  }

  method SerialisePingRequest(n: Note) returns (ok: bool, out: Bytes)
    requires InRange(n) && n.kind == REQUEST && n.command == PING && (n.payload.NoPayload? || n.payload.PingTime?)
    ensures ok <==> !n.payload.NoPayload?
    ensures ok ==> out == Serialise(n)
  {
    var pk := new Packer();
    pk.PutHeading(n);
    if n.payload.NoPayload? {
      return false, [];
    }
    pk.Put(Int(n.payload.sec));
    pk.Put(Int(n.payload.usec));
    assert pk.packed == Wire(n);
    return true, pk.data;
  }

  method SerialisePingResponse(n: Note) returns (out: Bytes)
    requires InRange(n) && Carries(n) && n.kind == RESPONSE && n.command == PING
    ensures out == Serialise(n)
  {
    var pk := new Packer();
    pk.PutHeading(n);
    pk.PutHeader(n.payload.id, n.payload.name);
    pk.Put(Int(n.payload.body.elapsed));
    assert pk.packed == Wire(n);
    out := pk.data;
  }

  lemma StatsFields(n: Note, packed: seq<Obj>)
    requires InRange(n) && Carries(n) && n.kind == RESPONSE && n.command == STATS
    requires var s := n.payload.body;
      packed == [] + [Int(n.kind), Int(n.command)] + [Str(n.payload.id), Str(n.payload.name)]
                + [Int(s.childCount), Str(s.role), Str(s.roleInfo), Int(s.statType % 0x100)]
                + [Str(s.timestamp), Int(s.count), Float(s.rate), Float(s.latency)]
    ensures packed == Wire(n)
  {
  }

  method SerialiseStatsResponse(n: Note) returns (out: Bytes)
    requires InRange(n) && Carries(n) && n.kind == RESPONSE && n.command == STATS
    ensures out == Serialise(n)
  {
    var stats := n.payload.body;
    var pk := new Packer();
    pk.PutHeading(n);
    pk.PutHeader(n.payload.id, n.payload.name);
    pk.PutChildren(stats);
    pk.PutPerformance(stats);
    StatsFields(n, pk.packed);
    out := pk.data;
  }

  method SerialiseNotification(n: Note) returns (out: Bytes)
    requires InRange(n) && Carries(n) && n.kind == NOTIFICATION
    ensures out == Serialise(n)
  {
    var pk := new Packer();
    pk.PutHeading(n);
    pk.PutHeader(n.payload.id, n.payload.name);
    pk.Put(Str(n.payload.message));
    assert pk.packed == Wire(n);
    out := pk.data;
  }

  /** The request payloads may be missing; the others are dereferenced unchecked. */
  method SerialiseNote(n: Note) returns (ok: bool, out: Bytes)
    requires InRange(n)
    requires Carries(n) || n.kind > NOTIFICATION || (n.kind == REQUEST && n.payload.NoPayload?)
    ensures ok <==> Carries(n)
    ensures ok ==> out == Serialise(n)
  {
    ok, out := false, [];
    if n.kind == REQUEST {
      if n.command == SET {
        ok, out := SerialiseSetRequest(n);
      } else if n.command == PING {
        ok, out := SerialisePingRequest(n);
      } else {
        ok := true;
        out := SerialiseEmpty(n);
      }
    } else if n.kind == RESPONSE {
      ok := true;
      if n.command == PING {
        out := SerialisePingResponse(n);
      } else if n.command == STATS {
        out := SerialiseStatsResponse(n);
      } else {
        out := SerialiseEmpty(n);
      }
    } else if n.kind == NOTIFICATION {
      ok := true;
      out := SerialiseNotification(n);
    }
  }
}
