/** The note decoder: what it makes of every byte string, and of the serialised notes in particular. */
module Decoding {
  import opened Common
  import opened MsgPack
  import opened Notes

  // ----- Storing one object through a pointer

  function UpToNul(s: Bytes): (t: Bytes)
    ensures forall i :: 0 <= i < |t| ==> t[i] != 0
    ensures |t| <= |s|
  {
    if s == [] || s[0] == 0 then [] else [s[0]] + UpToNul(s[1..])
  }

  lemma {:induction false} UpToNulIdentity(s: Bytes)
    requires forall i :: 0 <= i < |s| ==> s[i] != 0
    ensures UpToNul(s) == s
  {
    if s != [] {
      UpToNulIdentity(s[1..]);
    }
  }

  function LittleEndian(n: nat, w: nat): (s: Bytes)
    ensures |s| == w
  {
    if w == 0 then [] else [n % 256] + LittleEndian(n / 256, w - 1)
  }

  function LittleValue(s: Bytes): nat {
    if s == [] then 0 else s[0] + 256 * LittleValue(s[1..])
  }

  function Shift(n: nat, w: nat): nat {
    if w == 0 then n else Shift(n / 256, w - 1)
  }

  lemma {:induction false} LittleParts(n: nat, w: nat)
    ensures n == LittleValue(LittleEndian(n, w)) + Pow256(w) * Shift(n, w)
    ensures LittleValue(LittleEndian(n, w)) < Pow256(w)
  {
    hide LittleValue, LittleEndian, Pow256, Shift;
    LittleUnfold(n, w);
    if w > 0 {
      var v, p, s := LittleValue(LittleEndian(n / 256, w - 1)), Pow256(w - 1), Shift(n / 256, w - 1);
      LittleParts(n / 256, w - 1);
      LittleCarry(n, v, p, s);
    }
  }

  lemma LittleUnfold(n: nat, w: nat)
    ensures w == 0 ==> LittleValue(LittleEndian(n, w)) == 0 && Pow256(w) == 1 && Shift(n, w) == n
    ensures w > 0 ==>
      && LittleValue(LittleEndian(n, w)) == n % 256 + 256 * LittleValue(LittleEndian(n / 256, w - 1))
      && Pow256(w) == 256 * Pow256(w - 1) && Shift(n, w) == Shift(n / 256, w - 1)
  {
    if w > 0 {
      assert LittleEndian(n, w)[1..] == LittleEndian(n / 256, w - 1);
    }
  }

  lemma LittleCarry(n: nat, v: nat, p: nat, s: nat)
    requires n / 256 == v + p * s && v < p
    ensures n == n % 256 + 256 * v + (256 * p) * s && n % 256 + 256 * v < 256 * p
  {
    Regroup(p, s);
  }

  lemma Regroup(p: nat, s: nat)
    ensures 256 * (p * s) == (256 * p) * s
  {
  }

  lemma LowWord(n: nat)
    ensures LittleValue(LittleEndian(n, 4)) == n % 0x1_0000_0000
    ensures U64(n) ==> LittleValue(LittleEndian(n, 8)) == n
  {
    hide LittleEndian, LittleValue, Shift, Pow256;
    LittleParts(n, 4);
    LittleParts(n, 8);
    Powers();
    assert n == LittleValue(LittleEndian(n, 4)) + 0x1_0000_0000 * Shift(n, 4);
    assert n == LittleValue(LittleEndian(n, 8)) + 0x1_0000_0000_0000_0000 * Shift(n, 8);
  }

  lemma {:induction false} LittlePrefix(n: nat, w: nat, k: nat)
    requires k <= w
    ensures LittleEndian(n, w)[..k] == LittleEndian(n, k)
  {
    if k > 0 {
      LittlePrefix(n / 256, w - 1, k - 1);
    }
  }

  /** The bytes that assigning an object writes, from the pointer upwards. */
  function Image(o: Obj): Bytes {
    match o
    case Int(v) => LittleEndian(v % 0x1_0000_0000_0000_0000, 8)
    case Float(bits) => LittleEndian(bits, 8)
    case Bool(b) => [if b then 1 else 0]
    case Str(s) => UpToNul(s) + [0]
    case Foreign => []
  }

  /** The command after the 8-byte store of type `t` and then the assignment of `c` four bytes further up. */
  function CommandOf(t: nat, c: Obj): nat {
    var old4 := LittleEndian(t / 0x1_0000_0000, 4);
    var image := Image(c);
    LittleValue(if |image| >= 4 then image[..4] else image + old4[|image|..])
  }

  function Stored(o: Obj): Obj {
    if o.Str? then Str(UpToNul(o.s)) else o
  }

  // ----- Decoding

  datatype Reading = Reading(ok: bool, objs: seq<Obj>, used: nat)

  /** Reads `k` objects, stopping at the first that is missing or of an unsupported type. */
  function Read(s: Bytes, k: nat): (r: Reading)
    ensures r.used <= |s|
    ensures |r.objs| <= k && (r.ok ==> |r.objs| == k)
  {
    if k == 0 then Reading(true, [], 0) else
    match Unpack(s)
    case Stuck(read) => Reading(false, [], read)
    case Done(o, size) =>
      if o.Foreign? then Reading(false, [], size) else
      var tail := Read(s[size..], k - 1);
      Reading(tail.ok, [Stored(o)] + tail.objs, size + tail.used)
  }

  /** `clean`: the decoder recorded no error in the status, whatever it returned. */
  datatype Decoded = Decoded(ok: bool, clean: bool, kind: nat, command: nat,
                             head: seq<Obj>, body: seq<Obj>, used: nat)

  function Reject(used: nat): Decoded {
    Decoded(false, false, 0, 0, [], [], used)
  }

  function BodyCount(command: nat): nat {
    if command == PING then 1 else if command == STATS then 8 else 0
  }

  function RequestCount(command: nat): nat {
    if command == SET || command == PING then 2 else 0
  }

  /** For ping and stats responses the verdict on the header is overwritten by that on the body. */
  function DecodePayload(kind: nat, command: nat, s: Bytes, used: nat): Decoded {
    if kind == RESPONSE then
      var h := Read(s, 2);
      var b := Read(s[h.used..], BodyCount(command));
      Decoded(if BodyCount(command) > 0 then b.ok else h.ok, h.ok && b.ok,
              kind, command, h.objs, b.objs, used + h.used + b.used)
    else if kind == REQUEST then
      var b := Read(s, RequestCount(command));
      Decoded(b.ok, b.ok, kind, command, [], b.objs, used + b.used)
    else if kind == NOTIFICATION then
      var h := Read(s, 3);
      Decoded(h.ok, h.ok, kind, command, h.objs, [], used + h.used)
    else
      Decoded(true, true, kind, command, [], [], used)
  }

  function Decode(s: Bytes): Decoded {
    match Unpack(s)
    case Stuck(read) => Reject(read)
    case Done(t, n) =>
      if !t.Int? || t.v < 0 then Reject(n) else
      match Unpack(s[n..])
      case Stuck(read) => Reject(n + read)
      case Done(c, m) =>
        if c.Foreign? then Reject(n + m)
        else DecodePayload(t.v % 0x1_0000_0000, CommandOf(t.v, c), s[n..][m..], n + m)
  }

  /** Type and command come first: a type that is no natural number, and a missing or foreign command, are rejected. */
  lemma HeadingDecides(s: Bytes)
    ensures var t := Unpack(s);
      t.Stuck? || !t.obj.Int? || t.obj.v < 0 ==> !Decode(s).ok && !Decode(s).clean
    ensures var t := Unpack(s);
      t.Done? && t.obj.Int? && t.obj.v >= 0 ==>
        var c := Unpack(s[t.size..]);
        && (c.Stuck? || c.obj.Foreign? ==> !Decode(s).ok && !Decode(s).clean)
        && (c.Done? && !c.obj.Foreign? ==> Decode(s).kind == t.obj.v % 0x1_0000_0000)
        && (c.Done? && !c.obj.Foreign? && t.obj.v % 0x1_0000_0000 > 2 ==>
            Decode(s).ok && Decode(s).clean && Decode(s).head == Decode(s).body == [])
  {
    hide Unpack, Read, CommandOf;
  }

  /** Booleans and short texts in place of a command overwrite its low bytes, a text with its terminator. */
  lemma OddCommands(b: bool, c: byte)
    requires c != 0
    ensures CommandOf(0, Bool(b)) == (if b then 1 else 0) && CommandOf(0, Str([c])) == c
    ensures CommandOf(0x0201_0000_0000, Bool(b)) == 0x200 + (if b then 1 else 0)
  {
    hide CommandOf, LittleEndian, LittleValue, Image;
    var bit: byte := if b then 1 else 0;
    assert LittleEndian(0, 4) == [0, 0, 0, 0] && LittleEndian(0x201, 4) == [1, 2, 0, 0] by { OldBytes(); }
    ShortImage(b, c);
    CommandMerged(0, Bool(b), [bit, 0, 0, 0]);
    CommandMerged(0, Str([c]), [c, 0, 0, 0]);
    CommandMerged(0x0201_0000_0000, Bool(b), [bit, 2, 0, 0]);
  }

  lemma OldBytes()
    ensures LittleEndian(0, 4) == [0, 0, 0, 0] && LittleEndian(0x201, 4) == [1, 2, 0, 0]
  {
  }

  lemma ShortImage(b: bool, c: byte)
    requires c != 0
    ensures Image(Bool(b)) == [if b then 1 else 0] && Image(Str([c])) == [c, 0]
  {
    assert [c][1..] == [] && UpToNul([c]) == [c];
  }

  lemma CommandMerged(t: nat, c: Obj, s: Bytes)
    requires |s| == 4 && |Image(c)| < 4 && Image(c) + LittleEndian(t / 0x1_0000_0000, 4)[|Image(c)|..] == s
    ensures CommandOf(t, c) == s[0] as int + 0x100 * s[1] as int + 0x1_0000 * s[2] as int + 0x100_0000 * s[3] as int
  {
    hide LittleEndian, LittleValue, Image;
    FourBytes(s);
  }

  lemma FourBytes(s: Bytes)
    requires |s| == 4
    ensures LittleValue(s) == s[0] as int + 0x100 * s[1] as int + 0x1_0000 * s[2] as int + 0x100_0000 * s[3] as int
  {
    var s1, s2, s3 := s[1..], s[2..], s[3..];
    assert s1[1..] == s2 && s2[1..] == s3 && s3[1..] == [];
    assert LittleValue(s3) == s[3] as int;
    assert LittleValue(s2) == s[2] as int + 0x100 * s[3] as int;
  }

  lemma LittleExample()
    ensures LittleEndian(0x0403_0201, 4) == [1, 2, 3, 4]
  {
  }

  // ----- What the decoded structure represents

  function AsU64(v: int): nat { v % 0x1_0000_0000_0000_0000 }

  function AsI64(v: int): int {
    var u := AsU64(v);
    if u >= 0x8000_0000_0000_0000 then u - 0x1_0000_0000_0000_0000 else u
  }

  function AsU32(v: int): nat { v % 0x1_0000_0000 }

  function ViewBody(command: nat, b: seq<Obj>): Option<ReplyBody> {
    if command == PING then
      if |b| == 1 && b[0].Int? then Some(PingBody(AsU64(b[0].v))) else None
    else if command == STATS then
      if |b| == 8 && b[0].Int? && b[1].Str? && b[2].Str? && b[3].Int?
         && b[4].Str? && b[5].Int? && b[6].Float? && b[7].Float?
      then Some(StatsBody(AsU32(b[0].v), b[1].s, b[2].s, AsU32(b[3].v), b[4].s, AsU64(b[5].v), b[6].bits, b[7].bits))
      else None
    else Some(EmptyBody)
  }

  function ViewPayload(d: Decoded): Option<Payload> {
    var h, b := d.head, d.body;
    if d.kind == RESPONSE then
      if |h| == 2 && h[0].Str? && h[1].Str? && ViewBody(d.command, b).Some?
      then Some(Reply(h[0].s, h[1].s, ViewBody(d.command, b).value)) else None
    else if d.kind == NOTIFICATION then
      if |h| == 3 && h[0].Str? && h[1].Str? && h[2].Str? then Some(Notice(h[0].s, h[1].s, h[2].s)) else None
    else if d.kind == REQUEST && d.command == SET then
      if |b| == 2 && b[0].Int? && b[1].Str? then Some(SetOption(AsI64(b[0].v), b[1].s)) else None
    else if d.kind == REQUEST && d.command == PING then
      if |b| == 2 && b[0].Int? && b[1].Int? then Some(PingTime(AsU64(b[0].v), AsU64(b[1].v))) else None
    else Some(NoPayload)
  }

  function View(d: Decoded): Option<Note> {
    match ViewPayload(d)
    case Some(p) => Some(Note(d.kind, d.command, p))
    case None => None
  }

  // ----- Round trip

  predicate AllStable(objs: seq<Obj>) {
    forall i :: 0 <= i < |objs| ==> Packable(objs[i]) && Stored(objs[i]) == objs[i]
  }

  lemma WireStable(n: Note)
    requires InRange(n) && Carries(n)
    ensures AllStable(Fields(n))
  {
    WirePackable(n);
    var fields := Fields(n);
    forall i | 0 <= i < |fields|
      ensures Packable(fields[i]) && Stored(fields[i]) == fields[i]
    {
      assert fields[i] == Wire(n)[i + 2];
      if fields[i].Str? {
        assert CString(fields[i].s);
        UpToNulIdentity(fields[i].s);
      }
    }
  }

  lemma {:induction false} ReadPacked(objs: seq<Obj>, rest: Bytes)
    requires AllStable(objs)
    ensures AllPackable(objs)
    ensures Read(PackAll(objs) + rest, |objs|) == Reading(true, objs, |PackAll(objs)|)
  {
    hide Pack, Unpack;
    if objs != [] {
      var first, others := Pack(objs[0]), PackAll(objs[1..]);
      ReadPacked(objs[1..], rest);
      ConcatAssociates(first, others, rest);
      UnpackPack(objs[0], others + rest);
      assert (first + (others + rest))[|first|..] == others + rest;
      assert objs == [objs[0]] + objs[1..];
    }
  }

  /** Type and command are read from the front of any note. */
  lemma DecodeHeading(kind: nat, command: nat, tail: Bytes)
    requires kind <= NOTIFICATION && U32(command)
    ensures Decode(Pack(Int(kind)) + (Pack(Int(command)) + tail))
         == DecodePayload(kind, command, tail, |Pack(Int(kind))| + |Pack(Int(command))|)
  {
    hide Unpack, Pack, CommandOf;
    var k, c := Pack(Int(kind)), Pack(Int(command));
    UnpackPack(Int(kind), c + tail);
    UnpackPack(Int(command), tail);
    assert (k + (c + tail))[|k|..] == c + tail;
    assert (c + tail)[|c|..] == tail;
    CommandStored(kind, command);
  }

  lemma CommandStored(kind: nat, command: nat)
    requires U32(command)
    ensures CommandOf(kind, Int(command)) == command
  {
    hide LittleEndian, LittleValue;
    assert Image(Int(command)) == LittleEndian(command, 8);
    LittlePrefix(command, 8, 4);
    LowWord(command);
  }

  lemma SerialisedParts(n: Note)
    requires InRange(n) && Carries(n)
    ensures AllPackable(Fields(n))
    ensures Serialise(n) == Pack(Int(n.kind)) + (Pack(Int(n.command)) + PackAll(Fields(n)))
  {
    hide Pack;
    WirePackable(n);
    var w := Wire(n);
    assert w[1..][0] == Int(n.command) && w[1..][1..] == Fields(n);
    assert PackAll(w[1..]) == Pack(Int(n.command)) + PackAll(Fields(n));
  }

  lemma PayloadRoundTrip(n: Note, rest: Bytes, used: nat)
    requires WellFormed(n)
    ensures AllPackable(Fields(n))
    ensures var d := DecodePayload(n.kind, n.command, PackAll(Fields(n)) + rest, used);
      d.ok && d.clean && d.used == used + |PackAll(Fields(n))| && d.head + d.body == Fields(n)
      && |d.head| == (if n.kind == RESPONSE then 2 else if n.kind == NOTIFICATION then 3 else 0)
      && d.kind == n.kind && d.command == n.command
  {
    hide Pack, Unpack;
    WireStable(n);
    if n.kind == RESPONSE {
      var head, body := [Str(n.payload.id), Str(n.payload.name)], BodyFields(n.command, n.payload.body);
      assert AllStable(head) by { assert head == Fields(n)[..2]; }
      assert AllStable(body) by { assert body == Fields(n)[2..]; }
      PackAllConcat(head, body);
      ConcatAssociates(PackAll(head), PackAll(body), rest);
      ReadPacked(head, PackAll(body) + rest);
      ReadPacked(body, rest);
      assert (PackAll(head) + (PackAll(body) + rest))[|PackAll(head)|..] == PackAll(body) + rest;
    } else {
      ReadPacked(Fields(n), rest);
    }
  }

  lemma ViewBodyRoundTrip(command: nat, body: ReplyBody)
    requires BodyInRange(body) && (command == PING ==> body.PingBody?) && (command == STATS ==> body.StatsBody?)
    requires command == PING || command == STATS || body.EmptyBody?
    requires body.StatsBody? ==> body.statType < 0x100
    ensures ViewBody(command, BodyFields(command, body)) == Some(body)
  {
  }

  lemma ViewRoundTrip(n: Note, d: Decoded)
    requires WellFormed(n) && d.kind == n.kind && d.command == n.command && d.head + d.body == Fields(n)
    requires |d.head| == (if n.kind == RESPONSE then 2 else if n.kind == NOTIFICATION then 3 else 0)
    ensures View(d) == Some(n)
  {
    hide ViewBody, BodyFields;
    var split := |d.head|;
    assert d.head == Fields(n)[..split] && d.body == Fields(n)[split..];
    if n.kind == RESPONSE {
      assert d.body == BodyFields(n.command, n.payload.body);
      ViewBodyRoundTrip(n.command, n.payload.body);
    }
  }

  /** Decoding a serialised note, whatever follows it, gives the note back and consumes exactly its bytes. */
  lemma RoundTrip(n: Note, s: Bytes)
    requires WellFormed(n) && Serialise(n) <= s
    ensures Decode(s).ok && Decode(s).clean && Decode(s).used == |Serialise(n)| && View(Decode(s)) == Some(n)
  {
    hide Decode, DecodePayload, View, Pack;
    SerialisedParts(n);
    var rest := s[|Serialise(n)|..];
    var k, c, fields := Pack(Int(n.kind)), Pack(Int(n.command)), PackAll(Fields(n));
    ConcatAssociates(k, c + fields, rest);
    ConcatAssociates(c, fields, rest);
    assert s == k + (c + (fields + rest));
    DecodeHeading(n.kind, n.command, fields + rest);
    PayloadRoundTrip(n, rest, |k| + |c|);
    ViewRoundTrip(n, Decode(s));
  }

  // ----- What the encoding loses

  function CanonicalBody(command: nat, body: ReplyBody): ReplyBody
    requires command == STATS ==> body.StatsBody?
  {
    if command == PING then body
    else if command == STATS then body.(statType := body.statType % 0x100)
    else EmptyBody
  }

  /** The note without what its encoding drops: unread payloads, and all but the low byte of the kind of statistics. */
  function Canonical(n: Note): Note
    requires Carries(n)
  {
    if n.kind == REQUEST then (if n.command == SET || n.command == PING then n else n.(payload := NoPayload))
    else if n.kind == RESPONSE then n.(payload := n.payload.(body := CanonicalBody(n.command, n.payload.body)))
    else n
  }

  lemma CanonicalForm(n: Note)
    requires InRange(n) && Carries(n)
    ensures WellFormed(Canonical(n)) && (Canonical(n) == n <==> WellFormed(n))
    ensures Serialise(Canonical(n)) == Serialise(n)
  {
    hide PackAll, Pack;
    CanonicalShape(n);
    assert Wire(Canonical(n)) == Wire(n);
  }

  lemma CanonicalShape(n: Note)
    requires InRange(n) && Carries(n)
    ensures WellFormed(Canonical(n)) && (Canonical(n) == n <==> WellFormed(n)) && Fields(Canonical(n)) == Fields(n)
    ensures Canonical(n).kind == n.kind && Canonical(n).command == n.command
  {
  }

  /**
    For every note that can be encoded, decoding gives its canonical form: the note itself exactly when
    it is well formed.
  */
  lemma RoundTripExactly(n: Note, s: Bytes)
    requires InRange(n) && Carries(n) && Serialise(n) <= s
    ensures Decode(s).ok && Decode(s).used == |Serialise(n)| && View(Decode(s)) == Some(Canonical(n))
    ensures View(Decode(s)) == Some(n) <==> WellFormed(n)
  {
    hide Decode, View, Serialise, WellFormed, Canonical;
    CanonicalForm(n);
    RoundTrip(Canonical(n), s);
  }

  /** A stats response of kind 256 arrives as one of kind 0. */
  lemma StatKindLost(n: Note)
    requires n == Note(RESPONSE, STATS, Reply([], [], StatsBody(0, [], [], 0x100, [], 0, 0, 0)))
    ensures InRange(n) && Carries(n)
    ensures var lost := n.(payload := n.payload.(body := n.payload.body.(statType := 0)));
      View(Decode(Serialise(n))) == Some(lost) && lost != n
  {
    hide Decode, View, Serialise;
    RoundTripExactly(n, Serialise(n));
  }

  /** Hence no two notes share a serialisation, and none begins another, even inside longer streams. */
  lemma UniquelyDecodable(a: Note, b: Note, x: Bytes, y: Bytes)
    requires WellFormed(a) && WellFormed(b)
    requires Serialise(a) + x == Serialise(b) + y
    ensures a == b && x == y
  {
    RoundTrip(a, Serialise(a) + x);
    RoundTrip(b, Serialise(b) + y);
    assert x == (Serialise(a) + x)[|Serialise(a)|..];
    assert y == (Serialise(b) + y)[|Serialise(b)|..];
  }

  // ----- Torn notes

  /** Where reading stops in the first `n` bytes of packed objects. */
  function TornUsed(objs: seq<Obj>, n: nat): (used: nat)
    requires AllPackable(objs) && n < |PackAll(objs)|
    ensures used <= n
  {
    var first := |Pack(objs[0])|;
    if n < first then TornRead(objs[0], n) else first + TornUsed(objs[1..], n - first)
  }

  lemma {:induction false} ReadTorn(objs: seq<Obj>, n: nat)
    requires AllStable(objs)
    ensures AllPackable(objs)
    ensures n < |PackAll(objs)| ==>
      var r := Read(PackAll(objs)[..n], |objs|);
      !r.ok && r.used == TornUsed(objs, n)
  {
    hide Pack, Unpack, TornRead;
    if objs != [] && n < |PackAll(objs)| {
      var first, others := Pack(objs[0]), PackAll(objs[1..]);
      var s := PackAll(objs)[..n];
      if n < |first| {
        assert s == first[..n];
        UnpackTorn(objs[0], n);
      } else {
        assert s == first + others[..n - |first|];
        UnpackPack(objs[0], others[..n - |first|]);
        assert s[|first|..] == others[..n - |first|];
        ReadTorn(objs[1..], n - |first|);
      }
    }
  }

  function HeadingLength(n: Note): nat
    requires InRange(n)
  {
    |Pack(Int(n.kind))| + |Pack(Int(n.command))|
  }

  /** The bytes left for the body decoder when the cut at `m` falls inside the id or the name of a response. */
  function Fragment(n: Note, m: nat): Option<Bytes>
    requires WellFormed(n) && m < |Serialise(n)|
  {
    if n.kind != RESPONSE || m < HeadingLength(n) then None else
    var header := [Str(n.payload.id), Str(n.payload.name)];
    var at := m - HeadingLength(n);
    if at >= |PackAll(header)| then None else
    Some(PackAll(header)[..at][TornUsed(header, at)..])
  }

  lemma TornResponse(n: Note, m: nat, used: nat)
    requires WellFormed(n) && n.kind == RESPONSE
    requires AllPackable(Fields(n)) && m < |PackAll(Fields(n))|
    ensures var header := [Str(n.payload.id), Str(n.payload.name)];
      var d := DecodePayload(n.kind, n.command, PackAll(Fields(n))[..m], used);
      !d.clean && AllPackable(header) &&
      (d.ok <==> m < |PackAll(header)| && BodyCount(n.command) > 0
                 && Read(PackAll(header)[..m][TornUsed(header, m)..], BodyCount(n.command)).ok)
  {
    hide Pack, Unpack, TornUsed;
    WireStable(n);
    var header, body := [Str(n.payload.id), Str(n.payload.name)], BodyFields(n.command, n.payload.body);
    assert AllStable(header) by { assert header == Fields(n)[..2]; }
    assert AllStable(body) by { assert body == Fields(n)[2..]; }
    PackAllConcat(header, body);
    var h, b := PackAll(header), PackAll(body);
    if m < |h| {
      assert (h + b)[..m] == h[..m];
      ReadTorn(header, m);
    } else {
      var j := m - |h|;
      assert (h + b)[..m] == h + b[..j];
      ReadPacked(header, b[..j]);
      assert (h + b[..j])[|h|..] == b[..j];
      ReadTorn(body, j);
    }
  }

  lemma TornHeading(n: Note, m: nat)
    requires WellFormed(n) && m < HeadingLength(n) && m <= |Serialise(n)|
    ensures Decode(Serialise(n)[..m]) == Reject(Decode(Serialise(n)[..m]).used)
  {
    hide Pack, Unpack, DecodePayload, PackAll;
    SerialisedParts(n);
    var k, c := Pack(Int(n.kind)), Pack(Int(n.command));
    var s := Serialise(n)[..m];
    if m < |k| {
      assert s == k[..m];
      UnpackTorn(Int(n.kind), m);
    } else {
      assert s == k + c[..m - |k|];
      assert s[|k|..] == c[..m - |k|];
      UnpackPack(Int(n.kind), c[..m - |k|]);
      UnpackTorn(Int(n.command), m - |k|);
    }
  }

  /**
    A torn note always leaves an error in the status.  It is nevertheless accepted exactly when
    it is a ping or stats response cut inside its id or name, and the bytes after the header of
    the torn string happen to hold as many objects as the body needs.
  */
  lemma TornNote(n: Note, m: nat)
    requires WellFormed(n) && m < |Serialise(n)|
    ensures !Decode(Serialise(n)[..m]).clean
    ensures Decode(Serialise(n)[..m]).ok <==>
      BodyCount(n.command) > 0 && Fragment(n, m).Some? && Read(Fragment(n, m).value, BodyCount(n.command)).ok
  {
    hide Pack, Unpack, DecodePayload, PackAll, TornUsed, Read;
    if m < HeadingLength(n) {
      TornHeading(n, m);
    } else {
      SerialisedParts(n);
      var k, c, fields := Pack(Int(n.kind)), Pack(Int(n.command)), PackAll(Fields(n));
      var j := m - HeadingLength(n);
      assert Serialise(n)[..m] == k + (c + fields[..j]);
      DecodeHeading(n.kind, n.command, fields[..j]);
      if n.kind == RESPONSE {
        TornResponse(n, j, HeadingLength(n));
      } else {
        TornPlain(n, j, HeadingLength(n));
      }
    }
  }

  lemma TornPlain(n: Note, m: nat, used: nat)
    requires WellFormed(n) && n.kind != RESPONSE
    requires AllPackable(Fields(n)) && m < |PackAll(Fields(n))|
    ensures var d := DecodePayload(n.kind, n.command, PackAll(Fields(n))[..m], used); !d.ok && !d.clean
  {
    WireStable(n);
    ReadTorn(Fields(n), m);
  }

  /** Every proper prefix of a request, a notification or a header-only response is rejected. */
  lemma TornRejected(n: Note, m: nat)
    requires WellFormed(n) && m < |Serialise(n)|
    requires n.kind != RESPONSE || (n.command != PING && n.command != STATS)
    ensures !Decode(Serialise(n)[..m]).ok
  {
    hide Decode;
    TornNote(n, m);
  }

  // ----- Torn ping and stats responses

  /** The offset of the text of a packed string, past its header. */
  function TextStart(s: Bytes): nat
    requires |s| < 0x1_0000_0000
  {
    1 + Trail(Lead(Str(s)))
  }

  /** What the failed read of a packed string cut at `m` leaves unread. */
  function Leftover(s: Bytes, m: nat): Bytes
    requires |s| < 0x1_0000_0000 && m < |Pack(Str(s))|
  {
    Pack(Str(s))[..m][TornRead(Str(s), m)..]
  }

  /** That is the beginning of the text or, if the cut is in the header, of its length. */
  lemma LeftoverIs(s: Bytes, m: nat)
    requires |s| < 0x1_0000_0000 && m < |Pack(Str(s))|
    ensures |Pack(Str(s))| == TextStart(s) + |s|
    ensures m >= TextStart(s) ==> Leftover(s, m) == s[..m - TextStart(s)]
    ensures 1 <= m < TextStart(s) ==> Leftover(s, m) == LengthBytes(s)[..m - 1]
    ensures m == 0 ==> Leftover(s, m) == []
  {
    hide BigEndian;
    var w := Trail(Lead(Str(s)));
    assert w > 0 ==> Fixed(Str(s)) == |s|;
    assert w == 0 ==> LengthBytes(s) == [] == BigEndian(Fixed(Str(s)), w);
    PackedParts([Lead(Str(s))], LengthBytes(s), s, m);
  }

  lemma PackedParts(lead: Bytes, length: Bytes, text: Bytes, m: nat)
    requires |lead| == 1 && m < 1 + |length| + |text|
    ensures 1 <= m ==> m < 1 + |length| ==> (lead + length + text)[..m][1..] == length[..m - 1]
    ensures 1 + |length| <= m ==> (lead + length + text)[..m][1 + |length|..] == text[..m - 1 - |length|]
  {
  }

  /** The length of a packed string, unless its first byte holds it. */
  function LengthBytes(s: Bytes): (b: Bytes)
    requires |s| < 0x1_0000_0000
    ensures |b| == TextStart(s) - 1 <= 4
  {
    BigEndian(|s|, Trail(Lead(Str(s))))
  }

  lemma FragmentIs(n: Note, m: nat)
    requires WellFormed(n) && n.kind == RESPONSE && m < |Serialise(n)|
    ensures var id, name, base := n.payload.id, n.payload.name, HeadingLength(n);
      var next := base + |Pack(Str(id))|;
      Fragment(n, m) ==
        if base <= m < next then Some(Leftover(id, m - base))
        else if next <= m < next + |Pack(Str(name))| then Some(Leftover(name, m - next))
        else None
  {
    hide Serialise, TornRead, HeadingLength, Pack;
    var id, name := Str(n.payload.id), Str(n.payload.name);
    var header := [id, name];
    assert header[1..] == [name] && PackAll([name]) == Pack(name) + [];
    var packed := Pack(id) + Pack(name);
    assert PackAll(header) == packed;
    var base := HeadingLength(n);
    if base <= m < base + |Pack(id)| {
      assert packed[..m - base] == Pack(id)[..m - base];
    } else if base + |Pack(id)| <= m < base + |packed| {
      var at := m - base - |Pack(id)|;
      assert TornUsed([name], at) == TornRead(name, at);
      assert packed[..m - base][|Pack(id)| + TornRead(name, at)..] == Pack(name)[..at][TornRead(name, at)..];
    }
  }

  /** The byte is an object when nothing follows it. */
  predicate Alone(b: byte) {
    b < 0x80 || b == 0xa0 || b == 0xc2 || b == 0xc3 || b >= 0xe0
  }

  /** The cut at `m` leaves at least one byte, but not all, of the text of a string packed at `start`. */
  predicate InsideText(s: Bytes, start: nat, m: nat)
    requires |s| < 0x1_0000_0000
  {
    start + TextStart(s) < m < start + TextStart(s) + |s|
  }

  /** The cut is inside the length of a string of 256 bytes or more, whose first byte can be read as an object. */
  predicate InsideLength(s: Bytes, start: nat, m: nat)
    requires |s| < 0x1_0000_0000
  {
    start + 1 < m < start + TextStart(s) && Alone(LengthBytes(s)[0])
  }

  lemma ReadAlone(s: Bytes)
    ensures |s| == 1 || (s != [] && s[0] < 0x80) ==> (Read(s, 1).ok <==> Alone(s[0]))
    ensures s == [] ==> !Read(s, 1).ok
  {
    hide Unpack, Alone;
    if s != [] {
      UnpackAlone(s);
    } else {
      UnpackEmpty();
    }
    if Unpack(s).Done? {
      ReadZero(s[Unpack(s).size..]);
    }
  }

  lemma UnpackAlone(s: Bytes)
    requires s != []
    ensures s[0] < 0x80 ==> Unpack(s) == Done(Int(s[0]), 1) && Alone(s[0])
    ensures |s| == 1 ==> (Unpack(s).Done? && !Unpack(s).obj.Foreign? <==> Alone(s[0]))
  {
    hide Value, Pow256;
  }

  /** Long strings have a length of four bytes, of which the first is small. */
  lemma LongLength(s: Bytes)
    requires 0x1_0000 <= |s| < 0x8000_0000
    ensures TextStart(s) == 5 && LengthBytes(s)[0] < 0x80
  {
    var n := |s|;
    assert BigEndian(n, 4) == BigEndian(n / 256, 3) + [n % 256];
    assert BigEndian(n / 256, 3) == BigEndian(n / 256 / 256, 2) + [n / 256 % 256];
    assert BigEndian(n / 256 / 256, 2) == BigEndian(n / 256 / 256 / 256, 1) + [n / 256 / 256 % 256];
    assert BigEndian(n / 256 / 256 / 256, 1) == [] + [n / 256 / 256 / 256 % 256];
  }

  /** One torn string is misread as one object exactly when the cut is inside its text, or badly inside its length. */
  lemma TornText(s: Bytes, m: nat)
    requires CString(s) && (s != [] ==> s[0] < 0x80) && m < |Pack(Str(s))|
    ensures Read(Leftover(s, m), 1).ok <==> InsideText(s, 0, m) || InsideLength(s, 0, m)
  {
    hide Read, Pack, Leftover, LengthBytes, BigEndian, TornRead;
    LeftoverIs(s, m);
    var left := Leftover(s, m);
    ReadAlone(left);
    if 1 < m < TextStart(s) {
      assert left[0] == LengthBytes(s)[0];
      if |s| >= 0x1_0000 {
        LongLength(s);
      } else {
        assert |left| == 1;
      }
    } else if m > TextStart(s) {
      assert left[0] == s[0];
    } else {
      assert left == [];
    }
  }

  /**
    A ping response whose id and name do not begin with a byte outside ASCII, cut short, is accepted
    exactly when the cut is inside the text of one of them, or in the length of one so that its first
    byte reads as an object.
  */
  lemma TornPing(n: Note, m: nat)
    requires WellFormed(n) && n.kind == RESPONSE && n.command == PING && m < |Serialise(n)|
    requires n.payload.id != [] ==> n.payload.id[0] < 0x80
    requires n.payload.name != [] ==> n.payload.name[0] < 0x80
    ensures var id, name, base := n.payload.id, n.payload.name, HeadingLength(n);
      var next := base + |Pack(Str(id))|;
      Decode(Serialise(n)[..m]).ok <==>
        || InsideText(id, base, m) || InsideLength(id, base, m)
        || InsideText(name, next, m) || InsideLength(name, next, m)
  {
    hide Decode, Serialise, Read, Leftover, HeadingLength, Fragment, Pack, LengthBytes, Alone;
    TornNote(n, m);
    FragmentIs(n, m);
    var id, name, base := n.payload.id, n.payload.name, HeadingLength(n);
    var next := base + |Pack(Str(id))|;
    LeftoverIs(id, 0);
    LeftoverIs(name, 0);
    if base <= m < next {
      TornText(id, m - base);
    } else if next <= m < next + |Pack(Str(name))| {
      TornText(name, m - next);
    }
  }

  predicate Ascii(s: Bytes) {
    forall i :: 0 <= i < |s| ==> s[i] < 0x80
  }

  /** Every object takes a byte, and every byte of an ASCII text is an object. */
  lemma {:induction false} ReadAscii(s: Bytes, k: nat)
    ensures Read(s, k).ok ==> |s| >= k
    ensures Ascii(s) && |s| >= k ==> Read(s, k).ok
  {
    if k > 0 && Unpack(s).Done? && !Unpack(s).obj.Foreign? {
      ReadAscii(s[Unpack(s).size..], k - 1);
    }
  }

  /** The cut at `m` leaves at least `k` bytes, but not all, of the text of a string packed at `start`. */
  predicate Leaves(s: Bytes, start: nat, m: nat, k: nat)
    requires |s| < 0x1_0000_0000
  {
    start + TextStart(s) + k <= m < start + TextStart(s) + |s|
  }

  lemma TornAscii(s: Bytes, m: nat)
    requires CString(s) && Ascii(s) && m < |Pack(Str(s))|
    ensures Read(Leftover(s, m), 8).ok <==> Leaves(s, 0, m, 8)
  {
    hide Read, Pack, Leftover, LengthBytes;
    LeftoverIs(s, m);
    ReadAscii(Leftover(s, m), 8);
  }

  /**
    A stats response with an ASCII id and name, cut short, is accepted exactly when the cut leaves eight
    bytes or more of the text it is in.
  */
  lemma TornStats(n: Note, m: nat)
    requires WellFormed(n) && n.kind == RESPONSE && n.command == STATS && m < |Serialise(n)|
    requires Ascii(n.payload.id) && Ascii(n.payload.name)
    ensures var id, name, base := n.payload.id, n.payload.name, HeadingLength(n);
      var next := base + |Pack(Str(id))|;
      Decode(Serialise(n)[..m]).ok <==> Leaves(id, base, m, 8) || Leaves(name, next, m, 8)
  {
    hide Decode, Serialise, Read, Leftover, HeadingLength, Fragment, Pack;
    TornNote(n, m);
    FragmentIs(n, m);
    var id, name, base := n.payload.id, n.payload.name, HeadingLength(n);
    var next := base + |Pack(Str(id))|;
    LeftoverIs(id, 0);
    LeftoverIs(name, 0);
    if base <= m < next {
      TornAscii(id, m - base);
    } else if next <= m < next + |Pack(Str(name))| {
      TornAscii(name, m - next);
    }
  }

  /** Every ping response with an id of two bytes or more, beginning in ASCII, has a prefix that is accepted. */
  lemma TornPingAccepted(n: Note)
    requires WellFormed(n) && n.kind == RESPONSE && n.command == PING
    requires |n.payload.id| > 1 && n.payload.id[0] < 0x80
    requires n.payload.name != [] ==> n.payload.name[0] < 0x80
    ensures var m := HeadingLength(n) + TextStart(n.payload.id) + 1;
      m < |Serialise(n)| && Decode(Serialise(n)[..m]).ok
  {
    hide Decode, Serialise, Pack, LengthBytes, Alone;
    SerialisedParts(n);
    var id := n.payload.id;
    assert Fields(n)[0] == Str(id);
    assert PackAll(Fields(n)) == Pack(Str(id)) + PackAll(Fields(n)[1..]);
    LeftoverIs(id, 0);
    TornPing(n, HeadingLength(n) + TextStart(id) + 1);
  }

  /** Here the first letter of the id, cut off in the fourth byte, is taken for the elapsed time. */
  lemma TornPingExample(n: Note)
    requires n == Note(RESPONSE, PING, Reply([0x61, 0x62], [0x63], PingBody(30)))
    ensures WellFormed(n) && 4 < |Serialise(n)| && Decode(Serialise(n)[..4]).ok
  {
    hide Decode, Serialise;
    TornPingAccepted(n);
  }

  /** Every stats response with an ASCII name and an ASCII id of nine bytes or more has a prefix that is accepted. */
  lemma TornStatsAccepted(n: Note)
    requires WellFormed(n) && n.kind == RESPONSE && n.command == STATS
    requires Ascii(n.payload.id) && Ascii(n.payload.name) && |n.payload.id| > 8
    ensures var m := HeadingLength(n) + TextStart(n.payload.id) + 8;
      m < |Serialise(n)| && Decode(Serialise(n)[..m]).ok
  {
    hide Decode, Serialise, Pack;
    SerialisedParts(n);
    var id := n.payload.id;
    assert Fields(n)[0] == Str(id);
    assert PackAll(Fields(n)) == Pack(Str(id)) + PackAll(Fields(n)[1..]);
    LeftoverIs(id, 0);
    TornStats(n, HeadingLength(n) + TextStart(id) + 8);
  }

  /** There are such responses. */
  lemma TornStatsExample() returns (n: Note)
    ensures WellFormed(n) && n.kind == RESPONSE && n.command == STATS
    ensures Ascii(n.payload.id) && Ascii(n.payload.name) && |n.payload.id| > 8
  {
    var id := [0x73, 0x65, 0x6e, 0x64, 0x65, 0x72, 0x2d, 0x30, 0x31];
    n := Note(RESPONSE, STATS, Reply(id, [0x6e], StatsBody(1, [0x73], [0x63], 0, [0x74], 30, 0, 0)));
  }

  // ----- Reading in parts

  /** One reading after another. */
  function Then(a: Reading, b: Reading): Reading {
    if a.ok then Reading(b.ok, a.objs + b.objs, a.used + b.used) else a
  }

  lemma ThenAssociates(a: Reading, b: Reading, c: Reading)
    ensures Then(a, Then(b, c)) == Then(Then(a, b), c)
  {
    assert a.objs + (b.objs + c.objs) == a.objs + b.objs + c.objs;
  }

  lemma ReadOne(s: Bytes, k: nat)
    ensures var a := Read(s, 1); Read(s, 1 + k) == Then(a, Read(s[a.used..], k))
  {
    hide Unpack, Stored;
    if Unpack(s).Done? && !Unpack(s).obj.Foreign? {
      assert Read(s[Unpack(s).size..], 0) == Reading(true, [], 0);
    }
  }

  lemma {:induction false} ReadSplit(s: Bytes, j: nat, k: nat)
    ensures var a := Read(s, j); Read(s, j + k) == Then(a, Read(s[a.used..], k))
  {
    hide Unpack, Read;
    if j == 0 {
      assert s[0..] == s && Read(s, 0) == Reading(true, [], 0) by { ReadZero(s); }
      assert [] + Read(s, k).objs == Read(s, k).objs;
    } else {
      var a := Read(s, 1);
      var rest := s[a.used..];
      ReadOne(s, j - 1);
      ReadOne(s, j - 1 + k);
      ReadSplit(rest, j - 1, k);
      var b := Read(rest, j - 1);
      var c := Read(rest[b.used..], k);
      ThenAssociates(a, b, c);
      assert rest[b.used..] == s[a.used + b.used..];
      if !a.ok {
      } else {
        assert Read(s, j).used == a.used + b.used;
      }
    }
  }

  lemma ReadZero(s: Bytes)
    ensures Read(s, 0) == Reading(true, [], 0)
  {
  }
}
