/**
  The decoder's stores, byte by byte, on a little-endian 64-bit layout.  Every integer is stored
  with eight bytes, also into the four-byte type, command, child count and statistics kind.
*/
module NoteMemory {
  import opened Common
  import opened MsgPack
  import opened Notes
  import opened Decoding

  function Overwrite(m: Bytes, at: nat, b: Bytes): (r: Bytes)
    requires at + |b| <= |m|
    ensures |r| == |m|
  {
    m[..at] + b + m[at + |b|..]
  }

  /** The unsigned number in `w` bytes at `at`. */
  function Load(m: Bytes, at: nat, w: nat): nat
    requires at + w <= |m|
  {
    LittleValue(m[at..at + w])
  }

  /** Whether the type and command of a note make the decoder allocate a payload. */
  predicate HasPayload(kind: nat, command: nat) {
    || kind == RESPONSE || kind == NOTIFICATION
    || (kind == REQUEST && (command == SET || command == PING))
  }

  /** The type and command objects of an input that the decoder accepts. */
  function Heading(s: Bytes): (r: (nat, Obj))
    requires Decode(s).ok
  {
    var t := Unpack(s);
    (t.obj.v, Unpack(s[t.size..]).obj)
  }

  /** The assignment of the command reaches the payload pointer with something other than zeros. */
  predicate Spills(c: Obj) {
    exists i :: 4 <= i < |Image(c)| && Image(c)[i] != 0
  }

  class Memory {
    const note: array<byte>      // type at 0, command at 4, payload pointer at 8
    var payload: array<byte>     // the union: every member starts at 0
    var heap: map<nat, Bytes>    // strings, by address
    var next: nat                // the next free address

    constructor ()
      ensures fresh(note) && fresh(payload) && note != payload && note.Length == 16 && payload.Length == 80
      ensures note[..] == seq(16, _ => 0) && heap == map[] && next == 1
    {
      note := new byte[16](_ => 0);
      payload := new byte[80](_ => 0);
      heap, next := map[], 1;
    }

    ghost predicate Text(at: nat, s: Bytes)
      reads this, payload
      requires at + 8 <= payload.Length
    {
      var p := Load(payload[..], at, 8);
      p in heap && heap[p] == s + [0]
    }

    ghost predicate BodyIs(b: ReplyBody)
      reads this, payload
      requires payload.Length == 80
    {
      var m := payload[..];
      match b
      case EmptyBody => true
      case PingBody(elapsed) => Load(m, 16, 8) == elapsed
      case StatsBody(children, role, info, stat, ts, count, rate, latency) =>
        && Load(m, 16, 4) == children && Text(24, role) && Text(32, info) && Load(m, 40, 4) == stat
        && Text(48, ts) && Load(m, 56, 8) == count && Load(m, 64, 8) == rate && Load(m, 72, 8) == latency
    }

    ghost predicate PayloadIs(p: Payload)
      reads this, payload
      requires payload.Length == 80
    {
      var m := payload[..];
      match p
      case NoPayload => true
      case SetOption(opt, value) => AsI64(Load(m, 0, 8)) == opt && Text(8, value)
      case PingTime(sec, usec) => Load(m, 0, 8) == sec && Load(m, 8, 8) == usec
      case Reply(id, name, body) => Text(0, id) && Text(8, name) && BodyIs(body)
      case Notice(id, name, message) => Text(0, id) && Text(8, name) && Text(16, message)
    }

    /** The memory holds the note, field by field; without payload, the pointer is null. */
    ghost predicate Represents(n: Note)
      reads this, note, payload
      requires note.Length == 16 && payload.Length == 80
    {
      && Load(note[..], 0, 4) == n.kind
      && Load(note[..], 4, 4) == n.command
      && (Load(note[..], 8, 8) == 0 <==> n.payload.NoPayload?)
      && PayloadIs(n.payload)
    }

    /** Stores the objects in turn, each through the pointer to its own field. */
    method StoreFields(objs: seq<Obj>)
      requires payload.Length == 80 && |objs| <= 10 && U64(next + |objs|)
      requires forall i :: 0 <= i < |objs| ==> Storable(objs[i])
      requires forall p :: p in heap ==> p < next
      modifies payload, this`heap, this`next
      ensures forall i :: 0 <= i < |objs| ==> FieldHolds(payload[..], heap, i, objs[i])
    {
      hide FieldHolds, Image;
      for i := 0 to |objs|
        invariant U64(next + |objs| - i)
        invariant forall p :: p in heap ==> p < next
        invariant forall j :: 0 <= j < i ==> FieldHolds(payload[..], heap, j, objs[j])
      {
        ghost var m, h := payload[..], heap;
        var word := if objs[i].Str? then LittleEndian(next, 8) else Image(objs[i]);
        FieldStored(m, h, i, objs[i], next);
        forall j | 0 <= j < i
          ensures FieldHolds(Overwrite(m, 8 * i, word), h, j, objs[j])
          ensures FieldHolds(Overwrite(m, 8 * i, word), h[next := Image(objs[i])], j, objs[j])
        {
          FieldKept(m, h, j, objs[j], i, word, next, Image(objs[i]));
        }
        Store(payload, 8 * i, word);
        if objs[i].Str? {
          heap := heap[next := Image(objs[i])];
          next := next + 1;
        }
      }
    }

    /** What a field reads as, with the width of its type. */
    ghost predicate Reads(i: nat, o: Obj)
      reads this, payload
      requires payload.Length == 80 && i < 10
    {
      && (o.Int? ==> Load(payload[..], 8 * i, 8) == AsU64(o.v) && Load(payload[..], 8 * i, 4) == AsU32(o.v))
      && (o.Float? ==> Load(payload[..], 8 * i, 8) == o.bits)
      && (o.Str? ==> Text(8 * i, o.s))
    }

    lemma WordReads(i: nat, o: Obj)
      requires payload.Length == 80 && i < 10 && InField(o) && FieldHolds(payload[..], heap, i, o)
      ensures Reads(i, o)
    {
      hide LittleEndian, LittleValue;
      if o.Str? {
        UpToNulIdentity(o.s);
      } else {
        WordLoads(payload[..], 8 * i, if o.Int? then AsU64(o.v) else o.bits);
      }
    }

    lemma BodyReads(command: nat, b: seq<Obj>)
      requires payload.Length == 80 && |b| <= 8 && ViewBody(command, b).Some?
      requires forall i :: 0 <= i < |b| ==> Reads(2 + i, b[i])
      ensures BodyIs(ViewBody(command, b).value)
    {
      hide Load;
      if command == STATS {
        assert Reads(2, b[0]) && Reads(3, b[1]) && Reads(4, b[2]) && Reads(5, b[3]);
        assert Reads(6, b[4]) && Reads(7, b[5]) && Reads(8, b[6]) && Reads(9, b[7]);
      }
    }

    /** Typed decoding and the stores agree on every field of the payload. */
    lemma FieldsHoldPayload(d: Decoded)
      requires payload.Length == 80 && |d.head + d.body| <= 10 && View(d).Some?
      requires d.kind == RESPONSE ==> |d.head| == 2
      requires d.kind == REQUEST ==> |d.head| == 0
      requires forall i :: 0 <= i < |d.head + d.body| ==>
        InField((d.head + d.body)[i]) && FieldHolds(payload[..], heap, i, (d.head + d.body)[i])
      ensures PayloadIs(View(d).value.payload)
    {
      hide FieldHolds, Load, InField, Image, ViewBody, BodyIs;
      var objs := d.head + d.body;
      assert forall i :: 0 <= i < |d.head| ==> objs[i] == d.head[i];
      forall i | 0 <= i < |objs|
        ensures Reads(i, objs[i])
      {
        WordReads(i, objs[i]);
      }
      if d.kind == RESPONSE {
        assert Reads(0, objs[0]) && Reads(1, objs[1]);
        forall i | 0 <= i < |d.body|
          ensures Reads(2 + i, d.body[i])
        {
          assert objs[2 + i] == d.body[i];
        }
        BodyReads(d.command, d.body);
      } else if d.kind == NOTIFICATION {
        assert Reads(0, objs[0]) && Reads(1, objs[1]) && Reads(2, objs[2]);
      } else if d.kind == REQUEST && |objs| == 2 {
        assert d.body == objs;
        assert Reads(0, objs[0]) && Reads(1, objs[1]);
      }
    }
  }

  method Store(a: array<byte>, at: nat, b: Bytes)
    requires at + |b| <= a.Length
    modifies a
    ensures a[..] == Overwrite(old(a[..]), at, b)
  {
    for i := 0 to |b|
      invariant forall j :: 0 <= j < a.Length ==> a[j] == if at <= j < at + i then b[j - at] else old(a[j])
    {
      a[at + i] := b[i];
    }
  }

  lemma LoadStored(m: Bytes, at: nat, v: nat)
    requires at + 8 <= |m| && U64(v)
    ensures Load(Overwrite(m, at, LittleEndian(v, 8)), at, 8) == v
    ensures Load(Overwrite(m, at, LittleEndian(v, 8)), at, 4) == v % 0x1_0000_0000
  {
    hide LittleEndian, LittleValue;
    var r := Overwrite(m, at, LittleEndian(v, 8));
    assert r[at..at + 8] == LittleEndian(v, 8);
    assert r[at..at + 4] == LittleEndian(v, 8)[..4];
    LittlePrefix(v, 8, 4);
    LowWord(v);
  }

  // ----- Type and command: two stores that overlap

  lemma {:induction false} LittleZero(s: Bytes)
    ensures LittleValue(s) == 0 <==> forall i :: 0 <= i < |s| ==> s[i] == 0
  {
    if s != [] {
      LittleZero(s[1..]);
      assert s == [s[0]] + s[1..];
      if LittleValue(s) == 0 {
        forall i | 0 <= i < |s| ensures s[i] == 0 {
          if i > 0 { assert s[i] == s[1..][i - 1]; }
        }
      }
    }
  }

  lemma {:induction false} LittleUpper(n: nat, w: nat, k: nat)
    requires k <= w
    ensures LittleEndian(n, w)[k..] == LittleEndian(Shift(n, k), w - k)
  {
    hide LittleEndian, Shift;
    LittleFirst(n, w, k);
    if k > 0 {
      LittleUpper(n / 256, w - 1, k - 1);
      assert LittleEndian(n, w)[k..] == LittleEndian(n / 256, w - 1)[k - 1..];
    }
  }

  lemma LittleFirst(n: nat, w: nat, k: nat)
    requires k <= w
    ensures k == 0 ==> Shift(n, k) == n
    ensures k > 0 ==> Shift(n, k) == Shift(n / 256, k - 1)
    ensures w > 0 ==> LittleEndian(n, w) == [n % 256] + LittleEndian(n / 256, w - 1)
  {
  }

  lemma UpperWord(t: nat)
    ensures LittleEndian(t, 8)[4..] == LittleEndian(t / 0x1_0000_0000, 4)
  {
    hide LittleEndian, LittleValue, Shift, Pow256;
    LittleUpper(t, 8, 4);
    LittleParts(t, 4);
    Powers();
    assert t == LittleValue(LittleEndian(t, 4)) + 0x1_0000_0000 * Shift(t, 4);
  }

  /** After both stores the type and the command are right, and the pointer is null unless the command spilled. */
  lemma HeadingStored(t: nat, c: Obj)
    requires U64(t) && 0 < |Image(c)| <= 12
    ensures var m := Overwrite(Overwrite(seq(16, _ => 0), 0, LittleEndian(t, 8)), 4, Image(c));
      && Load(m, 0, 4) == t % 0x1_0000_0000
      && Load(m, 4, 4) == CommandOf(t, c)
      && (Load(m, 8, 8) == 0 <==> !Spills(c))
  {
    hide LittleEndian, LittleValue, Image;
    var zero: Bytes := seq(16, _ => 0);
    var low, image := LittleEndian(t, 8), Image(c);
    var first := Overwrite(zero, 0, low);
    var m := Overwrite(first, 4, image);
    assert m[0..4] == low[..4];
    LittlePrefix(t, 8, 4);
    LowWord(t);
    assert first[4..8] == low[4..];
    UpperWord(t);
    if |image| >= 4 {
      assert m[4..8] == image[..4];
    } else {
      assert m[4..8] == image + low[4..][|image|..];
    }
    LittleZero(m[8..16]);
    forall i | 0 <= i < 8
      ensures m[8..16][i] == if 4 + i < |image| then image[4 + i] else 0
    {
      assert m[8..16][i] == m[8 + i];
      assert first[8 + i] == zero[8 + i] == 0;
    }
    if Spills(c) {
      var i :| 4 <= i < |image| && image[i] != 0;
      assert m[8..16][i - 4] != 0;
    }
  }

  // ----- The payload: one aligned word per field

  /** The word of field `i` holds the object: its bytes, or the address of its text. */
  ghost predicate FieldHolds(m: Bytes, heap: map<nat, Bytes>, i: nat, o: Obj)
    requires 8 * i + 8 <= |m|
  {
    if o.Str? then
      var p := Load(m, 8 * i, 8);
      p in heap && heap[p] == Image(o)
    else
      m[8 * i..8 * i + 8] == Image(o)
  }

  predicate Storable(o: Obj) {
    o.Int? || o.Str? || (o.Float? && U64(o.bits))
  }

  predicate InField(o: Obj) {
    && (o.Float? ==> U64(o.bits))
    && (o.Str? ==> forall i :: 0 <= i < |o.s| ==> o.s[i] != 0)
  }

  lemma WordLoads(m: Bytes, at: nat, v: nat)
    requires at + 8 <= |m| && U64(v) && m[at..at + 8] == LittleEndian(v, 8)
    ensures Load(m, at, 8) == v && Load(m, at, 4) == v % 0x1_0000_0000
  {
    hide LittleEndian, LittleValue;
    assert Overwrite(m, at, LittleEndian(v, 8)) == m;
    LoadStored(m, at, v);
  }

  lemma FieldStored(m: Bytes, heap: map<nat, Bytes>, i: nat, o: Obj, p: nat)
    requires 8 * i + 8 <= |m| && Storable(o) && U64(p)
    ensures o.Str? ==> FieldHolds(Overwrite(m, 8 * i, LittleEndian(p, 8)), heap[p := Image(o)], i, o)
    ensures !o.Str? ==> |Image(o)| == 8 && FieldHolds(Overwrite(m, 8 * i, Image(o)), heap, i, o)
  {
    hide LittleEndian, LittleValue;
    if o.Str? {
      LoadStored(m, 8 * i, p);
    }
  }

  lemma FieldKept(m: Bytes, heap: map<nat, Bytes>, i: nat, o: Obj, k: nat, b: Bytes, p: nat, text: Bytes)
    requires 8 * i + 8 <= |m| && 8 * k + 8 <= |m| && i != k && |b| == 8 && p !in heap
    requires FieldHolds(m, heap, i, o)
    ensures FieldHolds(Overwrite(m, 8 * k, b), heap, i, o)
    ensures FieldHolds(Overwrite(m, 8 * k, b), heap[p := text], i, o)
  {
    hide LittleEndian, LittleValue, Image;
    assert Overwrite(m, 8 * k, b)[8 * i..8 * i + 8] == m[8 * i..8 * i + 8];
  }

  // ----- Decoding into memory

  lemma UnpackedInRange(s: Bytes)
    requires Unpack(s).Done?
    ensures var o := Unpack(s).obj;
      (o.Int? && o.v >= 0 ==> U64(o.v)) && InField(Stored(o))
  {
    hide Value;
    Powers();
    ValueBound(s[1..1 + Trail(s[0])]);
  }

  lemma {:induction false} ReadInField(s: Bytes, k: nat)
    ensures forall i :: 0 <= i < |Read(s, k).objs| ==> InField(Read(s, k).objs[i])
  {
    hide Unpack, InField;
    if k > 0 && Unpack(s).Done? && !Unpack(s).obj.Foreign? {
      UnpackedInRange(s);
      ReadInField(s[Unpack(s).size..], k - 1);
    }
  }

  /** What a cleanly accepted input stores: a type, a command, and as many fields as its shape has. */
  lemma DecodedFields(s: Bytes)
    requires Decode(s).ok && Decode(s).clean
    ensures var d := Decode(s); var (t, c) := Heading(s);
      && U64(t) && d.kind == t % 0x1_0000_0000 && d.command == CommandOf(t, c) && 0 < |Image(c)|
      && |d.head + d.body| <= 10
      && (d.kind == RESPONSE ==> |d.head| == 2) && (d.kind == REQUEST ==> |d.head| == 0)
      && (d.kind == NOTIFICATION || (d.kind == RESPONSE && BodyCount(d.command) == 0) ==> |d.body| == 0)
      && forall i :: 0 <= i < |d.head + d.body| ==> InField((d.head + d.body)[i])
  {
    hide Unpack, InField, Read, CommandOf, LittleEndian;
    var t := Unpack(s);
    var c := Unpack(s[t.size..]);
    UnpackedInRange(s);
    var rest := s[t.size..][c.size..];
    var d := Decode(s);
    ReadInField(rest, 3);
    ReadInField(rest, RequestCount(d.command));
    ReadInField(rest, 2);
    ReadInField(rest[Read(rest, 2).used..], BodyCount(d.command));
  }

  lemma ViewStorable(d: Decoded)
    requires View(d).Some? && HasPayload(d.kind, d.command)
    requires forall i :: 0 <= i < |d.head + d.body| ==> InField((d.head + d.body)[i])
    requires d.kind == REQUEST ==> |d.head| == 0
    requires d.kind == NOTIFICATION || (d.kind == RESPONSE && BodyCount(d.command) == 0) ==> |d.body| == 0
    ensures forall i :: 0 <= i < |d.head + d.body| ==> Storable((d.head + d.body)[i])
  {
  }

  lemma ViewShape(d: Decoded)
    requires View(d).Some?
    ensures var n := View(d).value;
      n.kind == d.kind && n.command == d.command && (n.payload.NoPayload? <==> !HasPayload(d.kind, d.command))
  {
  }

  /**
    Starting from a zeroed note, the stores leave memory that represents the note of the typed
    decoding, unless an empty request has a command whose eight bytes spill into the pointer.
  */
  method DecodeInto(input: Bytes, mem: Memory, ghost n: Note)
    requires Decode(input).ok && Decode(input).clean && View(Decode(input)) == Some(n)
    requires |Image(Heading(input).1)| <= 12
    requires mem.note.Length == 16 && mem.payload.Length == 80 && mem.note != mem.payload
    requires mem.note[..] == seq(16, _ => 0) && mem.heap == map[] && mem.next == 1
    modifies mem, mem.note, mem.payload
    ensures mem.payload.Length == 80
    ensures mem.Represents(n) <==> HasPayload(n.kind, n.command) || !Spills(Heading(input).1)
  {
    hide Decode, Unpack, CommandOf, Spills, View, Image, LittleValue, LittleEndian;
    DecodedFields(input);
    var d := Decode(input);
    ViewShape(d);
    var (t, c) := Heading(input);
    Store(mem.note, 0, LittleEndian(t, 8));
    Store(mem.note, 4, Image(c));
    HeadingStored(t, c);
    if HasPayload(d.kind, d.command) {
      var p := mem.next;
      mem.next := p + 1;
      ghost var before := mem.note[..];
      Store(mem.note, 8, LittleEndian(p, 8));
      LoadStored(before, 8, p);
      assert mem.note[..][0..4] == before[0..4] && mem.note[..][4..8] == before[4..8];
      ViewStorable(d);
      mem.StoreFields(d.head + d.body);
      mem.FieldsHoldPayload(d);
    }
  }

  /** An input that spills: an empty request whose command has eight bytes, of which the first alone is not zero. */
  lemma SpillExample() returns (input: Bytes, n: Note)
    ensures Decode(input).ok && Decode(input).clean && View(Decode(input)) == Some(n)
    ensures !HasPayload(n.kind, n.command) && |Image(Heading(input).1)| <= 12 && Spills(Heading(input).1)
  {
    hide Unpack, CommandOf, Image, Spills, Read;
    input, n := [0, 0xcf, 1, 0, 0, 0, 0, 0, 0, 0], Note(REQUEST, START_RECEIVER, NoPayload);
    var command := 0x100_0000_0000_0000;
    SpillingCommand(command);
    SpillingInput(input, command);
    assert input[1..][9..] == [];
    ReadZero([]);
  }

  lemma SpillingInput(input: Bytes, command: nat)
    requires input == [0, 0xcf, 1, 0, 0, 0, 0, 0, 0, 0] && command == 0x100_0000_0000_0000
    ensures Unpack(input) == Done(Int(0), 1) && Unpack(input[1..]) == Done(Int(command), 9)
  {
    hide Value;
    var raw := input[2..10];
    assert input[1..][1..9] == raw;
    Zeros(raw, 8);
    assert raw[..8] == raw;
    Powers();
    assert Pow256(8) == 256 * Pow256(7);
  }

  /** The value of a one followed by zeros. */
  lemma {:induction false} Zeros(s: Bytes, n: nat)
    requires 0 < n <= |s| && s[0] == 1 && forall i :: 1 <= i < |s| ==> s[i] == 0
    ensures Value(s[..n]) == Pow256(n - 1)
  {
    if n == 1 {
      assert s[..1][..0] == [];
    } else {
      Zeros(s, n - 1);
      assert s[..n][..n - 1] == s[..n - 1];
    }
  }

  lemma SpillingCommand(command: nat)
    requires command == 0x100_0000_0000_0000
    ensures CommandOf(0, Int(command)) == START_RECEIVER && |Image(Int(command))| == 8 && Spills(Int(command))
  {
    hide LittleEndian, LittleValue, Shift, Pow256;
    var image := Image(Int(command));
    assert image == LittleEndian(command, 8);
    LittlePrefix(command, 8, 4);
    LowWord(command);
    UpperWord(command);
    assert image[4..] == LittleEndian(0x100_0000, 4);
    LowWord(0x100_0000);
    LittleZero(image[4..]);
    var i :| 0 <= i < 4 && image[4..][i] != 0;
    assert image[4 + i] != 0;
  }

  /** A serialised note, whatever follows it, is one that `DecodeInto` represents in memory. */
  lemma SerialisedFits(n: Note, s: Bytes)
    requires WellFormed(n) && Serialise(n) <= s
    ensures Decode(s).ok && Decode(s).clean && View(Decode(s)) == Some(n)
    ensures |Image(Heading(s).1)| == 8 && !Spills(Heading(s).1)
  {
    hide Decode, View, Unpack, Pack, Image, Spills;
    RoundTrip(n, s);
    SerialisedParts(n);
    var k, c := Pack(Int(n.kind)), Pack(Int(n.command));
    var rest := s[|k|..][|c|..];
    assert s == k + (c + rest);
    UnpackPack(Int(n.kind), c + rest);
    assert s[|k|..] == c + rest;
    UnpackPack(Int(n.command), rest);
    SmallCommand(n.command);
  }

  lemma SmallCommand(command: nat)
    requires U32(command)
    ensures |Image(Int(command))| == 8 && !Spills(Int(command))
  {
    hide LittleEndian, LittleValue;
    var image := LittleEndian(command, 8);
    assert Image(Int(command)) == image;
    UpperWord(command);
    ZeroBytes(4);
    assert forall i :: 4 <= i < 8 ==> image[i] == image[4..][i - 4];
  }

  lemma {:induction false} ZeroBytes(w: nat)
    ensures forall i :: 0 <= i < w ==> LittleEndian(0, w)[i] == 0
  {
    if w > 0 {
      ZeroBytes(w - 1);
    }
  }
}
