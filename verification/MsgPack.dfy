/**
  The part of MessagePack that Maestro notes use: the int, float and str format families
  of the MessagePack specification, as the packer writes them and as the unpacker reads them.
*/
module MsgPack {

  type byte = b: int | 0 <= b < 256
  type Bytes = seq<byte>

  /** What the unpacker yields.  A `Float` is its 64-bit pattern; `Foreign` is every other family. */
  datatype Obj = Int(v: int) | Str(s: Bytes) | Float(bits: nat) | Bool(b: bool) | Foreign

  /** `Stuck(read)`: no object, and the offset has moved past the `read` header bytes consumed so far. */
  datatype Outcome = Done(obj: Obj, size: nat) | Stuck(read: nat)

  // ----- Big-endian numbers

  function Pow256(w: nat): (p: nat)
    ensures p > 0
  {
    if w == 0 then 1 else 256 * Pow256(w - 1)
  }

  function BigEndian(n: nat, w: nat): (s: Bytes)
    ensures |s| == w
  {
    if w == 0 then [] else BigEndian(n / 256, w - 1) + [n % 256]
  }

  function Value(s: Bytes): nat {
    if s == [] then 0 else 256 * Value(s[..|s| - 1]) + s[|s| - 1]
  }

  lemma {:induction false} ValueOfBigEndian(n: nat, w: nat)
    requires n < Pow256(w)
    ensures Value(BigEndian(n, w)) == n
  {
    if w > 0 {
      ValueOfBigEndian(n / 256, w - 1);
      assert BigEndian(n, w)[..w - 1] == BigEndian(n / 256, w - 1);
    }
  }

  lemma Powers()
    ensures Pow256(0) == 1 && Pow256(1) == 0x100 && Pow256(2) == 0x1_0000 && Pow256(4) == 0x1_0000_0000
    ensures Pow256(8) == 0x1_0000_0000_0000_0000
  {
    assert Pow256(3) == 0x100_0000;
    assert Pow256(5) == 0x100_0000_0000;
    assert Pow256(6) == 0x1_0000_0000_0000;
    assert Pow256(7) == 0x100_0000_0000_0000;
  }

  // ----- Packing

  predicate Packable(o: Obj) {
    match o
    case Int(v) => -0x8000_0000_0000_0000 <= v < 0x1_0000_0000_0000_0000
    case Str(s) => |s| < 0x1_0000_0000
    case Float(bits) => bits < 0x1_0000_0000_0000_0000
    case _ => false
  }

  /** The first byte, in the smallest form that holds the value. */
  function Lead(o: Obj): byte
    requires Packable(o)
  {
    match o
    case Int(v) =>
      if v < -0x8000_0000 then 0xd3
      else if v < -0x8000 then 0xd2
      else if v < -0x80 then 0xd1
      else if v < -0x20 then 0xd0
      else if v < 0 then v + 0x100
      else if v < 0x80 then v
      else if v < 0x100 then 0xcc
      else if v < 0x1_0000 then 0xcd
      else if v < 0x1_0000_0000 then 0xce
      else 0xcf
    case Str(s) =>
      if |s| < 0x20 then 0xa0 + |s|
      else if |s| < 0x100 then 0xd9
      else if |s| < 0x1_0000 then 0xda
      else 0xdb
    case Float(_) => 0xcb
  }

  /** How many fixed bytes follow a first byte. */
  function Trail(lead: byte): (w: nat) {
    match lead
    case 0xcc | 0xd0 | 0xd9 => 1
    case 0xcd | 0xd1 | 0xda => 2
    case 0xce | 0xd2 | 0xdb => 4
    case 0xcb | 0xcf | 0xd3 => 8
    case _ => 0
  }

  /** The number held in the fixed bytes; negative integers are in two's complement. */
  function Fixed(o: Obj): nat
    requires Packable(o)
  {
    var w := Trail(Lead(o));
    if w == 0 then 0 else
    match o
    case Int(v) => (Powers(); if v < 0 then v + Pow256(w) else v)
    case Str(s) => |s|
    case Float(bits) => bits
  }

  function Body(o: Obj): Bytes {
    if o.Str? then o.s else []
  }

  function Pack(o: Obj): (s: Bytes)
    requires Packable(o)
    ensures |s| > 0
  {
    [Lead(o)] + BigEndian(Fixed(o), Trail(Lead(o))) + Body(o)
  }

  // ----- Unpacking

  predicate IsStrLead(lead: byte) {
    0xa0 <= lead < 0xc0 || 0xd9 <= lead <= 0xdb
  }

  function StrLength(lead: byte, raw: nat): nat
    requires IsStrLead(lead)
  {
    if lead < 0xc0 then lead - 0xa0 else raw
  }

  /** The object of every first byte that carries no body. */
  function Scalar(lead: byte, raw: nat): Obj {
    if lead < 0x80 then Int(lead)
    else if lead >= 0xe0 then Int(lead - 0x100)
    else if 0xcc <= lead <= 0xcf then Int(raw)
    else if 0xd0 <= lead <= 0xd3 then
      var span := Pow256(Trail(lead));
      Int(if 2 * raw >= span then raw - span else raw)
    else if lead == 0xcb then Float(raw)
    else if 0xc2 <= lead <= 0xc3 then Bool(lead == 0xc3)
    else Foreign
  }

  /** Reads one object from the front of `s`. */
  function Unpack(s: Bytes): (r: Outcome)
    ensures r.Done? ==> 0 < r.size <= |s|
    ensures r.Stuck? ==> r.read <= |s|
  {
    if s == [] then Stuck(0) else
    var start := 1 + Trail(s[0]);
    if |s| < start then Stuck(1) else
    var raw := Value(s[1..start]);
    if IsStrLead(s[0]) then
      var end := start + StrLength(s[0], raw);
      if |s| < end then Stuck(start) else Done(Str(s[start..end]), end)
    else if s[0] == 0xc1 then Stuck(0)
    else Done(Scalar(s[0], raw), start)
  }

  // ----- Reading back what was packed

  /** The header alone determines a number, and the length of a string. */
  lemma HeaderMeaning(o: Obj)
    requires Packable(o)
    ensures Fixed(o) < Pow256(Trail(Lead(o))) && Lead(o) != 0xc1
    ensures IsStrLead(Lead(o)) <==> o.Str?
    ensures if o.Str? then StrLength(Lead(o), Fixed(o)) == |o.s| else Scalar(Lead(o), Fixed(o)) == o
  {
    Powers();
  }

  lemma HeaderRead(o: Obj, s: Bytes)
    requires Packable(o) && |s| > Trail(Lead(o))
    requires s[..1 + Trail(Lead(o))] == [Lead(o)] + BigEndian(Fixed(o), Trail(Lead(o)))
    ensures s[0] == Lead(o) && Value(s[1..1 + Trail(Lead(o))]) == Fixed(o)
  {
    var w := Trail(Lead(o));
    var header := s[..1 + w];
    assert s[0] == header[0];
    assert s[1..1 + w] == header[1..] == BigEndian(Fixed(o), w);
    HeaderMeaning(o);
    ValueOfBigEndian(Fixed(o), w);
  }

  lemma Front(head: Bytes, body: Bytes, rest: Bytes)
    ensures (head + body + rest)[..|head|] == head
    ensures (head + body + rest)[|head|..|head| + |body|] == body
  {
  }

  lemma UnpackFront(o: Obj, s: Bytes)
    requires Packable(o) && |s| >= 1 + Trail(Lead(o)) + |Body(o)|
    requires s[..1 + Trail(Lead(o))] == [Lead(o)] + BigEndian(Fixed(o), Trail(Lead(o)))
    requires s[1 + Trail(Lead(o))..1 + Trail(Lead(o)) + |Body(o)|] == Body(o)
    ensures Unpack(s) == Done(o, 1 + Trail(Lead(o)) + |Body(o)|)
  {
    HeaderRead(o, s);
    HeaderMeaning(o);
  }

  /** Whatever follows it, a packed object is read back whole and exactly. */
  lemma UnpackPack(o: Obj, rest: Bytes)
    requires Packable(o)
    ensures Unpack(Pack(o) + rest) == Done(o, |Pack(o)|)
  {
    Front([Lead(o)] + BigEndian(Fixed(o), Trail(Lead(o))), Body(o), rest);
    UnpackFront(o, Pack(o) + rest);
  }

  /** Where the unpacker stops in the first `n` bytes of a packed object. */
  function TornRead(o: Obj, n: nat): (read: nat)
    requires Packable(o)
    ensures read <= n
  {
    var start := 1 + Trail(Lead(o));
    if n == 0 then 0 else if n < start then 1 else start
  }

  lemma StuckInHeader(s: Bytes)
    requires s != [] && |s| < 1 + Trail(s[0])
    ensures Unpack(s) == Stuck(1)
  {
    hide Trail, Value, Scalar, IsStrLead, StrLength;
  }

  lemma StuckInText(s: Bytes)
    requires s != [] && 1 + Trail(s[0]) <= |s| && IsStrLead(s[0])
    requires |s| < 1 + Trail(s[0]) + StrLength(s[0], Value(s[1..1 + Trail(s[0])]))
    ensures Unpack(s) == Stuck(1 + Trail(s[0]))
  {
    hide Trail, Value, Scalar, IsStrLead, StrLength;
  }

  /** A proper prefix of a packed object is never read as an object. */
  lemma UnpackTorn(o: Obj, n: nat)
    requires Packable(o) && n < |Pack(o)|
    ensures Unpack(Pack(o)[..n]) == Stuck(TornRead(o, n))
  {
    hide Packable, Unpack, Lead, Fixed, BigEndian, Value, Trail, Scalar, StrLength, IsStrLead, Pow256;
    var s := Pack(o)[..n];
    var start := 1 + Trail(Lead(o));
    if n == 0 {
      assert Unpack([]) == Stuck(0) by { UnpackEmpty(); }
    } else if n < start {
      assert s[0] == Lead(o);
      StuckInHeader(s);
    } else {
      assert s[..start] == [Lead(o)] + BigEndian(Fixed(o), Trail(Lead(o)));
      HeaderRead(o, s);
      HeaderMeaning(o);
      StuckInText(s);
    }
  }

  lemma UnpackEmpty()
    ensures Unpack([]) == Stuck(0)
  {
  }

  // ----- The format, and its economy

  lemma {:induction false} ValueBound(s: Bytes)
    ensures Value(s) < Pow256(|s|)
  {
    if s != [] {
      ValueBound(s[..|s| - 1]);
    }
  }

  /** The forms of the specification, byte by byte. */
  lemma PackFormats(o: Obj)
    requires Packable(o)
    ensures o.Int? ==>
      && (0 <= o.v < 0x80 ==> Pack(o) == [o.v])
      && (-0x20 <= o.v < 0 ==> Pack(o) == [0x100 + o.v])
      && (0x80 <= o.v < 0x100 ==> Pack(o) == [0xcc, o.v])
      && (0x100 <= o.v < 0x1_0000 ==> Pack(o) == [0xcd] + Big2(o.v))
      && (0x1_0000 <= o.v < 0x1_0000_0000 ==> Pack(o) == [0xce] + Big4(o.v))
      && (0x1_0000_0000 <= o.v ==> Pack(o) == [0xcf] + Big8(o.v))
      && (-0x80 <= o.v < -0x20 ==> Pack(o) == [0xd0, o.v + 0x100])
      && (-0x8000 <= o.v < -0x80 ==> Pack(o) == [0xd1] + Big2(o.v + 0x1_0000))
      && (-0x8000_0000 <= o.v < -0x8000 ==> Pack(o) == [0xd2] + Big4(o.v + 0x1_0000_0000))
      && (o.v < -0x8000_0000 ==> Pack(o) == [0xd3] + Big8(o.v + 0x1_0000_0000_0000_0000))
    ensures o.Float? ==> Pack(o) == [0xcb] + Big8(o.bits)
    ensures o.Str? ==>
      && (|o.s| < 0x20 ==> Pack(o) == [0xa0 + |o.s|] + o.s)
      && (0x20 <= |o.s| < 0x100 ==> Pack(o) == [0xd9, |o.s|] + o.s)
      && (0x100 <= |o.s| < 0x1_0000 ==> Pack(o) == [0xda] + Big2(|o.s|) + o.s)
      && (0x1_0000 <= |o.s| ==> Pack(o) == [0xdb] + Big4(|o.s|) + o.s)
  {
    hide BigEndian, Big2, Big4, Big8;
    Powers();
    var n, w := Fixed(o), Trail(Lead(o));
    HeaderMeaning(o);
    BigForms(n, w);
    assert Pack(o) == [Lead(o)] + BigEndian(n, w) + Body(o);
  }

  /** Big-endian numbers of two, four and eight bytes. */
  function Big2(n: nat): Bytes { [n / 0x100 % 0x100, n % 0x100] }

  function Big4(n: nat): Bytes { Big2(n / 0x1_0000) + Big2(n) }

  function Big8(n: nat): Bytes { Big4(n / 0x1_0000_0000) + Big4(n) }

  lemma BigForms(n: nat, w: nat)
    requires n < Pow256(w)
    ensures w == 0 ==> BigEndian(n, w) == []
    ensures w == 1 ==> BigEndian(n, w) == [n]
    ensures w == 2 ==> BigEndian(n, w) == Big2(n)
    ensures w == 4 ==> BigEndian(n, w) == Big4(n)
    ensures w == 8 ==> BigEndian(n, w) == Big8(n)
  {
    hide BigEndian, Big2, Big4, Big8, Pow256;
    Powers();
    BigNothing(n);
    if w == 1 {
      BigOne(n);
    } else if w == 2 {
      TwoLast(n, 2);
      BigNothing(n / 0x1_0000);
    } else if w == 4 {
      FourLast(n, 4);
      BigNothing(n / 0x1_0000_0000);
    } else if w == 8 {
      EightLast(n);
    }
  }

  lemma EightLast(n: nat)
    ensures BigEndian(n, 8) == Big8(n)
  {
    hide BigEndian, Big4;
    FourLast(n, 8);
    FourLast(n / 0x1_0000_0000, 4);
    BigNothing(n / 0x1_0000_0000 / 0x1_0000_0000);
  }

  lemma FourLast(n: nat, w: nat)
    requires w >= 4
    ensures BigEndian(n, w) == BigEndian(n / 0x1_0000_0000, w - 4) + Big4(n)
  {
    hide BigEndian, Big2;
    TwoLast(n, w);
    TwoLast(n / 0x1_0000, w - 2);
    assert n / 0x1_0000 / 0x1_0000 == n / 0x1_0000_0000;
  }

  lemma BigOne(n: nat)
    requires n < 0x100
    ensures BigEndian(n, 1) == [n]
  {
    assert BigEndian(n / 256, 0) == [];
  }

  lemma TwoLast(n: nat, w: nat)
    requires w >= 2
    ensures BigEndian(n, w) == BigEndian(n / 0x1_0000, w - 2) + Big2(n)
  {
    assert n / 256 / 256 == n / 0x1_0000;
    assert BigEndian(n, w) == BigEndian(n / 256, w - 1) + [n % 256];
    assert BigEndian(n / 256, w - 1) == BigEndian(n / 256 / 256, w - 2) + [n / 256 % 256];
  }

  lemma BigNothing(n: nat)
    ensures BigEndian(n, 0) == []
  {
  }

  /** No other encoding of the same object is shorter. */
  lemma PackSmallest(o: Obj, s: Bytes)
    requires Packable(o) && Unpack(s) == Done(o, |s|)
    ensures |Pack(o)| <= |s|
  {
    hide Value;
    Powers();
    ValueBound(s[1..1 + Trail(s[0])]);
  }
}
