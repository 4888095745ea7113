/** The decoder as the program runs it, proved to compute `Decoding.Decode` on every input. */
module Decoder {
  import opened MsgPack
  import opened Notes
  import opened Decoding

  /** Walks over the input, advancing `offset` and filling in the note. */
  class NoteDecoder {
    const input: Bytes
    var offset: nat
    var clean: bool
    var kind: nat
    var command: nat
    var head: seq<Obj>
    var body: seq<Obj>

    ghost predicate Valid()
      reads this
    {
      offset <= |input|
    }

    function Rest(): Bytes
      requires Valid()
      reads this
    {
      input[offset..]
    }

    constructor (bytes: Bytes)
      ensures Valid() && input == bytes && offset == 0 && clean && kind == command == 0 && head == body == []
    {
      input := bytes;
      offset, clean, kind, command, head, body := 0, true, 0, 0, [], [];
    }

    /** The offset and the status have followed the reading `r`. */
    twostate predicate Took(r: Reading)
      reads this
    {
      && Valid() && kind == old(kind) && command == old(command)
      && offset == old(offset) + r.used && clean == (old(clean) && r.ok)
    }

    /** One unpack and one assignment. */
    method Next() returns (r: Reading)
      requires Valid()
      modifies this
      ensures r == Read(old(Rest()), 1) && Took(r)
      ensures head == old(head) && body == old(body)
    {
      ghost var was := Rest();
      match Unpack(input[offset..])
      case Stuck(read) =>
        r := Reading(false, [], read);
        offset, clean := offset + read, false;
      case Done(o, size) =>
        offset := offset + size;
        if o.Foreign? {
          clean := false;
          r := Reading(false, [], size);
        } else {
          ReadZero(was[size..]);
          r := Reading(true, [Stored(o)], size);
        }
    }

    /** Two fields of the payload: an option and its value, or the seconds and microseconds of a ping. */
    method DecodeTwo() returns (ok: bool)
      requires Valid()
      modifies this
      ensures var r := Read(old(Rest()), 2); ok == r.ok && Took(r) && body == old(body) + r.objs
      ensures head == old(head)
    {
      hide Read, Unpack;
      ReadOne(Rest(), 1);
      ghost var was := Rest();
      var r := Next();
      assert Rest() == was[r.used..];
      body := body + r.objs;
      if !r.ok {
        return false;
      }
      r := Next();
      body := body + r.objs;
      return r.ok;
    }

    /** The id and name of a response or of a notification. */
    method DecodeHeader() returns (ok: bool)
      requires Valid()
      modifies this
      ensures var r := Read(old(Rest()), 2); ok == r.ok && Took(r) && head == old(head) + r.objs
      ensures body == old(body)
    {
      hide Read, Unpack;
      ReadOne(Rest(), 1);
      ghost var was := Rest();
      var r := Next();
      assert Rest() == was[r.used..];
      head := head + r.objs;
      if !r.ok {
        return false;
      }
      r := Next();
      head := head + r.objs;
      return r.ok;
    }

    method DecodePingResponse() returns (ok: bool)
      requires Valid()
      modifies this
      ensures var r := Read(old(Rest()), 1); ok == r.ok && Took(r) && body == old(body) + r.objs
      ensures head == old(head)
    {
      var r := Next();
      body := body + r.objs;
      return r.ok;
    }

    /** Child count, role, role info and kind of statistics; then time, count, rate and latency. */
    method DecodeStatsResponse() returns (ok: bool)
      requires Valid()
      modifies this
      ensures var r := Read(old(Rest()), 8); ok == r.ok && Took(r) && body == old(body) + r.objs
      ensures head == old(head)
    {
      hide Read, Unpack;
      ghost var was := Rest();
      ReadSplit(was, 4, 4);
      ok := DecodeFour();
      if !ok {
        return;
      }
      assert Rest() == was[Read(was, 4).used..];
      ok := DecodeFour();
    }

    method DecodeFour() returns (ok: bool)
      requires Valid()
      modifies this
      ensures var r := Read(old(Rest()), 4); ok == r.ok && Took(r) && body == old(body) + r.objs
      ensures head == old(head)
    {
      hide Read, Unpack;
      ghost var was := Rest();
      ReadSplit(was, 2, 2);
      ok := DecodeTwo();
      if !ok {
        return;
      }
      assert Rest() == was[Read(was, 2).used..];
      ok := DecodeTwo();
    }

    method DecodeResponse() returns (ok: bool)
      requires Valid() && kind == RESPONSE && head == body == []
      modifies this
      ensures var d := DecodePayload(old(kind), old(command), old(Rest()), old(offset));
        ok == d.ok && Valid() && kind == d.kind && command == d.command && head == d.head && body == d.body
        && offset == d.used && clean == (old(clean) && d.clean)
    {
      hide Read, Unpack;
      ghost var was := Rest();
      ok := DecodeHeader();
      assert Rest() == was[Read(was, 2).used..];
      ReadZero(Rest());
      if command == PING {
        ok := DecodePingResponse();
      } else if command == STATS {
        ok := DecodeStatsResponse();
      }
    }

    method DecodeRequest() returns (ok: bool)
      requires Valid() && kind == REQUEST && head == body == []
      modifies this
      ensures var d := DecodePayload(old(kind), old(command), old(Rest()), old(offset));
        ok == d.ok && Valid() && kind == d.kind && command == d.command && head == d.head && body == d.body
        && offset == d.used && clean == (old(clean) && d.clean)
    {
      hide Read, Unpack;
      ReadZero(Rest());
      ok := true;
      if command == SET {
        ok := DecodeTwo();
      } else if command == PING {
        ok := DecodeTwo();
      }
    }

    method DecodeNotification() returns (ok: bool)
      requires Valid() && kind == NOTIFICATION && head == body == []
      modifies this
      ensures var d := DecodePayload(old(kind), old(command), old(Rest()), old(offset));
        ok == d.ok && Valid() && kind == d.kind && command == d.command && head == d.head && body == d.body
        && offset == d.used && clean == (old(clean) && d.clean)
    {
      hide Read, Unpack;
      ghost var was := Rest();
      ReadSplit(was, 2, 1);
      ok := DecodeHeader();
      if !ok {
        return;
      }
      assert Rest() == was[Read(was, 2).used..];
      var r := Next();
      head := head + r.objs;
      ok := r.ok;
    }

    /** The verdict, the status and, when the note is accepted, everything stored in it. */
    method DecodeNote() returns (ok: bool)
      requires Valid() && offset == 0 && clean && head == body == []
      modifies this
      ensures var d := Decode(input);
        ok == d.ok && clean == d.clean && offset == d.used
        && (ok ==> kind == d.kind && command == d.command && head == d.head && body == d.body)
    {
      hide Read, Unpack, CommandOf, DecodePayload;
      assert input[0..] == input;
      var first := Unpack(input[offset..]);
      if first.Stuck? {
        offset, clean := offset + first.read, false;
        return false;
      }
      offset := offset + first.size;
      if !first.obj.Int? || first.obj.v < 0 {
        clean := false;
        return false;
      }
      kind := first.obj.v % 0x1_0000_0000;

      var second := Unpack(input[offset..]);
      if second.Stuck? {
        offset, clean := offset + second.read, false;
        return false;
      }
      offset := offset + second.size;
      if second.obj.Foreign? {
        clean := false;
        return false;
      }
      command := CommandOf(first.obj.v, second.obj);
      assert Rest() == input[first.size..][second.size..];

      ok := DecodeBody();
    }

    method DecodeBody() returns (ok: bool)
      requires Valid() && clean && head == body == []
      modifies this
      ensures var d := DecodePayload(old(kind), old(command), old(Rest()), old(offset));
        ok == d.ok && kind == d.kind && command == d.command && head == d.head && body == d.body
        && offset == d.used && clean == d.clean
    {
      hide Read, Unpack;
      ok := true;
      if kind == RESPONSE {
        ok := DecodeResponse();
      } else if kind == REQUEST {
        ok := DecodeRequest();
      } else if kind == NOTIFICATION {
        ok := DecodeNotification();
      }
    }
  }
}
