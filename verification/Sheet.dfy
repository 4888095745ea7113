/** Dispatch of received notes to instruments, and the reply that the player publishes. */
module Sheet {
  import opened Common
  import opened MsgPack
  import opened Notes
  import opened Decoding
  import opened Decoder

  const MAESTRO_TOPIC := "/mpt/maestro"

  datatype PlayerInfo = PlayerInfo(id: Bytes, name: Bytes)

  /** What a handler leaves in the response: its command and its body. */
  datatype Answer = Answer(command: nat, body: ReplyBody)

  datatype Instrument = Instrument(command: nat, play: Decoded -> Answer)

  /** The handler has filled in the payload that its reply command needs. */
  predicate Proper(a: Answer) {
    && U32(a.command) && BodyInRange(a.body)
    && (a.command == PING ==> a.body.PingBody?)
    && (a.command == STATS ==> a.body.StatsBody?)
    && (a.body.StatsBody? ==> a.body.statType < 0x100)
  }

  ghost predicate ProperSheet(sheet: seq<Instrument>) {
    forall i, d: Decoded {:trigger sheet[i].play(d)} :: 0 <= i < |sheet| ==> Proper(sheet[i].play(d))
  }

  /** Instrument `i` is the first registered for the command. */
  predicate Earliest(sheet: seq<Instrument>, command: nat, i: nat) {
    && i < |sheet| && sheet[i].command == command
    && forall j :: 0 <= j < i ==> sheet[j].command != command
  }

  predicate Plays(sheet: seq<Instrument>, command: nat) {
    exists i :: 0 <= i < |sheet| && sheet[i].command == command
  }

  /** The reply as a note, with the parts of the body that its command does not encode dropped. */
  function ReplyNote(pinfo: PlayerInfo, a: Answer): Note {
    Note(RESPONSE, a.command,
         Reply(pinfo.id, pinfo.name, if a.command == PING || a.command == STATS then a.body else EmptyBody))
  }

  method DoPlay(sheet: seq<Instrument>, request: Decoded) returns (played: Option<nat>, answer: Answer)
    ensures played.Some? <==> Plays(sheet, request.command)
    ensures played.Some? ==>
      Earliest(sheet, request.command, played.value) && answer == sheet[played.value].play(request)
  {
    answer := Answer(0, EmptyBody);
    for node := 0 to |sheet|
      invariant forall j :: 0 <= j < node ==> sheet[j].command != request.command
    {
      if sheet[node].command == request.command {
        answer := sheet[node].play(request);
        return Some(node), answer;
      }
    }
    return None, answer;
  }

  /**
    A reply is written exactly when decoding fails or an instrument matches; only the earliest match
    is played; and the reply decodes to a response in the name of the player.
  */
  method Play(sheet: seq<Instrument>, pinfo: PlayerInfo, req: Bytes)
    returns (resp: Option<Bytes>, clean: bool, played: Option<nat>)
    requires CString(pinfo.id) && CString(pinfo.name) && ProperSheet(sheet)
    ensures clean == Decode(req).clean
    ensures resp.Some? <==> !Decode(req).ok || Plays(sheet, Decode(req).command)
    ensures played.Some? <==> Decode(req).ok && Plays(sheet, Decode(req).command)
    ensures played.Some? ==> Earliest(sheet, Decode(req).command, played.value)
    ensures resp.Some? ==>
      var answer := if played.Some? then sheet[played.value].play(Decode(req)) else Answer(PROTOCOL_ERROR, EmptyBody);
      var d := Decode(resp.value);
      d.ok && d.clean && d.used == |resp.value| && View(d) == Some(ReplyNote(pinfo, answer))
  {
    hide Decode, View, Serialise;
    var decoder := new NoteDecoder(req);
    var ok := decoder.DecodeNote();
    clean, played := decoder.clean, None;
    var answer := Answer(PROTOCOL_ERROR, EmptyBody);
    if ok {
      var request := Decoded(true, clean, decoder.kind, decoder.command, decoder.head, decoder.body, decoder.offset);
      assert request == Decode(req);
      played, answer := DoPlay(sheet, request);
      if played.None? {
        return None, clean, played;
      }
    }
    var note := Note(RESPONSE, answer.command, Reply(pinfo.id, pinfo.name, answer.body));
    var written, out := SerialiseNote(note);
    SameBytes(pinfo, answer);
    RoundTrip(ReplyNote(pinfo, answer), out);
    resp := Some(out);
  }

  lemma SameBytes(pinfo: PlayerInfo, a: Answer)
    requires CString(pinfo.id) && CString(pinfo.name) && Proper(a)
    ensures WellFormed(ReplyNote(pinfo, a))
    ensures Serialise(Note(RESPONSE, a.command, Reply(pinfo.id, pinfo.name, a.body))) == Serialise(ReplyNote(pinfo, a))
  {
    assert Wire(Note(RESPONSE, a.command, Reply(pinfo.id, pinfo.name, a.body))) == Wire(ReplyNote(pinfo, a));
  }

  lemma CleanIsAccepted(s: Bytes)
    ensures Decode(s).clean ==> Decode(s).ok
  {
    hide Unpack, Read, CommandOf;
  }

  /** The reply is what the earliest matching instrument answers, in the name of the player. */
  ghost predicate Answers(sheet: seq<Instrument>, pinfo: PlayerInfo, request: Decoded, reply: Option<Note>) {
    exists i: nat ::
      Earliest(sheet, request.command, i) && reply == Some(ReplyNote(pinfo, sheet[i].play(request)))
  }

  datatype Publication = Publication(topic: string, data: Bytes)

  /**
    The player publishes on one topic only, and only replies to notes that were decoded without any
    error: the reply to a malformed note, although written, is dropped.
  */
  method HandleNote(sheet: seq<Instrument>, pinfo: PlayerInfo, req: Bytes) returns (sent: Option<Publication>)
    requires CString(pinfo.id) && CString(pinfo.name) && ProperSheet(sheet)
    ensures sent.Some? <==> Decode(req).clean && Plays(sheet, Decode(req).command)
    ensures sent.Some? ==> sent.value.topic == "/mpt/maestro"
    ensures sent.Some? ==> Answers(sheet, pinfo, Decode(req), View(Decode(sent.value.data)))
  {
    hide Decode, View, Earliest, ReplyNote;
    CleanIsAccepted(req);
    var resp, clean, played := Play(sheet, pinfo, req);
    if !clean {
      return None;
    }
    if resp.Some? {
      return Some(Publication(MAESTRO_TOPIC, resp.value));
    }
    return None;
  }

  /** No proper prefix of a serialised note, of any shape, is ever answered. */
  lemma TornNeverAnswered(n: Note, m: nat, sheet: seq<Instrument>)
    requires WellFormed(n) && m < |Serialise(n)|
    ensures !(Decode(Serialise(n)[..m]).clean && Plays(sheet, Decode(Serialise(n)[..m]).command))
  {
    hide Decode;
    TornNote(n, m);
  }
}
