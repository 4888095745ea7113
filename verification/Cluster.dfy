/**
  The daemons of a test cluster: the flags that the main thread and the player thread of each share,
  and the notes they exchange through the broker.
*/
module Cluster {
  import opened Common
  import opened Notes
  import opened MsgPack
  import opened Decoding
  import Sheet
  import NoteMemory

  // ----- Topics

  const ALL_DAEMONS := "/mpt/daemon"
  const NOTIFICATIONS := "/mpt/notifications"
  const SENDER_DAEMONS := "/mpt/daemon/sender"
  const RECEIVER_DAEMONS := "/mpt/daemon/receiver"

  datatype Role = SenderRole | ReceiverRole

  predicate Subscribes(role: Role, topic: string) {
    || topic == ALL_DAEMONS || topic == NOTIFICATIONS
    || topic == if role.SenderRole? then SENDER_DAEMONS else RECEIVER_DAEMONS
  }

  // ----- One daemon

  /** What the main thread does next. */
  datatype Phase = Head | Sleeping | Launching | Watching | Notifying(failed: bool) | Finishing | Clearing | Gone

  /** What the player thread does next; the handlers of start, stop, failure and halt run in stages. */
  datatype Player = Listening | Starting | Stopping(command: nat) | Halting

  /**
    Besides the shared flags: starts accepted, how many of them while the main thread was idle,
    executions begun, and notifications sent.
  */
  datatype Daemon = Daemon(role: Role, started: bool, halt: bool, running: bool, phase: Phase, player: Player,
                           accepted: nat, prompt: nat, begun: nat, notified: nat)

  function NewDaemon(role: Role): Daemon {
    Daemon(role, false, false, false, Head, Listening, 0, 0, 0, 0)
  }

  function StartCommand(role: Role): nat { if role.SenderRole? then START_SENDER else START_RECEIVER }

  function StopCommand(role: Role): nat { if role.SenderRole? then STOP_SENDER else STOP_RECEIVER }

  /** The commands that take back a start: stop, a peer's failure and halt. */
  predicate Withdraws(role: Role, command: nat) {
    command == StopCommand(role) || command == NOTIFY_FAIL || command == HALT
  }

  datatype Answer = Answer(to: nat, command: nat)

  /** The main thread is between executions. */
  predicate Idle(d: Daemon) { d.phase.Head? || d.phase.Sleeping? }

  /** A note reaches the sheet: the first stage of its handler, and the reply if that is all. */
  function Receive(d: Daemon, command: nat, known: bool): (Daemon, Option<Answer>)
  {
    if command == StartCommand(d.role) then
      if d.started || d.running then (d, Some(Answer(command, INTERNAL_ERROR))) else (d.(player := Starting), None)
    else if Withdraws(d.role, command) then
      (d.(started := false, player := Stopping(command)), None)
    else if command == FLUSH then (d, Some(Answer(command, OK)))
    else if command == SET then (d, Some(Answer(command, if known then OK else PROTOCOL_ERROR)))
    else if command == PING then (d, Some(Answer(command, PING)))
    else if command == STATS then (d, Some(Answer(command, if d.running then STATS else INTERNAL_ERROR)))
    else (d, None)
  }

  /** The next stage of the handler that the player thread is in. */
  function Continue(d: Daemon): (Daemon, Option<Answer>)
  {
    match d.player
    case Listening => (d, None)
    case Starting =>
      (d.(started := true, player := Listening, accepted := d.accepted + 1,
          prompt := d.prompt + if Idle(d) then 1 else 0),
       Some(Answer(StartCommand(d.role), OK)))
    case Stopping(command) =>
      if command == HALT then (d.(running := false, player := Halting), None)
      else (d.(running := false, player := Listening), Some(Answer(command, OK)))
    case Halting => (d.(halt := true, player := Listening), Some(Answer(HALT, OK)))
  }

  datatype Uri = Assigned | Unformattable | Unknown

  /** What the main thread meets: its broker URL, its log directory, its clones, and how the test ends. */
  datatype Luck = Luck(uri: Uri, logOk: bool, cloneOk: bool, failed: bool)

  /** One stage of the main thread, and the notification it publishes. */
  function Proceed(d: Daemon, luck: Luck): (Daemon, Option<nat>)
  {
    match d.phase
    case Head => (d.(phase := if d.halt then Gone else Sleeping), None)
    case Sleeping =>
      if !d.started then (d.(phase := Head), None) else
      (match luck.uri
       case Assigned => d.(phase := Launching, begun := d.begun + 1)
       case Unformattable => d.(phase := Head)
       case Unknown => d.(phase := Gone), None)
    case Launching =>
      (if !luck.logOk || d.running then d.(phase := Clearing) else d.(running := true, phase := Watching), None)
    case Watching => (d.(phase := if luck.cloneOk then Notifying(luck.failed) else Clearing), None)
    case Notifying(failed) =>
      (d.(notified := d.notified + 1, phase := Finishing), Some(if failed then NOTIFY_FAIL else NOTIFY_SUCCESS))
    case Finishing => (d.(running := false, phase := Clearing), None)
    case Clearing => (d.(started := false, phase := Head), None)
    case Gone => (d, None)
  }

  // ----- The code of a daemon, run without interference

  /** A handler from its first stage to its last. */
  function Handled(d: Daemon, command: nat, known: bool): (Daemon, Option<Answer>) {
    var (first, reply) := Receive(d, command, known);
    if first.player.Listening? then (first, reply) else
    var (second, later) := Continue(first);
    if second.player.Listening? then (second, later) else Continue(second)
  }

  /** The main thread until it tests its loop condition again or leaves the loop. */
  function Turn(d: Daemon, luck: Luck): (Daemon, Option<nat>)
    decreases Left(d.phase)
  {
    var (e, notice) := Proceed(d, luck);
    if e.phase.Head? || e.phase.Gone? then (e, notice) else
    var (f, later) := Turn(e, luck);
    (f, if notice.Some? then notice else later)
  }

  function Left(p: Phase): nat {
    match p
    case Head => 7 case Sleeping => 6 case Launching => 5 case Watching => 4
    case Notifying(_) => 3 case Finishing => 2 case Clearing => 1 case Gone => 0
  }

  lemma FinishTurn(d: Daemon, luck: Luck)
    requires d.phase.Finishing? || d.phase.Clearing?
    ensures Turn(d, luck) == (d.(started := false, running := d.running && d.phase.Clearing?, phase := Head), None)
    decreases Left(d.phase)
  {
    if d.phase.Finishing? {
      FinishTurn(Proceed(d, luck).0, luck);
    }
  }

  /** What one execution amounts to. */
  lemma LaunchTurn(d: Daemon, luck: Luck)
    requires d.phase.Launching?
    ensures var (e, notice) := Turn(d, luck);
      && e.role == d.role && e.halt == d.halt && !e.started && e.phase.Head?
      && e.running == ((luck.logOk && !luck.cloneOk) || d.running)
      && notice == if !luck.logOk || d.running || !luck.cloneOk then None
                   else Some(if luck.failed then NOTIFY_FAIL else NOTIFY_SUCCESS)
  {
    hide Turn;
    TurnStep(d, luck);
    var launched := Proceed(d, luck).0;
    if !luck.logOk || d.running {
      FinishTurn(launched, luck);
    } else {
      TurnStep(launched, luck);
      var watched := Proceed(launched, luck).0;
      if !luck.cloneOk {
        FinishTurn(watched, luck);
      } else {
        TurnStep(watched, luck);
        FinishTurn(Proceed(watched, luck).0, luck);
      }
    }
  }

  lemma TurnStep(d: Daemon, luck: Luck)
    ensures var (e, notice) := Proceed(d, luck);
      Turn(d, luck) ==
      if e.phase.Head? || e.phase.Gone? then (e, notice)
      else (Turn(e, luck).0, if notice.Some? then notice else Turn(e, luck).1)
  {
    hide Proceed;
  }

  class Process {
    const role: Role
    var started: bool
    var halt: bool
    var running: bool

    constructor (role: Role)
      ensures this.role == role && Shows(NewDaemon(role))
    {
      this.role := role;
      started, halt, running := false, false, false;
    }

    ghost predicate Shows(d: Daemon)
      reads this
    {
      d.role == role && d.started == started && d.halt == halt && d.running == running
    }

    method HandleStart(ghost d: Daemon) returns (reply: nat)
      requires Shows(d) && d.player.Listening?
      modifies this
      ensures Shows(Handled(d, StartCommand(role), true).0)
      ensures Handled(d, StartCommand(role), true).1 == Some(Answer(StartCommand(role), reply))
      ensures reply == if old(started) || old(running) then INTERNAL_ERROR else OK
      ensures started == (old(started) || reply == OK) && running == old(running) && halt == old(halt)
    {
      if started || running {
        reply := INTERNAL_ERROR;
      } else {
        started := true;
        reply := OK;
      }
    }

    /** Stopping and aborting the workers always succeed, and leave no list. */
    method HandleStop(ghost d: Daemon, ghost command: nat) returns (reply: nat)
      requires Shows(d) && d.player.Listening?
      requires command == StopCommand(role) || command == NOTIFY_FAIL
      modifies this
      ensures Shows(Handled(d, command, true).0)
      ensures Handled(d, command, true).1 == Some(Answer(command, reply))
      ensures halt == old(halt) && !started && !running && reply == OK
    {
      started := false;
      if running {
        running := false;
      }
      reply := OK;
    }

    method HandleHalt(ghost d: Daemon) returns (reply: nat)
      requires Shows(d) && d.player.Listening?
      modifies this
      ensures Shows(Handled(d, HALT, true).0)
      ensures Handled(d, HALT, true).1 == Some(Answer(HALT, reply))
      ensures halt && !started && !running && reply == OK
    {
      reply := HandleStop(d, StopCommand(role));
      halt := true;
      reply := OK;
    }

    /** One execution of a test, and the notification it sends. */
    method Execute(ghost d: Daemon, luck: Luck) returns (notice: Option<nat>)
      requires Shows(d) && d.phase.Launching?
      modifies this
      ensures started == old(started) && halt == old(halt)
      ensures Turn(d, luck).1 == notice
      ensures Turn(d, luck).0.running == running
      ensures running == (old(running) || (luck.logOk && !luck.cloneOk))
      ensures notice.Some? <==> luck.logOk && !old(running) && luck.cloneOk
      ensures notice.Some? ==> notice.value == if luck.failed then NOTIFY_FAIL else NOTIFY_SUCCESS
    {
      hide Turn;
      LaunchTurn(d, luck);
      if !luck.logOk || running {
        return None;
      }
      running := true;
      if !luck.cloneOk {
        return None;
      }
      notice := Some(if luck.failed then NOTIFY_FAIL else NOTIFY_SUCCESS);
      running := false;
    }

    /** One iteration of the main loop; `leaves` when it breaks out of it. */
    method Iterate(ghost d: Daemon, luck: Luck) returns (leaves: bool, notice: Option<nat>)
      requires Shows(d) && d.phase.Head? && !halt
      modifies this
      ensures Shows(Turn(d, luck).0) && notice == Turn(d, luck).1
      ensures leaves == Turn(d, luck).0.phase.Gone?
      ensures leaves <==> old(started) && luck.uri.Unknown?
      ensures halt == old(halt) && started == (old(started) && !luck.uri.Assigned?)
      ensures !(old(started) && luck.uri.Assigned?) ==> notice.None? && running == old(running)
      ensures old(started) && luck.uri.Assigned? ==>
        && running == (old(running) || (luck.logOk && !luck.cloneOk))
        && (notice.Some? <==> luck.logOk && !old(running) && luck.cloneOk)
        && (notice.Some? ==> notice.value == if luck.failed then NOTIFY_FAIL else NOTIFY_SUCCESS)
    {
      hide Turn;
      leaves, notice := false, None;
      TurnStep(d, luck);
      ghost var asleep := Proceed(d, luck).0;
      TurnStep(asleep, luck);
      if started {
        match luck.uri
        case Unformattable =>
        case Unknown =>
          leaves := true;
        case Assigned =>
          ghost var launching := Proceed(asleep, luck).0;
          LaunchTurn(launching, luck);
          notice := Execute(launching, luck);
          started := false;
      }
    }
  }

  /** What the handlers do, run without interference: flags, reply, and whether a start counts. */
  lemma HandledMeans(d: Daemon, command: nat, known: bool)
    requires d.player.Listening?
    ensures var (e, reply) := Handled(d, command, known);
      && e.player.Listening? && e.phase == d.phase && e.role == d.role
      && e.begun == d.begun && e.notified == d.notified
      && (reply.Some? ==> reply.value.to == command)
      && (e.halt <==> d.halt || command == HALT)
      && (command == StartCommand(d.role) ==>
          && reply == Some(Answer(command, if d.started || d.running then INTERNAL_ERROR else OK))
          && e.started == (d.started || !d.running) && e.running == d.running
          && e.accepted == d.accepted + (if d.started || d.running then 0 else 1))
      && (command == StopCommand(d.role) || command == NOTIFY_FAIL || command == HALT ==>
          reply == Some(Answer(command, OK)) && !e.started && !e.running && e.accepted == d.accepted)
      && (command == FLUSH || command == SET || command == PING || command == STATS ==> e == d)
      && (command == FLUSH ==> reply == Some(Answer(FLUSH, OK)))
      && (command == SET ==> reply == Some(Answer(SET, if known then OK else PROTOCOL_ERROR)))
      && (command == PING ==> reply == Some(Answer(PING, PING)))
      && (command == STATS ==> reply == Some(Answer(STATS, if d.running then STATS else INTERNAL_ERROR)))
      && (reply.None? ==> e == d)
  {
  }

  // ----- The cluster

  datatype Origin = Controller | ReplyOf(d: nat, to: nat) | NoticeOf(d: nat)

  datatype Msg = Msg(topic: string, command: nat, origin: Origin)

  datatype State = State(daemons: seq<Daemon>, published: seq<Msg>)

  /** The broker may deliver a published note to its subscribers any number of times. */
  datatype Step =
    | Command(topic: string, command: nat)
    | Deliver(d: nat, k: nat, known: bool)
    | PlayerStep(d: nat)
    | MainStep(d: nat, luck: Luck)

  predicate Delivers(s: State, d: nat, k: nat) {
    && d < |s.daemons| && k < |s.published|
    && s.daemons[d].player.Listening? && Subscribes(s.daemons[d].role, s.published[k].topic)
  }

  /** The player sends every reply to the topic of the controllers. */
  function ReplyMsgs(d: nat, reply: Option<Answer>): seq<Msg> {
    if reply.None? then [] else [Msg(Sheet.MAESTRO_TOPIC, reply.value.command, ReplyOf(d, reply.value.to))]
  }

  function NoticeMsgs(d: nat, notice: Option<nat>): seq<Msg> {
    if notice.None? then [] else [Msg(NOTIFICATIONS, notice.value, NoticeOf(d))]
  }

  /** The daemon that a step moves, what becomes of it, and what it publishes. */
  function Moved(s: State, step: Step): (nat, Daemon, seq<Msg>)
    requires !step.Command? && step.d < |s.daemons|
  {
    var d := s.daemons[step.d];
    match step
    case Deliver(i, k, known) =>
      if !Delivers(s, i, k) then (i, d, []) else
      var (e, reply) := Receive(d, s.published[k].command, known);
      (i, e, ReplyMsgs(i, reply))
    case PlayerStep(i) =>
      var (e, reply) := Continue(d);
      (i, e, ReplyMsgs(i, reply))
    case MainStep(i, luck) =>
      var (e, notice) := Proceed(d, luck);
      (i, e, NoticeMsgs(i, notice))
  }

  function Apply(s: State, step: Step): State {
    if step.Command? then s.(published := s.published + [Msg(step.topic, step.command, Controller)])
    else if step.d >= |s.daemons| then s
    else var (i, e, msgs) := Moved(s, step); State(s.daemons[step.d := e], s.published + msgs)
  }

  function Run(s: State, steps: seq<Step>): State {
    if steps == [] then s else Apply(Run(s, steps[..|steps| - 1]), steps[|steps| - 1])
  }

  function Start(roles: seq<Role>): State {
    State(seq(|roles|, i requires 0 <= i < |roles| => NewDaemon(roles[i])), [])
  }

  // ----- What one daemon can still do

  /** A start that the main thread may yet act upon. */
  function Waiting(d: Daemon): nat { if d.started && Idle(d) then 1 else 0 }

  /** An execution whose notification is still to come. */
  function Underway(d: Daemon): nat {
    if d.phase.Launching? || d.phase.Watching? || d.phase.Notifying? then 1 else 0
  }

  /** The main thread has passed its loop test and not yet looked at the start flag. */
  function Past(d: Daemon): nat { if d.phase.Sleeping? then 1 else 0 }

  ghost predicate Advances(d: Daemon, e: Daemon) {
    && e.role == d.role
    && e.begun - d.begun + Waiting(e) - Waiting(d) <= e.prompt - d.prompt <= e.accepted - d.accepted
    && e.notified - d.notified + Underway(e) - Underway(d) <= e.begun - d.begun
    && (d.halt ==> e.halt && e.begun - d.begun + Past(e) - Past(d) <= 0)
  }

  lemma StandsStill(d: Daemon)
    ensures Advances(d, d)
  {
  }

  lemma AdvancesOn(d: Daemon, e: Daemon, f: Daemon)
    requires Advances(d, e) && Advances(e, f)
    ensures Advances(d, f)
  {
  }

  lemma ReceiveAdvances(d: Daemon, command: nat, known: bool)
    ensures Advances(d, Receive(d, command, known).0)
  {
  }

  lemma ContinueAdvances(d: Daemon)
    ensures Advances(d, Continue(d).0)
  {
  }

  lemma ProceedAdvances(d: Daemon, luck: Luck)
    ensures Advances(d, Proceed(d, luck).0)
  {
    match d.phase
    case Head =>
    case Sleeping =>
    case _ =>
  }

  lemma MovedAdvances(s: State, step: Step)
    requires !step.Command? && step.d < |s.daemons|
    ensures Advances(s.daemons[step.d], Moved(s, step).1)
  {
    hide Advances, Receive, Continue, Proceed;
    var d := s.daemons[step.d];
    StandsStill(d);
    match step
    case Deliver(i, k, known) => if k < |s.published| { ReceiveAdvances(d, s.published[k].command, known); }
    case PlayerStep(i) => ContinueAdvances(d);
    case MainStep(i, luck) => ProceedAdvances(d, luck);
  }

  lemma StepAdvances(s: State, step: Step, i: nat)
    requires i < |s.daemons|
    ensures |Apply(s, step).daemons| == |s.daemons| && Advances(s.daemons[i], Apply(s, step).daemons[i])
  {
    hide Advances, Moved;
    StandsStill(s.daemons[i]);
    if !step.Command? && step.d < |s.daemons| {
      MovedAdvances(s, step);
    }
  }

  lemma {:induction false} RunAdvances(s: State, steps: seq<Step>, i: nat)
    requires i < |s.daemons|
    ensures |Run(s, steps).daemons| == |s.daemons| && Advances(s.daemons[i], Run(s, steps).daemons[i])
  {
    hide Apply, Advances;
    StandsStill(s.daemons[i]);
    if steps != [] {
      var most := steps[..|steps| - 1];
      RunAdvances(s, most, i);
      StepAdvances(Run(s, most), steps[|steps| - 1], i);
      AdvancesOn(s.daemons[i], Run(s, most).daemons[i], Run(s, steps).daemons[i]);
    }
  }

  // ----- What the log of published notes tells

  /** The notifications of daemon i. */
  function Notices(log: seq<Msg>, i: nat): nat {
    if log == [] then 0 else
    Notices(log[..|log| - 1], i) + if log[|log| - 1].origin == NoticeOf(i) then 1 else 0
  }

  predicate Grant(m: Msg, i: nat, role: Role) { m.command == OK && m.origin == ReplyOf(i, StartCommand(role)) }

  /** The starts that daemon i answered with an OK. */
  function Grants(log: seq<Msg>, i: nat, role: Role): nat {
    if log == [] then 0 else
    Grants(log[..|log| - 1], i, role) + if Grant(log[|log| - 1], i, role) then 1 else 0
  }

  lemma LogAppend(log: seq<Msg>, m: Msg, i: nat, role: Role)
    ensures Notices(log + [m], i) == Notices(log, i) + if m.origin == NoticeOf(i) then 1 else 0
    ensures Grants(log + [m], i, role) == Grants(log, i, role) + if Grant(m, i, role) then 1 else 0
  {
    assert (log + [m])[..|log|] == log;
  }

  /** The counters of a daemon are those of the log. */
  ghost predicate Logged(d: Daemon, i: nat, log: seq<Msg>) {
    && d.notified == Notices(log, i)
    && d.accepted == Grants(log, i, d.role)
    && (d.player.Stopping? ==> d.player.command != StartCommand(d.role))
  }

  lemma ReceiveLogged(d: Daemon, i: nat, log: seq<Msg>, command: nat, known: bool)
    requires Logged(d, i, log)
    ensures var (e, reply) := Receive(d, command, known); Logged(e, i, log + ReplyMsgs(i, reply))
  {
    hide Notices, Grants;
    var (e, reply) := Receive(d, command, known);
    if reply.None? {
      assert log + ReplyMsgs(i, reply) == log;
    } else {
      LogAppend(log, ReplyMsgs(i, reply)[0], i, d.role);
    }
  }

  lemma ContinueLogged(d: Daemon, i: nat, log: seq<Msg>)
    requires Logged(d, i, log)
    ensures var (e, reply) := Continue(d); Logged(e, i, log + ReplyMsgs(i, reply))
  {
    hide Notices, Grants;
    var (e, reply) := Continue(d);
    if reply.None? {
      assert log + ReplyMsgs(i, reply) == log;
    } else {
      LogAppend(log, ReplyMsgs(i, reply)[0], i, d.role);
    }
  }

  lemma ProceedLogged(d: Daemon, i: nat, log: seq<Msg>, luck: Luck)
    requires Logged(d, i, log)
    ensures var (e, notice) := Proceed(d, luck); Logged(e, i, log + NoticeMsgs(i, notice))
  {
    hide Notices, Grants;
    var (e, notice) := Proceed(d, luck);
    ProceedCounts(d, luck);
    if notice.None? {
      assert log + NoticeMsgs(i, notice) == log;
    } else {
      LogAppend(log, NoticeMsgs(i, notice)[0], i, d.role);
    }
  }

  lemma ProceedCounts(d: Daemon, luck: Luck)
    ensures var (e, notice) := Proceed(d, luck);
      && e.role == d.role && e.accepted == d.accepted && e.player == d.player
      && e.notified == d.notified + (if notice.Some? then 1 else 0)
      && (notice.Some? ==> notice.value == NOTIFY_FAIL || notice.value == NOTIFY_SUCCESS)
  {
  }

  /** What one daemon publishes does not concern another. */
  lemma LoggedApart(d: Daemon, i: nat, log: seq<Msg>, msgs: seq<Msg>)
    requires Logged(d, i, log) && |msgs| <= 1
    requires forall m :: m in msgs ==> (m.origin.Controller? || m.origin.d != i)
    ensures Logged(d, i, log + msgs)
  {
    hide Notices, Grants;
    if msgs == [] {
      assert log + msgs == log;
    } else {
      assert msgs == [msgs[0]];
      LogAppend(log, msgs[0], i, d.role);
    }
  }

  lemma MovedLogged(s: State, step: Step)
    requires !step.Command? && step.d < |s.daemons| && Logged(s.daemons[step.d], step.d, s.published)
    ensures Logged(Moved(s, step).1, step.d, s.published + Moved(s, step).2)
  {
    hide Logged, Receive, Continue, Proceed, ReplyMsgs, NoticeMsgs;
    var d := s.daemons[step.d];
    match step
    case Deliver(i, k, known) =>
      if Delivers(s, i, k) {
        ReceiveLogged(d, i, s.published, s.published[k].command, known);
      } else {
        assert s.published + [] == s.published;
      }
    case PlayerStep(i) => ContinueLogged(d, i, s.published);
    case MainStep(i, luck) => ProceedLogged(d, i, s.published, luck);
  }

  /** Replies go to the controllers, and notices of a failure or a success to everyone. */
  predicate Routed(m: Msg) {
    && (m.origin.ReplyOf? ==> m.topic == Sheet.MAESTRO_TOPIC)
    && (m.origin.NoticeOf? ==> m.topic == NOTIFICATIONS && (m.command == NOTIFY_FAIL || m.command == NOTIFY_SUCCESS))
  }

  /** What a step publishes: at most one note, in the name of the daemon it moves, where it belongs. */
  lemma MovedPublishes(s: State, step: Step)
    requires !step.Command? && step.d < |s.daemons|
    ensures var msgs := Moved(s, step).2;
      && |msgs| <= 1
      && forall m :: m in msgs ==> !m.origin.Controller? && m.origin.d == step.d && Routed(m)
  {
    hide Receive, Continue, Proceed, Delivers;
    if step.MainStep? {
      var (e, notice) := Proceed(s.daemons[step.d], step.luck);
      ProceedCounts(s.daemons[step.d], step.luck);
      assert Moved(s, step).2 == NoticeMsgs(step.d, notice);
    }
  }

  lemma StepLogged(s: State, step: Step, i: nat)
    requires i < |s.daemons| && Logged(s.daemons[i], i, s.published)
    ensures var t := Apply(s, step); i < |t.daemons| && Logged(t.daemons[i], i, t.published)
  {
    hide Logged, Moved;
    if step.Command? {
      LoggedApart(s.daemons[i], i, s.published, [Msg(step.topic, step.command, Controller)]);
    } else if step.d < |s.daemons| {
      MovedPublishes(s, step);
      if step.d == i {
        MovedLogged(s, step);
      } else {
        LoggedApart(s.daemons[i], i, s.published, Moved(s, step).2);
      }
    }
  }

  lemma {:induction false} RunLogged(roles: seq<Role>, steps: seq<Step>, i: nat)
    requires i < |roles|
    ensures var s := Run(Start(roles), steps); i < |s.daemons| && Logged(s.daemons[i], i, s.published)
  {
    hide Apply;
    if steps != [] {
      RunLogged(roles, steps[..|steps| - 1], i);
      StepLogged(Run(Start(roles), steps[..|steps| - 1]), steps[|steps| - 1], i);
    }
  }

  /**
    In any run, a daemon sends at most one notification per execution, begins at most one execution
    per start that it answered with an OK, and none for a start that reached it during an execution.
  */
  lemma ExecutionsBounded(roles: seq<Role>, steps: seq<Step>, i: nat)
    requires i < |roles|
    ensures var s := Run(Start(roles), steps);
      && |s.daemons| == |roles|
      && Notices(s.published, i) <= s.daemons[i].begun <= s.daemons[i].prompt
      && s.daemons[i].prompt <= Grants(s.published, i, roles[i])
  {
    hide Run, Notices, Grants;
    RunAdvances(Start(roles), steps, i);
    RunLogged(roles, steps, i);
    assert Start(roles).daemons[i] == NewDaemon(roles[i]);
  }

  /**
    Once a halt has been handled, at most one more execution begins, and none unless the main thread
    had by then passed its loop test and was about to look at the start flag.
  */
  lemma HaltEndsExecutions(s: State, steps: seq<Step>, i: nat)
    requires i < |s.daemons| && s.daemons[i].halt
    ensures var t := Run(s, steps);
      && |t.daemons| == |s.daemons|
      && t.daemons[i].begun - s.daemons[i].begun <= Past(s.daemons[i])
  {
    hide Run;
    RunAdvances(s, steps, i);
  }

  // ----- Replies

  lemma {:induction false} RunRouted(roles: seq<Role>, steps: seq<Step>)
    ensures forall m :: m in Run(Start(roles), steps).published ==> Routed(m)
  {
    hide Moved, Routed;
    if steps != [] {
      var s, step := Run(Start(roles), steps[..|steps| - 1]), steps[|steps| - 1];
      RunRouted(roles, steps[..|steps| - 1]);
      if step.Command? {
        CommandRouted(step.topic, step.command);
      } else if step.d < |s.daemons| {
        MovedPublishes(s, step);
      }
    }
  }

  lemma CommandRouted(topic: string, command: nat)
    ensures Routed(Msg(topic, command, Controller))
  {
  }

  lemma TopicsApart(role: Role)
    ensures !Subscribes(role, Sheet.MAESTRO_TOPIC)
  {
    assert Sheet.MAESTRO_TOPIC[5] == 'm' && ALL_DAEMONS[5] == 'd' && NOTIFICATIONS[5] == 'n';
    assert SENDER_DAEMONS[5] == 'd' && RECEIVER_DAEMONS[5] == 'd';
  }

  /** No reply is ever delivered to a daemon, so replies cannot trigger replies. */
  lemma RepliesNotDelivered(roles: seq<Role>, steps: seq<Step>, d: nat, k: nat)
    requires Delivers(Run(Start(roles), steps), d, k)
    ensures !Run(Start(roles), steps).published[k].origin.ReplyOf?
  {
    hide Run, Subscribes;
    RunRouted(roles, steps);
    var s := Run(Start(roles), steps);
    assert s.published[k] in s.published;
    TopicsApart(s.daemons[d].role);
  }

  // ----- Stopping

  /** Whatever else goes on: a stop, a failure or a halt that reaches a daemon takes its start back. */
  lemma WithdrawalsReceived(s: State, i: nat, k: nat, known: bool)
    requires Delivers(s, i, k)
    requires var c := s.published[k].command;
      c == StopCommand(s.daemons[i].role) || c == NOTIFY_FAIL || c == HALT
    ensures |Apply(s, Deliver(i, k, known)).daemons| == |s.daemons|
    ensures var d := Apply(s, Deliver(i, k, known)).daemons[i];
      !d.started && d.player == Stopping(s.published[k].command)
  {
    hide Subscribes;
  }

  /** Its next stage leaves no worker running, for a halt too, which is then recorded. */
  lemma WorkersStopped(s: State, i: nat)
    requires i < |s.daemons| && s.daemons[i].player.Stopping?
    ensures |Apply(s, PlayerStep(i)).daemons| == |s.daemons|
    ensures var d := Apply(s, PlayerStep(i)).daemons[i];
      !d.running && (if s.daemons[i].player.command == HALT then d.player.Halting? else d.player.Listening?)
  {
  }

  lemma HaltRecorded(s: State, i: nat)
    requires i < |s.daemons| && s.daemons[i].player.Halting?
    ensures |Apply(s, PlayerStep(i)).daemons| == |s.daemons|
    ensures var d := Apply(s, PlayerStep(i)).daemons[i]; d.halt && d.player.Listening?
  {
  }

  /** The player thread takes one note at a time, and only from the topics it subscribed to. */
  lemma OneNoteAtATime(s: State, i: nat, k: nat, known: bool)
    requires i < |s.daemons| && k < |s.published|
    requires !s.daemons[i].player.Listening? || !Subscribes(s.daemons[i].role, s.published[k].topic)
    ensures Apply(s, Deliver(i, k, known)) == s
  {
    hide Subscribes;
  }

  /** A notice, once published, can be delivered to every daemon that listens, whatever its role. */
  lemma NoticesReachAll(roles: seq<Role>, steps: seq<Step>, i: nat, k: nat)
    requires var s := Run(Start(roles), steps); i < |s.daemons| && k < |s.published|
    requires var s := Run(Start(roles), steps);
      s.daemons[i].player.Listening? && s.published[k].origin.NoticeOf?
    ensures Delivers(Run(Start(roles), steps), i, k)
  {
    hide Run, Start;
    RunRouted(roles, steps);
    var s := Run(Start(roles), steps);
    assert s.published[k] in s.published;
  }

  /** The topics of the two roles. */
  lemma TopicsHeard(role: Role)
    ensures Subscribes(role, "/mpt/daemon") && Subscribes(role, "/mpt/notifications")
    ensures Sheet.MAESTRO_TOPIC == "/mpt/maestro" && NOTIFICATIONS == "/mpt/notifications"
    ensures Subscribes(SenderRole, "/mpt/daemon/sender") && Subscribes(ReceiverRole, "/mpt/daemon/receiver")
    ensures !Subscribes(ReceiverRole, "/mpt/daemon/sender") && !Subscribes(SenderRole, "/mpt/daemon/receiver")
  {
    var sender, receiver := "/mpt/daemon/sender", "/mpt/daemon/receiver";
    assert sender[12] == 's' && receiver[12] == 'r';
    assert |sender| == 18 && |receiver| == 20 && |"/mpt/daemon"| == 11 && |"/mpt/notifications"| == 18;
    assert sender[5] == 'd' && "/mpt/notifications"[5] == 'n';
  }

  // ----- Failure cascades

  function Accepted(ds: seq<Daemon>): nat {
    if ds == [] then 0 else Accepted(ds[..|ds| - 1]) + ds[|ds| - 1].accepted
  }

  function Notified(ds: seq<Daemon>): nat {
    if ds == [] then 0 else Notified(ds[..|ds| - 1]) + ds[|ds| - 1].notified
  }

  /** Executions that may yet end with a notification though no further start is accepted. */
  function Owed(ds: seq<Daemon>): nat {
    if ds == [] then 0 else Owed(ds[..|ds| - 1]) + Waiting(ds[|ds| - 1]) + Underway(ds[|ds| - 1])
  }

  lemma {:induction false} SumsAdvance(ds: seq<Daemon>, es: seq<Daemon>)
    requires |ds| == |es| && forall i :: 0 <= i < |ds| ==> Advances(ds[i], es[i])
    ensures Notified(es) - Notified(ds) + Owed(es) <= Accepted(es) - Accepted(ds) + Owed(ds)
    ensures Owed(ds) <= |ds|
  {
    if ds != [] {
      var last := |ds| - 1;
      SumsAdvance(ds[..last], es[..last]);
      assert Advances(ds[last], es[last]);
    }
  }

  /**
    From any state on, and however often failure notices are delivered, the cluster sends at most one
    more notification per daemon beyond the starts it accepts: failure cascades die out.
  */
  lemma CascadesDieOut(s: State, steps: seq<Step>)
    ensures var t := Run(s, steps);
      && |t.daemons| == |s.daemons|
      && Notified(t.daemons) - Notified(s.daemons) <= Accepted(t.daemons) - Accepted(s.daemons) + Owed(s.daemons)
      && Owed(s.daemons) <= |s.daemons|
  {
    hide Run, Advances;
    var t := Run(s, steps);
    DaemonsKept(s, steps);
    forall i | 0 <= i < |s.daemons| ensures Advances(s.daemons[i], t.daemons[i]) {
      RunAdvances(s, steps, i);
    }
    SumsAdvance(s.daemons, t.daemons);
  }

  lemma {:induction false} DaemonsKept(s: State, steps: seq<Step>)
    ensures |Run(s, steps).daemons| == |s.daemons|
  {
    hide Moved;
    if steps != [] {
      DaemonsKept(s, steps[..|steps| - 1]);
    }
  }

  // ----- Which starts are acted upon

  /**
    A main thread left alone begins an execution for a start exactly when it has not begun one
    already, its loop goes on, and the broker URL can be assigned.
  */
  lemma {:induction false} TurnActs(d: Daemon, luck: Luck)
    requires d.started && !d.phase.Gone?
    ensures Turn(d, luck).0.begun == d.begun + 1 <==> Idle(d) && luck.uri.Assigned? && (d.phase.Head? ==> !d.halt)
    decreases Left(d.phase)
  {
    hide Turn;
    TurnStep(d, luck);
    if d.phase.Head? && !d.halt {
      TurnActs(Proceed(d, luck).0, luck);
    } else if d.phase.Sleeping? {
      if luck.uri.Assigned? {
        TurnBeginsNone(Proceed(d, luck).0, luck);
      }
    } else if !d.phase.Head? {
      TurnBeginsNone(d, luck);
    }
  }

  lemma {:induction false} TurnBeginsNone(d: Daemon, luck: Luck)
    requires !Idle(d)
    ensures Turn(d, luck).0.begun == d.begun
    decreases Left(d.phase)
  {
    hide Turn;
    TurnStep(d, luck);
    var e := Proceed(d, luck).0;
    if !e.phase.Head? && !e.phase.Gone? {
      TurnBeginsNone(e, luck);
    }
  }

  /** The main thread of daemon i acts upon the start flag: it looks, and its URL does not keep it waiting. */
  predicate Looks(s: State, step: Step, i: nat)
    requires i < |s.daemons|
  {
    step.MainStep? && step.d == i && s.daemons[i].phase.Sleeping? && !step.luck.uri.Unformattable?
  }

  /** A stop, a peer's failure or a halt reaches daemon i. */
  predicate Undoes(s: State, step: Step, i: nat)
    requires i < |s.daemons|
  {
    && step.Deliver? && step.d == i && Delivers(s, i, step.k)
    && Withdraws(s.daemons[i].role, s.published[step.k].command)
  }

  /** Whether daemon i looks, or has its start withdrawn, in the course of the steps. */
  ghost predicate Looked(s: State, steps: seq<Step>, i: nat)
    requires i < |s.daemons|
  {
    steps != [] &&
    var most := steps[..|steps| - 1];
    DaemonsKept(s, most);
    Looked(s, most, i) || Looks(Run(s, most), steps[|steps| - 1], i)
  }

  ghost predicate Undone(s: State, steps: seq<Step>, i: nat)
    requires i < |s.daemons|
  {
    steps != [] &&
    var most := steps[..|steps| - 1];
    DaemonsKept(s, most);
    Undone(s, most, i) || Undoes(Run(s, most), steps[|steps| - 1], i)
  }

  /** The flag is up, the main thread has yet to look at it, and nothing is about to take it down. */
  predicate Flagged(d: Daemon) { d.started && Idle(d) && d.player.Listening? }

  /** There is no start for the main thread to see when it looks next. */
  predicate Blank(d: Daemon) { !(d.started && Idle(d)) }

  /** What a step that is no look does to a daemon. */
  lemma MovedFlag(s: State, step: Step)
    requires !step.Command? && step.d < |s.daemons| && !Looks(s, step, step.d)
    ensures var d, e := s.daemons[step.d], Moved(s, step).1;
      && e.begun == d.begun && e.accepted >= d.accepted
      && (Blank(d) && e.accepted == d.accepted ==> Blank(e))
      && (d.phase.Gone? ==> e.phase.Gone?)
      && (Flagged(d) && !Undoes(s, step, step.d) ==> Flagged(e) || e.phase.Gone?)
      && (Undoes(s, step, step.d) ==> Blank(e))
  {
    hide Subscribes, ReplyMsgs, NoticeMsgs;
    match step
    case Deliver(i, k, known) =>
    case PlayerStep(i) =>
    case MainStep(i, luck) =>
  }

  lemma StepFlag(s: State, step: Step, i: nat)
    requires i < |s.daemons| && !Looks(s, step, i)
    ensures |Apply(s, step).daemons| == |s.daemons|
    ensures var d, e := s.daemons[i], Apply(s, step).daemons[i];
      && e.begun == d.begun && e.accepted >= d.accepted
      && (Blank(d) && e.accepted == d.accepted ==> Blank(e))
      && (d.phase.Gone? ==> e.phase.Gone?)
      && (Flagged(d) && !Undoes(s, step, i) ==> Flagged(e) || e.phase.Gone?)
      && (Undoes(s, step, i) ==> Blank(e))
  {
    hide Moved, Flagged, Blank, Delivers;
    if !step.Command? && step.d == i {
      MovedFlag(s, step);
    }
  }

  /** Until the main thread looks, a start taken while it was idle stands unless it is withdrawn; any other is lost. */
  lemma {:induction false} RunFlag(s: State, steps: seq<Step>, i: nat)
    requires i < |s.daemons| && !Looked(s, steps, i)
    ensures |Run(s, steps).daemons| == |s.daemons|
    ensures var d, e := s.daemons[i], Run(s, steps).daemons[i];
      && e.begun == d.begun && e.accepted >= d.accepted
      && (Flagged(d) && !Undone(s, steps, i) ==> Flagged(e) || e.phase.Gone?)
      && (e.accepted == d.accepted && (Blank(d) || Undone(s, steps, i)) ==> Blank(e))
  {
    hide Apply, Flagged, Blank, Looks, Undoes;
    if steps != [] {
      var most, last := steps[..|steps| - 1], steps[|steps| - 1];
      RunFlag(s, most, i);
      StepFlag(Run(s, most), last, i);
    }
  }

  lemma Accepts(s: State, i: nat)
    requires i < |s.daemons| && s.daemons[i].player.Starting?
    ensures |Apply(s, PlayerStep(i)).daemons| == |s.daemons|
    ensures var d, e := s.daemons[i], Apply(s, PlayerStep(i)).daemons[i];
      && e.accepted == d.accepted + 1 && e.begun == d.begun && e.phase == d.phase
      && (if Idle(d) then Flagged(e) else Blank(e))
      && (!Idle(d) ==> e.prompt == d.prompt)
  {
  }

  lemma LookActs(s: State, i: nat, luck: Luck)
    requires i < |s.daemons| && s.daemons[i].phase.Sleeping?
    ensures |Apply(s, MainStep(i, luck)).daemons| == |s.daemons|
    ensures Apply(s, MainStep(i, luck)).daemons[i].begun == s.daemons[i].begun + 1 <==>
      s.daemons[i].started && luck.uri.Assigned?
  {
  }

  /**
    A start has just been answered with an OK, none was since, and the main thread looks at the flag
    for the first time.  It begins an execution exactly when it was idle as the start was accepted, no stop,
    failure or halt has reached the daemon since, and its URL can be assigned.
  */
  lemma StartActedUpon(s: State, steps: seq<Step>, luck: Luck, i: nat)
    requires i < |s.daemons| && s.daemons[i].player.Starting?
    requires i < |Apply(s, PlayerStep(i)).daemons| && !Looked(Apply(s, PlayerStep(i)), steps, i)
    requires i < |Run(Apply(s, PlayerStep(i)), steps).daemons|
    requires var d := Run(Apply(s, PlayerStep(i)), steps).daemons[i];
      d.phase.Sleeping? && d.accepted == s.daemons[i].accepted + 1
    ensures var first := Apply(s, PlayerStep(i));
      var last := Apply(Run(first, steps), MainStep(i, luck));
      && |last.daemons| == |s.daemons|
      && (last.daemons[i].begun == s.daemons[i].begun + 1 <==>
          Idle(s.daemons[i]) && !Undone(first, steps, i) && luck.uri.Assigned?)
  {
    hide Apply, Run, Looked, Undone;
    var first := Apply(s, PlayerStep(i));
    Accepts(s, i);
    RunFlag(first, steps, i);
    LookActs(Run(first, steps), i, luck);
  }

  /**
    A start accepted during an execution is never acted upon, whatever follows: executions begun
    afterwards never exceed the starts accepted afterwards while the main thread was idle.
  */
  lemma LateStartLost(s: State, steps: seq<Step>, i: nat)
    requires i < |s.daemons| && s.daemons[i].player.Starting? && !Idle(s.daemons[i])
    ensures var t := Run(Apply(s, PlayerStep(i)), steps);
      && |t.daemons| == |s.daemons|
      && t.daemons[i].begun - s.daemons[i].begun <= t.daemons[i].prompt - s.daemons[i].prompt
  {
    hide Apply, Run;
    Accepts(s, i);
    RunAdvances(Apply(s, PlayerStep(i)), steps, i);
  }

  // ----- What the handlers read

  /** The handlers of set and ping read the payload of the note, and that of a failure does while workers run. */
  predicate ReadsPayload(command: nat, running: bool) {
    command == SET || command == PING || (command == NOTIFY_FAIL && running)
  }

  /** The payload is of the shape that the handler of its command takes it for. */
  predicate Suits(n: Note) {
    && (n.command == SET ==> n.payload.SetOption?)
    && (n.command == PING ==> n.payload.PingTime?)
    && (n.command == NOTIFY_FAIL ==> n.payload.Notice?)
  }

  /**
    A note decoded without error, reaching a handler that reads its payload, has the right one exactly
    when it is of the type its command belongs to; it has none exactly when its type is unknown, or when
    it is a failure sent as a request.
  */
  lemma PayloadFound(s: Bytes, n: Note, running: bool)
    requires Decode(s).clean && View(Decode(s)) == Some(n) && ReadsPayload(n.command, running)
    ensures Suits(n) <==> n.kind == if n.command == NOTIFY_FAIL then NOTIFICATION else REQUEST
    ensures n.payload.NoPayload? <==> n.kind > NOTIFICATION || (n.kind == REQUEST && n.command == NOTIFY_FAIL)
    ensures n.payload.NoPayload? <==> !NoteMemory.HasPayload(n.kind, n.command)
  {
    hide Decode;
    NoteMemory.ViewShape(Decode(s));
  }

  /** There are such notes: a set command of a type that does not exist. */
  lemma PayloadMissing(s: Bytes)
    requires s == [3, 7]
    ensures Decode(s).ok && Decode(s).clean && View(Decode(s)) == Some(Note(3, SET, NoPayload))
  {
    hide Unpack, Pack, Read, CommandOf;
    assert Unpack(s) == Done(Int(3), 1) by { UnpackAlone(s); }
    assert s[1..] == [7] && s[1..][1..] == [];
    assert Unpack([7]) == Done(Int(7), 1) by { UnpackAlone([7]); }
    CommandStored(3, 7);
  }

  // ----- Witnesses

  /** An execution that ends at once because its log directory cannot be made. */
  const NO_LOG := Luck(Assigned, false, true, false)

  lemma RunNext(s: State, steps: seq<Step>, step: Step)
    ensures Run(s, steps + [step]) == Apply(Run(s, steps), step)
  {
    hide Apply;
    assert (steps + [step])[..|steps|] == steps;
  }

  /** A run of a cluster of one daemon, by the steps it takes. */
  lemma ThenMain(s: State, steps: seq<Step>, luck: Luck)
    requires |Run(s, steps).daemons| == 1
    ensures var t, u := Run(s, steps), Run(s, steps + [MainStep(0, luck)]);
      var (e, notice) := Proceed(t.daemons[0], luck);
      u == State([e], t.published + NoticeMsgs(0, notice))
  {
    hide Run, Proceed, NoticeMsgs;
    RunNext(s, steps, MainStep(0, luck));
  }

  lemma ThenPlayer(s: State, steps: seq<Step>)
    requires |Run(s, steps).daemons| == 1
    ensures var t, u := Run(s, steps), Run(s, steps + [PlayerStep(0)]);
      var (e, reply) := Continue(t.daemons[0]);
      u == State([e], t.published + ReplyMsgs(0, reply))
  {
    hide Run, Continue, ReplyMsgs;
    RunNext(s, steps, PlayerStep(0));
  }

  lemma ThenDeliver(s: State, steps: seq<Step>, k: nat)
    requires var t := Run(s, steps); |t.daemons| == 1 && k < |t.published|
    requires var t := Run(s, steps); t.daemons[0].player.Listening? && t.published[k].topic == ALL_DAEMONS
    ensures var t, u := Run(s, steps), Run(s, steps + [Deliver(0, k, true)]);
      var (e, reply) := Receive(t.daemons[0], t.published[k].command, true);
      u == State([e], t.published + ReplyMsgs(0, reply))
  {
    hide Run, Receive, ReplyMsgs;
    RunNext(s, steps, Deliver(0, k, true));
  }

  /** One daemon, for which the controller has published two notes, comes to sleep. */
  lemma Asleep(role: Role, first: nat, second: nat) returns (steps: seq<Step>)
    ensures Run(Start([role]), steps) == State([NewDaemon(role).(phase := Sleeping)],
      [Msg(ALL_DAEMONS, first, Controller), Msg(ALL_DAEMONS, second, Controller)])
  {
    hide Run, Proceed;
    var s := Start([role]);
    assert s == State([NewDaemon(role)], []);
    assert Run(s, []) == s by { RunNothing(s); }
    RunNext(s, [], Command(ALL_DAEMONS, first));
    RunNext(s, [] + [Command(ALL_DAEMONS, first)], Command(ALL_DAEMONS, second));
    steps := [] + [Command(ALL_DAEMONS, first)] + [Command(ALL_DAEMONS, second)];
    ThenMain(s, steps, NO_LOG);
    FallsAsleep(role);
    steps := steps + [MainStep(0, NO_LOG)];
  }

  lemma RunNothing(s: State)
    ensures Run(s, []) == s
  {
  }

  lemma FallsAsleep(role: Role)
    ensures Proceed(NewDaemon(role), NO_LOG) == (NewDaemon(role).(phase := Sleeping), None)
  {
  }

  /** A note that is handled in two stages, the second of which replies. */
  lemma ThenHandled(s: State, steps: seq<Step>, k: nat) returns (steps': seq<Step>)
    requires var t := Run(s, steps); |t.daemons| == 1 && k < |t.published|
    requires var t := Run(s, steps); t.daemons[0].player.Listening? && t.published[k].topic == ALL_DAEMONS
    requires var t := Run(s, steps); Receive(t.daemons[0], t.published[k].command, true).1.None?
    ensures var t, u := Run(s, steps), Run(s, steps');
      && u.daemons == [Continue(Receive(t.daemons[0], t.published[k].command, true).0).0]
      && t.published <= u.published
  {
    hide Run, Receive, Continue;
    ThenDeliver(s, steps, k);
    ThenPlayer(s, steps + [Deliver(0, k, true)]);
    steps' := steps + [Deliver(0, k, true)] + [PlayerStep(0)];
  }

  /** The bound after a halt is met: halt and start arrive while the main thread sleeps. */
  lemma HaltThenOneMore() returns (before: seq<Step>, after: seq<Step>)
    ensures var s := Run(Start([SenderRole]), before);
      var t := Run(s, after);
      |s.daemons| == |t.daemons| == 1 && s.daemons[0].halt && t.daemons[0].begun == s.daemons[0].begun + 1
  {
    hide Run, Start, Receive, Continue, Proceed;
    var first := Start([SenderRole]);
    var asleep := Asleep(SenderRole, HALT, START_SENDER);
    var d := NewDaemon(SenderRole).(phase := Sleeping);
    HaltStages(d);
    before := ThenHandled(first, asleep, 0);
    ThenPlayer(first, before);
    before := before + [PlayerStep(0)];
    var s := Run(first, before);
    RunNothing(s);
    StartStages(d.(halt := true), 0, 0);
    after := ThenHandled(s, [], 1);
    LookStages(d.(halt := true, started := true, accepted := 1, prompt := 1));
    ThenMain(s, after, NO_LOG);
    after := after + [MainStep(0, NO_LOG)];
  }

  lemma HaltStages(d: Daemon)
    requires d == NewDaemon(SenderRole).(phase := Sleeping)
    ensures Receive(d, HALT, true) == (d.(player := Stopping(HALT)), None)
    ensures Continue(d.(player := Stopping(HALT))) == (d.(player := Halting), None)
    ensures Continue(d.(player := Halting)).0 == d.(halt := true)
  {
  }

  /** A start answered with an OK while an execution winds down is forgotten. */
  lemma LateStartForgotten(d: Daemon, known: bool, luck: Luck)
    requires d.phase.Clearing? && d.player.Listening? && !d.started && !d.running
    ensures var (asked, reply) := Handled(d, StartCommand(d.role), known);
      var after := Proceed(asked, luck).0;
      && reply == Some(Answer(StartCommand(d.role), OK))
      && asked.accepted == d.accepted + 1
      && after == Proceed(d, luck).0.(accepted := after.accepted)
  {
  }

  /** In this run a second start is answered with OK, and the daemon is idle again without having acted upon it. */
  lemma LateStartExample() returns (steps: seq<Step>)
    ensures var s := Run(Start([SenderRole]), steps);
      && |s.daemons| == 1 && s.daemons[0].accepted == 2 && s.daemons[0].begun == 1
      && s.daemons[0].phase.Head? && !s.daemons[0].started
  {
    hide Run, Start, Receive, Continue, Proceed;
    var first := Start([SenderRole]);
    steps := Asleep(SenderRole, START_SENDER, STOP_SENDER);
    var d := NewDaemon(SenderRole).(phase := Sleeping);
    StartStages(d, 0, 0);
    steps := ThenHandled(first, steps, 0);
    var e := d.(started := true, accepted := 1, prompt := 1);
    LookStages(e);
    ThenMain(first, steps, NO_LOG);
    steps := steps + [MainStep(0, NO_LOG)];
    ThenMain(first, steps, NO_LOG);
    steps := steps + [MainStep(0, NO_LOG)];
    e := e.(phase := Clearing, begun := 1);
    StopStages(e);
    steps := ThenHandled(first, steps, 1);
    e := e.(started := false);
    StartStages(e, 1, 1);
    steps := ThenHandled(first, steps, 0);
    ClearStage(e.(started := true, accepted := 2));
    ThenMain(first, steps, NO_LOG);
    steps := steps + [MainStep(0, NO_LOG)];
  }

  lemma StartStages(d: Daemon, accepted: nat, prompt: nat)
    requires d.role.SenderRole? && d.player.Listening? && !d.started && !d.running
    requires d.accepted == accepted && d.prompt == prompt
    ensures Receive(d, START_SENDER, true).1.None?
    ensures Continue(Receive(d, START_SENDER, true).0).0
         == d.(started := true, accepted := accepted + 1, prompt := prompt + if Idle(d) then 1 else 0)
  {
  }

  lemma StopStages(d: Daemon)
    requires d.role.SenderRole? && d.player.Listening?
    ensures Receive(d, STOP_SENDER, true).1.None?
    ensures Continue(Receive(d, STOP_SENDER, true).0).0 == d.(started := false, running := false)
  {
  }

  lemma LookStages(d: Daemon)
    requires d.started && d.phase.Sleeping?
    ensures Proceed(d, NO_LOG) == (d.(phase := Launching, begun := d.begun + 1), None)
    ensures Proceed(d.(phase := Launching, begun := d.begun + 1), NO_LOG)
         == (d.(phase := Clearing, begun := d.begun + 1), None)
  {
  }

  lemma ClearStage(d: Daemon)
    requires d.phase.Clearing?
    ensures Proceed(d, NO_LOG) == (d.(started := false, phase := Head), None)
  {
  }
}
