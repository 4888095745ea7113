/** The windowed settlement of received messages, with the default acknowledgement mode. */
module Proton {

  const WINDOW := 10

  /** What asking the remote peer brings into the local buffer. */
  datatype Remote = RecvError | RecvNone | Recv(k: nat)

  /**
    The message taken from the buffer: with a creation time, without one, or not obtained; in the last
    case it may nevertheless have left the buffer.
  */
  datatype Message = Timed | Untimed | Failed(taken: bool)

  /** The message leaves the buffer, and the counter does not take notice. */
  predicate Uncounted(m: Message) { m.Untimed? || (m.Failed? && m.taken) }

  datatype Event = Arrive(k: nat) | Receive(remote: Remote, message: Message)

  /**
    `incoming` messages are in the local buffer, `unsettled` were fetched and not settled yet; `settled`
    lists how many messages each settlement covered, and `uncounted` how many messages were
    fetched without being counted in `cur` since the last of them.
  */
  datatype Window = Window(incoming: nat, unsettled: nat, cur: nat, lastAck: nat, settled: seq<nat>, uncounted: nat)

  const START := Window(0, 0, 0, 0, [], 0)

  function Settle(w: Window): Window {
    w.(unsettled := 0, cur := 0, lastAck := 0, uncounted := 0, settled := w.settled + [w.unsettled])
  }

  function Fetch(w: Window, message: Message): Window
    requires w.incoming > 0
  {
    match message
    case Timed =>
      var f := w.(incoming := w.incoming - 1, unsettled := w.unsettled + 1, cur := w.cur + 1);
      if f.lastAck + WINDOW == f.cur || w.incoming == 1 then Settle(f) else f
    case _ =>
      if Uncounted(message)
      then w.(incoming := w.incoming - 1, unsettled := w.unsettled + 1, uncounted := w.uncounted + 1)
      else w
  }

  function Step(w: Window, e: Event): Window {
    match e
    case Arrive(k) => w.(incoming := w.incoming + k)
    case Receive(remote, message) =>
      if w.incoming > 0 then Fetch(w, message)
      else if !remote.Recv? then w
      else
        var batch := w.(incoming := remote.k, cur := 0, lastAck := 0);
        if remote.k == 0 then batch else Fetch(batch, message)
  }

  function Run(w: Window, events: seq<Event>): Window {
    if events == [] then w else Step(Run(w, events[..|events| - 1]), events[|events| - 1])
  }

  ghost predicate Inv(w: Window) {
    && w.lastAck == 0 && w.cur < WINDOW && w.cur <= w.unsettled
    && (w.unsettled == w.cur <==> w.uncounted == 0)
    && (w.incoming == 0 && w.uncounted == 0 ==> w.cur == 0)
  }

  lemma StepKeepsInv(w: Window, e: Event)
    requires Inv(w)
    ensures Inv(Step(w, e))
  {
  }

  /**
    Over any run, `cur` is the number of fetched and unsettled messages exactly when every message
    fetched since the last settlement was obtained and carried a creation time; then at most nine are
    unsettled, none when the buffer is empty.
  */
  lemma {:induction false} CurCountsUnsettled(events: seq<Event>)
    ensures var w := Run(START, events);
      && Inv(w)
      && (w.unsettled == w.cur <==> w.uncounted == 0)
      && (w.uncounted == 0 ==> w.unsettled <= 9 && (w.incoming == 0 ==> w.unsettled == 0))
  {
    if events != [] {
      CurCountsUnsettled(events[..|events| - 1]);
      StepKeepsInv(Run(START, events[..|events| - 1]), events[|events| - 1]);
    }
  }

  ghost predicate AllCounted(events: seq<Event>) {
    forall i :: 0 <= i < |events| && events[i].Receive? ==> !Uncounted(events[i].message)
  }

  /** When every message fetched is obtained and timed, every settlement covers one to ten messages. */
  lemma {:induction false} SettlementsFitWindow(events: seq<Event>)
    requires AllCounted(events)
    ensures var w := Run(START, events);
      && w.uncounted == 0 && w.unsettled == w.cur <= 9 && (w.incoming == 0 ==> w.unsettled == 0)
      && forall i :: 0 <= i < |w.settled| ==> 1 <= w.settled[i] <= 10
  {
    CurCountsUnsettled(events);
    if events != [] {
      var most := events[..|events| - 1];
      SettlementsFitWindow(most);
      CurCountsUnsettled(most);
      assert !(events[|events| - 1].Receive? && Uncounted(events[|events| - 1].message));
    }
  }

  /** Nor is a settlement made early: it covers ten messages unless it empties the local buffer. */
  lemma SettlementsFull(events: seq<Event>, e: Event)
    requires AllCounted(events + [e])
    ensures var w, w' := Run(START, events), Run(START, events + [e]);
      w'.settled != w.settled ==>
        && w'.settled == w.settled + [w.unsettled + 1] && w'.unsettled == 0
        && (w.unsettled + 1 == 10 || w'.incoming == 0)
  {
    hide Step, Inv;
    var all := events + [e];
    assert all[..|events|] == events;
    assert e == all[|events|];
    assert AllCounted(events) by {
      forall i | 0 <= i < |events| && events[i].Receive? ensures !Uncounted(events[i].message) {
        assert all[i] == events[i];
      }
    }
    SettlementsFitWindow(events);
    CurCountsUnsettled(events);
    StepSettles(Run(START, events), e);
  }

  lemma StepSettles(w: Window, e: Event)
    requires Inv(w) && w.uncounted == 0 && (e.Receive? ==> !Uncounted(e.message))
    ensures var w' := Step(w, e);
      w'.settled != w.settled ==>
        && w'.settled == w.settled + [w.unsettled + 1] && w'.unsettled == 0
        && (w.unsettled + 1 == 10 || w'.incoming == 0)
  {
  }

  /** Messages without creation time escape the window: a settlement can cover any number of them. */
  lemma {:induction false} UntimedEscapesWindow(k: nat)
    ensures var events := [Arrive(k + 1)] + seq(k, _ => Receive(RecvNone, Untimed));
      && Run(START, events) == Window(1, k, 0, 0, [], k)
      && Run(START, events + [Receive(RecvNone, Timed)]).settled == [k + 1]
  {
    var events := [Arrive(k + 1)] + seq(k, _ => Receive(RecvNone, Untimed));
    UntimedRun(k + 1, k);
    assert (events + [Receive(RecvNone, Timed)])[..|events|] == events;
  }

  lemma {:induction false} UntimedRun(n: nat, k: nat)
    requires k <= n
    ensures Run(START, [Arrive(n)] + seq(k, _ => Receive(RecvNone, Untimed))) == Window(n - k, k, 0, 0, [], k)
  {
    var events := [Arrive(n)] + seq(k, _ => Receive(RecvNone, Untimed));
    if k == 0 {
      assert events == [Arrive(n)] && events[..0] == [];
    } else {
      UntimedRun(n, k - 1);
      assert events[..|events| - 1] == [Arrive(n)] + seq(k - 1, _ => Receive(RecvNone, Untimed));
    }
  }

  datatype Stat = Success | NoData | Error | NoTimestamp

  /** The static counters of the receiver, with the messenger they count for. */
  class Receiver {
    var incoming: nat
    var unsettled: nat
    var settled: seq<nat>
    var nmsgs: nat
    var cur: nat
    var lastAck: nat
    ghost var uncounted: nat

    ghost function State(): Window
      reads this
    {
      Window(incoming, unsettled, cur, lastAck, settled, uncounted)
    }

    constructor ()
      ensures State() == START
    {
      incoming, unsettled, settled, nmsgs, cur, lastAck, uncounted := 0, 0, [], 0, 0, 0, 0;
    }

    /** Accepts and settles cumulatively everything fetched. */
    method FinalizeReceive()
      modifies this`unsettled, this`settled, this`uncounted
      ensures unsettled == 0 && settled == old(settled) + [old(unsettled)] && uncounted == 0
    {
      settled := settled + [unsettled];
      unsettled, uncounted := 0, 0;
    }

    method ReceiveOne(remote: Remote, message: Message) returns (stat: Stat)
      modifies this
      ensures State() == Step(old(State()), Receive(remote, message))
      ensures stat == Success <==> message.Timed? && (old(incoming) > 0 || (remote.Recv? && remote.k > 0))
      ensures Inv(old(State())) && old(uncounted) == 0 && stat == Success ==>
        if old(unsettled) + 1 == 10 || incoming == 0
        then settled == old(settled) + [old(unsettled) + 1] && unsettled == 0
        else settled == old(settled) && unsettled == old(unsettled) + 1
      ensures stat == NoData <==> old(incoming) == 0 && (remote.RecvNone? || (remote.Recv? && remote.k == 0))
    {
      nmsgs := incoming;
      if nmsgs == 0 {
        if remote.RecvError? {
          return Error;
        }
        if remote.RecvNone? {
          return NoData;
        }
        incoming := remote.k;
        nmsgs := incoming;
        cur, lastAck := 0, 0;
        if nmsgs == 0 {
          return NoData;
        }
      }

      stat := Process(message);
    }

    /** Takes one message from the non-empty buffer, settling after every window and at its end. */
    method Process(message: Message) returns (stat: Stat)
      requires nmsgs == incoming > 0
      modifies this
      ensures State() == Fetch(old(State()), message)
      ensures stat == match message case Timed => Success case Untimed => NoTimestamp case Failed(_) => Error
    {
      if message.Failed? && !message.taken {
        return Error;
      }
      incoming, unsettled := incoming - 1, unsettled + 1;
      if message.Failed? {
        uncounted := uncounted + 1;
        return Error;
      }
      if message.Untimed? {
        uncounted := uncounted + 1;
        return NoTimestamp;
      }
      cur := cur + 1;

      if lastAck + WINDOW == cur {
        FinalizeReceive();
        cur, lastAck := 0, 0;
      } else if nmsgs == 1 {
        FinalizeReceive();
        cur, lastAck := 0, 0;
      }
      return Success;
    }
  }
}
