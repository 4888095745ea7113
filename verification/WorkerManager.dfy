/** The critical sections of the worker manager: the watchdog pass, the stop pass and the list they walk. */
module WorkerManager {
  import opened Common
  import opened SnapshotQueue

  type Child = nat

  const SIGINT := 2
  const SIGKILL := 9
  const SIGTERM := 15
  const UINT32 := 0x1_0000_0000

  /** The value of a 32-bit counter. */
  function Wrap(n: nat): (w: nat)
    ensures w < UINT32
  {
    n % UINT32
  }

  /** What asking for the state of a child reports, without waiting. */
  datatype Poll = NoChange | Exited | Signaled(sig: nat) | Stopped(sig: nat) | WaitFailed

  /** The child is gone and has been collected. */
  predicate Reaped(p: Poll) { p.Exited? || p.Signaled? }

  predicate Bad(p: Poll) { (p.Signaled? || p.Stopped?) && p.sig != SIGINT }

  function BadCount(p: Poll): nat { if Bad(p) then 1 else 0 }

  // ----- The watchdog pass

  /** What a handler asks for, and the functions it comes with. */
  datatype Handler = Handler(prints: bool, canPrint: bool, evals: bool, canEval: bool)

  predicate WellFormed(h: Handler) { (h.prints ==> h.canPrint) && (h.evals ==> h.canEval) }

  datatype Visit = Visit(gaps: seq<Gap>, poll: Poll, accepts: bool)

  datatype Ending = Completed | Refused | Misconfigured

  /** The verdict of the handler on a child whose state has not changed. */
  function Handle(h: Handler, accepts: bool): Ending {
    if !WellFormed(h) then Misconfigured else if h.evals && !accepts then Refused else Completed
  }

  predicate Ends(h: Handler, v: Visit) {
    v.poll.NoChange? && Handle(h, v.accepts) != Completed
  }

  /** How many entries a pass gets past. */
  function Passed(h: Handler, list: seq<Child>, visits: seq<Visit>, i: nat): (n: nat)
    requires i <= |list| <= |visits|
    ensures i <= n <= |list| && (n < |list| ==> Ends(h, visits[n]))
    ensures forall j :: i <= j < n ==> !Ends(h, visits[j])
    decreases |list| - i
  {
    if i == |list| || Ends(h, visits[i]) then i else Passed(h, list, visits, i + 1)
  }

  /** Those of the first `n` entries that stay, those that are removed, and how many of these count as errors. */
  function Kept(list: seq<Child>, visits: seq<Visit>, n: nat): seq<Child>
    requires n <= |list| <= |visits|
  {
    if n == 0 then [] else Kept(list, visits, n - 1) + if visits[n - 1].poll.NoChange? then [list[n - 1]] else []
  }

  function Removed(list: seq<Child>, visits: seq<Visit>, n: nat): seq<Child>
    requires n <= |list| <= |visits|
  {
    if n == 0 then [] else Removed(list, visits, n - 1) + if visits[n - 1].poll.NoChange? then [] else [list[n - 1]]
  }

  function BadIn(visits: seq<Visit>, n: nat): nat
    requires n <= |visits|
  {
    if n == 0 then 0 else BadIn(visits, n - 1) + BadCount(visits[n - 1].poll)
  }

  /** The handler asks for a function it does not come with, and there is a child to call it for. */
  ghost predicate MeetsFlaw(h: Handler, list: seq<Child>, visits: seq<Visit>)
    requires |list| <= |visits|
  {
    !WellFormed(h) && exists i :: 0 <= i < |list| && visits[i].poll.NoChange?
  }

  datatype Watched = Watched(kept: seq<Child>, removed: seq<Child>, bad: nat, ending: Ending)

  /** A whole pass over the list. */
  function Watch(h: Handler, list: seq<Child>, visits: seq<Visit>): Watched
    requires |list| <= |visits|
  {
    var n := Passed(h, list, visits, 0);
    Watched(Kept(list, visits, n) + list[n..], Removed(list, visits, n), BadIn(visits, n),
            if n < |list| then Handle(h, visits[n].accepts) else Completed)
  }

  /** A pass ends in a misconfiguration exactly when the handler has one and some child is unchanged. */
  lemma MisconfiguredExactly(h: Handler, list: seq<Child>, visits: seq<Visit>)
    requires |list| <= |visits|
    ensures Watch(h, list, visits).ending == Misconfigured <==> MeetsFlaw(h, list, visits)
  {
    hide Kept, Removed, BadIn;
    var n := Passed(h, list, visits, 0);
    if MeetsFlaw(h, list, visits) {
      var i :| 0 <= i < |list| && visits[i].poll.NoChange?;
      assert Ends(h, visits[i]);
    }
  }

  /** No entry is lost or duplicated by a pass. */
  lemma {:induction false} PassPartitions(list: seq<Child>, visits: seq<Visit>, n: nat)
    requires n <= |list| <= |visits|
    ensures multiset(Kept(list, visits, n)) + multiset(Removed(list, visits, n)) == multiset(list[..n])
  {
    hide Kept, Removed, BadIn;
    PassBegins(list, visits);
    if n > 0 {
      PassPartitions(list, visits, n - 1);
      PassNext(list, visits, n - 1);
      assert list[..n] == list[..n - 1] + [list[n - 1]];
      MultisetConcat(list[..n - 1], [list[n - 1]]);
      MultisetConcat(Kept(list, visits, n - 1), [list[n - 1]]);
      MultisetConcat(Removed(list, visits, n - 1), [list[n - 1]]);
    }
  }

  lemma WatchPartitions(h: Handler, list: seq<Child>, visits: seq<Visit>)
    requires |list| <= |visits|
    ensures var w := Watch(h, list, visits);
      multiset(w.kept) + multiset(w.removed) == multiset(list)
  {
    hide Kept, Removed, BadIn, Passed;
    var n := Passed(h, list, visits, 0);
    PassPartitions(list, visits, n);
    MultisetConcat(Kept(list, visits, n), list[n..]);
    MultisetConcat(list[..n], list[n..]);
    assert list == list[..n] + list[n..];
  }

  lemma MultisetConcat(a: seq<Child>, b: seq<Child>)
    ensures multiset(a + b) == multiset(a) + multiset(b)
  {
  }

  /** The pass counts an error exactly when it saw a child killed or stopped by a signal other than SIGINT. */
  lemma {:induction false} BadSeen(visits: seq<Visit>, n: nat)
    requires n <= |visits|
    ensures BadIn(visits, n) > 0 <==> exists i :: 0 <= i < n && Bad(visits[i].poll)
    ensures forall p: Poll :: Bad(p) <==> (p.Signaled? && p.sig != 2) || (p.Stopped? && p.sig != 2)
  {
    if n > 0 {
      BadSeen(visits, n - 1);
    }
  }

  /** An entry is removed exactly when its child was polled and found changed. */
  lemma {:induction false} RemovedWhen(list: seq<Child>, visits: seq<Visit>, n: nat, c: Child)
    requires n <= |list| <= |visits|
    ensures c in Removed(list, visits, n) <==> exists i :: 0 <= i < n && list[i] == c && !visits[i].poll.NoChange?
  {
    if n > 0 {
      RemovedWhen(list, visits, n - 1, c);
    }
  }

  /** Every error that a pass counts is an entry that it does not keep. */
  lemma {:induction false} BadLeave(list: seq<Child>, visits: seq<Visit>, n: nat)
    requires n <= |list| <= |visits|
    ensures BadIn(visits, n) + |Kept(list, visits, n)| <= n
  {
    if n > 0 {
      BadLeave(list, visits, n - 1);
    }
  }

  lemma WatchBadLeave(h: Handler, list: seq<Child>, visits: seq<Visit>)
    requires |list| <= |visits|
    ensures var w := Watch(h, list, visits); w.bad + |w.kept| <= |list|
  {
    hide Kept, BadIn, Removed;
    BadLeave(list, visits, Passed(h, list, visits, 0));
  }

  lemma Gathered(a: seq<Child>, b: seq<Child>, ab: seq<Child>, c: seq<Child>)
    requires ab == a + b
    ensures ab + c == a + (b + c)
  {
  }

  lemma Wraps(n: nat, x: nat)
    ensures Wrap(Wrap(n) + x) == Wrap(n + x) && (n < UINT32 ==> Wrap(n) == n)
  {
  }

  lemma PassBegins(list: seq<Child>, visits: seq<Visit>)
    requires |list| <= |visits|
    ensures Kept(list, visits, 0) == [] == Removed(list, visits, 0) && BadIn(visits, 0) == 0 && list[0..] == list
  {
  }

  /** What one entry adds to a pass. */
  lemma PassNext(list: seq<Child>, visits: seq<Visit>, i: nat)
    requires i < |list| <= |visits|
    ensures var same := visits[i].poll.NoChange?;
      && Kept(list, visits, i + 1) == Kept(list, visits, i) + (if same then [list[i]] else [])
      && Removed(list, visits, i + 1) == Removed(list, visits, i) + (if same then [] else [list[i]])
    ensures BadIn(visits, i + 1) == BadIn(visits, i) + BadCount(visits[i].poll)
    ensures visits[i].poll.NoChange? ==> BadIn(visits, i + 1) == BadIn(visits, i)
  {
  }

  lemma PassStops(h: Handler, list: seq<Child>, visits: seq<Visit>, i: nat)
    requires i <= |list| <= |visits| && (forall j :: 0 <= j < i ==> !Ends(h, visits[j]))
    requires i < |list| ==> Ends(h, visits[i])
    ensures Watch(h, list, visits) == Watched(Kept(list, visits, i) + list[i..], Removed(list, visits, i),
      BadIn(visits, i), if i < |list| then Handle(h, visits[i].accepts) else Completed)
  {
  }

  lemma RemovedFrom(kept: seq<Child>, list: seq<Child>, i: nat)
    requires i < |list|
    ensures var s := kept + list[i..];
      && s[|kept|] == list[i] && s == kept + [list[i]] + list[i + 1..]
      && s[..|kept|] + s[|kept| + 1..] == kept + list[i + 1..]
  {
  }

  /** Up to `n` passes in a row: while any child is left, and as long as none fails. */
  function WatchAll(h: Handler, list: seq<Child>, passes: seq<seq<Visit>>, n: nat): (w: Watched)
    requires n <= |passes| && forall k :: 0 <= k < |passes| ==> |passes[k]| >= |list|
    ensures multiset(w.kept) + multiset(w.removed) == multiset(list) && |w.kept| <= |list|
  {
    if n == 0 then Watched(list, [], 0, Completed) else
    var w := WatchAll(h, list, passes, n - 1);
    if w.kept == [] || w.ending != Completed then w else
    var next := Watch(h, w.kept, passes[n - 1]);
    PassesPartition(h, list, w, passes[n - 1]);
    Watched(next.kept, w.removed + next.removed, w.bad + next.bad, next.ending)
  }

  lemma PassesPartition(h: Handler, list: seq<Child>, w: Watched, visits: seq<Visit>)
    requires multiset(w.kept) + multiset(w.removed) == multiset(list) && |w.kept| <= |visits|
    ensures var next := Watch(h, w.kept, visits);
      && multiset(next.kept) + multiset(w.removed + next.removed) == multiset(list)
      && |next.kept| <= |list|
  {
    hide Watch;
    var next := Watch(h, w.kept, visits);
    WatchPartitions(h, w.kept, visits);
    MultisetConcat(w.removed, next.removed);
    assert |multiset(next.kept)| == |next.kept| && |multiset(list)| == |list|;
    assert |multiset(next.kept) + multiset(w.removed + next.removed)| == |next.kept| + |w.removed + next.removed|;
  }

  lemma AllBegin(h: Handler, list: seq<Child>, passes: seq<seq<Visit>>)
    requires forall k :: 0 <= k < |passes| ==> |passes[k]| >= |list|
    ensures WatchAll(h, list, passes, 0) == Watched(list, [], 0, Completed)
  {
  }

  lemma AllNext(h: Handler, list: seq<Child>, passes: seq<seq<Visit>>, k: nat)
    requires k < |passes| && forall i :: 0 <= i < |passes| ==> |passes[i]| >= |list|
    requires WatchAll(h, list, passes, k).kept != [] && WatchAll(h, list, passes, k).ending == Completed
    ensures var w, w' := WatchAll(h, list, passes, k), WatchAll(h, list, passes, k + 1);
      var next := Watch(h, w.kept, passes[k]);
      w' == Watched(next.kept, w.removed + next.removed, w.bad + next.bad, next.ending)
  {
  }

  lemma {:induction false} AllRemoved(list: seq<Child>, visits: seq<Visit>, n: nat)
    requires n <= |list| <= |visits| && forall i :: 0 <= i < |list| ==> !visits[i].poll.NoChange?
    ensures Kept(list, visits, n) == []
  {
    if n > 0 {
      AllRemoved(list, visits, n - 1);
    }
  }

  /** A flawed handler shows in the first pass or, if that finds no unchanged child, never. */
  lemma {:induction false} FlawShowsAtOnce(h: Handler, list: seq<Child>, passes: seq<seq<Visit>>, n: nat)
    requires n <= |passes| && forall i :: 0 <= i < |passes| ==> |passes[i]| >= |list|
    ensures var w := WatchAll(h, list, passes, n);
      && (w.ending == Misconfigured <==> n > 0 && MeetsFlaw(h, list, passes[0]))
      && (n > 0 && !WellFormed(h) && w.ending != Misconfigured ==> w.kept == [])
  {
    hide Watch, WatchAll, WellFormed, MeetsFlaw;
    AllBegin(h, list, passes);
    if n > 0 {
      FlawNeeded(h, list, passes[0]);
      var w := WatchAll(h, list, passes, n - 1);
      FlawShowsAtOnce(h, list, passes, n - 1);
      if w.kept == [] || w.ending != Completed {
        AllStays(h, list, passes, n - 1);
      } else {
        AllNext(h, list, passes, n - 1);
        MisconfiguredExactly(h, w.kept, passes[n - 1]);
        FlawNeeded(h, w.kept, passes[n - 1]);
        if !WellFormed(h) && !MeetsFlaw(h, w.kept, passes[n - 1]) {
          FlawlessPass(h, w.kept, passes[n - 1]);
        }
      }
    }
  }

  lemma FlawNeeded(h: Handler, list: seq<Child>, visits: seq<Visit>)
    requires |list| <= |visits|
    ensures MeetsFlaw(h, list, visits) ==> !WellFormed(h) && list != []
  {
  }

  lemma FlawlessPass(h: Handler, list: seq<Child>, visits: seq<Visit>)
    requires |list| <= |visits| && !WellFormed(h) && !MeetsFlaw(h, list, visits)
    ensures Watch(h, list, visits).kept == []
  {
    hide Kept, Removed, BadIn;
    AllRemoved(list, visits, Passed(h, list, visits, 0));
  }

  lemma AllStays(h: Handler, list: seq<Child>, passes: seq<seq<Visit>>, k: nat)
    requires k < |passes| && forall i :: 0 <= i < |passes| ==> |passes[i]| >= |list|
    requires WatchAll(h, list, passes, k).kept == [] || WatchAll(h, list, passes, k).ending != Completed
    ensures WatchAll(h, list, passes, k + 1) == WatchAll(h, list, passes, k)
  {
    hide Watch;
  }

  /** Once there is nothing to watch, or a pass has failed, further passes change nothing. */
  lemma {:induction false} AllDone(h: Handler, list: seq<Child>, passes: seq<seq<Visit>>, k: nat)
    requires k <= |passes| && forall i :: 0 <= i < |passes| ==> |passes[i]| >= |list|
    requires k < |passes| ==>
      WatchAll(h, list, passes, k).kept == [] || WatchAll(h, list, passes, k).ending != Completed
    ensures WatchAll(h, list, passes, |passes|) == WatchAll(h, list, passes, k)
    decreases |passes| - k
  {
    hide WatchAll;
    if k < |passes| {
      AllStays(h, list, passes, k);
      AllDone(h, list, passes, k + 1);
    }
  }

  // ----- The stop pass

  datatype StopVisit = StopVisit(killOk: bool, polls: seq<Poll>, gaps: seq<Gap>)

  const RETRIES := 10

  predicate Scripted(list: seq<Child>, visits: seq<StopVisit>) {
    |visits| >= |list| && forall i :: 0 <= i < |visits| ==> |visits[i].polls| == RETRIES
  }

  /** Every poll that the stop pass can make shows no change. */
  predicate Refuses(polls: seq<Poll>) {
    forall i :: 0 <= i < |polls| ==> polls[i].NoChange?
  }

  /** The child was collected by one of the polls made. */
  predicate Collected(polls: seq<Poll>) {
    exists i :: 0 <= i < |polls| && Reaped(polls[i]) && forall j :: 0 <= j < i ==> polls[j].NoChange?
  }

  /** Every listed child was sent the signal, and collected. */
  predicate AllStopped(list: seq<Child>, visits: seq<StopVisit>)
    requires |visits| >= |list|
  {
    forall i :: 0 <= i < |list| ==> visits[i].killOk && Collected(visits[i].polls)
  }

  datatype Sent = Sent(child: Child, sig: nat)

  function StopSignals(sig: nat, list: seq<Child>, visits: seq<StopVisit>): seq<Sent>
    requires |visits| >= |list|
  {
    if list == [] then [] else
    var last := |list| - 1;
    StopSignals(sig, list[..last], visits)
    + (if visits[last].killOk then [Sent(list[last], sig)] else [])
    + (if visits[last].killOk && Refuses(visits[last].polls) then [Sent(list[last], SIGKILL)] else [])
  }

  /**
    The signal goes to exactly the children it can be delivered to, and SIGKILL to exactly those of them
    that refuse to stop.
  */
  lemma {:induction false} SignalsSent(sig: nat, list: seq<Child>, visits: seq<StopVisit>, s: Sent)
    requires |visits| >= |list| && sig != 9
    ensures s in StopSignals(sig, list, visits) <==>
      exists i :: 0 <= i < |list| && list[i] == s.child && visits[i].killOk &&
        (s.sig == sig || (s.sig == 9 && Refuses(visits[i].polls)))
    ensures forall polls: seq<Poll> :: Refuses(polls) <==> forall i :: 0 <= i < |polls| ==> polls[i].NoChange?
  {
    if list != [] {
      var last := |list| - 1;
      SignalsSent(sig, list[..last], visits, s);
      if s in StopSignals(sig, list[..last], visits) {
        var i :| 0 <= i < last && list[..last][i] == s.child && visits[i].killOk &&
          (s.sig == sig || (s.sig == SIGKILL && Refuses(visits[i].polls)));
        assert list[i] == s.child;
      }
      forall i | 0 <= i < last && list[i] == s.child && visits[i].killOk &&
          (s.sig == sig || (s.sig == SIGKILL && Refuses(visits[i].polls)))
        ensures s in StopSignals(sig, list[..last], visits)
      {
        assert list[..last][i] == s.child;
      }
    }
  }

  // ----- The manager

  class Manager {
    var gwlist: Option<seq<Child>>
    var locked: bool
    var errors: nat
    const queue: SharedQueue
    var signals: seq<Sent>
    ghost var destroyed: seq<Child>

    ghost function List(): seq<Child>
      reads this
    {
      if gwlist.Some? then gwlist.value else []
    }

    ghost predicate Ready()
      reads this, queue
    {
      !locked && errors < UINT32 && queue.Valid()
    }

    constructor (q: SharedQueue)
      requires q.Valid()
      ensures Ready() && gwlist == None && errors == 0 && signals == [] && destroyed == [] && queue == q
    {
      gwlist, locked, errors, signals, queue, destroyed := None, false, 0, [], q, [];
    }

    /** Fails if there is a list already. */
    method Init() returns (ok: bool)
      modifies this`gwlist
      ensures ok <==> old(gwlist).None?
      ensures gwlist == if ok then Some([]) else old(gwlist)
    {
      if gwlist.Some? {
        return false;
      }
      gwlist := Some([]);
      return true;
    }

    method Append(c: Child) returns (ok: bool)
      requires Ready()
      modifies this`gwlist
      ensures ok <==> old(gwlist).Some?
      ensures gwlist == if ok then Some(old(List()) + [c]) else None
    {
      if gwlist.None? {
        return false;
      }
      gwlist := Some(gwlist.value + [c]);
      return true;
    }

    /**
      Resets the counter, makes a list and registers one child after another; `ready` says of each
      whether its queue could be opened.  `forked` children are all listed, but for a last one that is
      killed.  A failure leaves the list behind.
    */
    method Clone(setupOk: bool, children: seq<Child>, ready: seq<bool>) returns (ok: bool, forked: nat)
      requires Ready() && |ready| == |children|
      modifies this`gwlist, this`errors, this`signals
      ensures Ready() && errors == 0 && forked <= |children|
      ensures ok <==> old(gwlist).None? && setupOk && forall i :: 0 <= i < |ready| ==> ready[i]
      ensures ok ==> forked == |children| && gwlist == Some(children) && signals == old(signals)
      ensures old(gwlist).Some? ==> gwlist == old(gwlist)
      ensures forked == 0 ==> signals == old(signals) && (old(gwlist).None? ==> gwlist == Some([]))
      ensures !ok && forked > 0 ==>
        && gwlist == Some(children[..forked - 1]) && signals == old(signals) + [Sent(children[forked - 1], SIGKILL)]
    {
      errors, forked := 0, 0;
      ok := Init();
      if !ok || !setupOk {
        return false, 0;
      }
      while forked < |children|
        invariant Ready() && errors == 0 && forked <= |children| && gwlist == Some(children[..forked])
        invariant signals == old(signals) && forall i :: 0 <= i < forked ==> ready[i]
      {
        var child := children[forked];
        forked := forked + 1;
        if !ready[forked - 1] {
          signals := signals + [Sent(child, SIGKILL)];
          return false, forked;
        }
        ok := Append(child);
        assert children[..forked - 1] + [child] == children[..forked];
      }
      assert children[..forked] == children;
      ok := true;
    }

    /** Destroys every entry and the list itself. */
    method Clean()
      requires !locked
      modifies this`gwlist, this`destroyed
      ensures gwlist == None && destroyed == old(destroyed) + old(List())
    {
      ghost var list := List();
      if gwlist.Some? {
        var node := 0;
        while node < |gwlist.value|
          invariant gwlist == Some(list) && node <= |list| && destroyed == old(destroyed) + list[..node]
        {
          destroyed := destroyed + [gwlist.value[node]];
          node := node + 1;
        }
      }
      gwlist := None;
    }

    /** Counts an abnormal end, then unlinks and destroys the entry. */
    method Remove(node: nat, p: Poll)
      requires gwlist.Some? && node < |gwlist.value| && errors < UINT32
      modifies this`gwlist, this`errors, this`destroyed
      ensures gwlist == Some(old(List())[..node] + old(List())[node + 1..])
      ensures destroyed == old(destroyed) + [old(List())[node]]
      ensures errors == Wrap(old(errors) + BadCount(p))
      ensures (p.Signaled? || p.Stopped?) && p.sig != 2 ==> errors == (old(errors) + 1) % 0x1_0000_0000
      ensures p.NoChange? || p.Exited? || p.WaitFailed? || p.sig == 2 ==> errors == old(errors)
    {
      if Bad(p) {
        errors := Wrap(errors + 1);
      }
      destroyed := destroyed + [gwlist.value[node]];
      gwlist := Some(gwlist.value[..node] + gwlist.value[node + 1..]);
    }

    /** Drains the queue, then handles the child if its state is unchanged and removes its entry otherwise. */
    method VisitNode(h: Handler, v: Visit, node: nat) returns (ending: Ending)
      requires gwlist.Some? && node < |gwlist.value| && errors < UINT32 && queue.Valid()
      modifies this`gwlist, this`errors, this`destroyed, queue
      ensures queue.Valid()
      ensures v.poll.NoChange? ==>
        && ending == Handle(h, v.accepts)
        && (ending == Misconfigured <==> (h.prints && !h.canPrint) || (h.evals && !h.canEval))
        && (ending == Refused <==> h.evals && h.canEval && (h.prints ==> h.canPrint) && !v.accepts)
        && gwlist == old(gwlist) && errors == old(errors) && destroyed == old(destroyed)
      ensures !v.poll.NoChange? ==>
        && ending == Completed
        && gwlist == Some(old(List())[..node] + old(List())[node + 1..])
        && destroyed == old(destroyed) + [old(List())[node]] && errors == Wrap(old(errors) + BadCount(v.poll))
    {
      queue.Drain(gwlist.value[node], v.gaps);
      if v.poll.NoChange? {
        if h.prints && !h.canPrint {
          return Misconfigured;
        }
        if h.evals {
          if !h.canEval {
            return Misconfigured;
          }
          if !v.accepts {
            return Refused;
          }
        }
      } else {
        Remove(node, v.poll);
      }
      return Completed;
    }

    /** Walks the list, removing while it goes. */
    method WalkList(h: Handler, visits: seq<Visit>) returns (ending: Ending)
      requires gwlist.Some? && |visits| >= |gwlist.value| && errors < UINT32 && queue.Valid()
      modifies this`gwlist, this`errors, this`destroyed, queue
      ensures queue.Valid()
      ensures var w := Watch(h, old(gwlist.value), visits);
        && ending == w.ending && gwlist == Some(w.kept)
        && destroyed == old(destroyed) + w.removed && errors == Wrap(old(errors) + w.bad)
    {
      hide Conserved, Wrap, WellFormed, Bad, BadCount, Passed, Kept, Removed, BadIn, Watch;
      ghost var list := gwlist.value;
      var node, i := 0, 0;
      Wraps(errors, 0);
      PassBegins(list, visits);
      while node < |gwlist.value|
        invariant i <= |list| && queue.Valid() && forall j :: 0 <= j < i ==> !Ends(h, visits[j])
        invariant gwlist.Some? && gwlist.value == Kept(list, visits, i) + list[i..] && node == |Kept(list, visits, i)|
        invariant errors == Wrap(old(errors) + BadIn(visits, i))
        invariant destroyed == old(destroyed) + Removed(list, visits, i)
        decreases |list| - i
      {
        Wraps(old(errors) + BadIn(visits, i), BadCount(visits[i].poll));
        RemovedFrom(Kept(list, visits, i), list, i);
        PassNext(list, visits, i);
        ending := VisitNode(h, visits[i], node);
        if ending != Completed {
          PassStops(h, list, visits, i);
          return;
        }
        if visits[i].poll.NoChange? {
          node := node + 1;
        }
        i := i + 1;
      }
      PassStops(h, list, visits, i);
      ending := Completed;
    }

    /**
      One pass under the lock.  The lock is released unless the handler asks for a function it does not
      come with, and the pass meets a child whose state has not changed.
    */
    method Watchdog(h: Handler, visits: seq<Visit>) returns (ok: bool)
      requires Ready() && |visits| >= |List()|
      modifies this`gwlist, this`locked, this`errors, this`destroyed, queue
      ensures queue.Valid() && errors < UINT32
      ensures var w := Watch(h, old(List()), visits);
        && (ok <==> w.ending == Completed) && (locked <==> MeetsFlaw(h, old(List()), visits))
        && gwlist == (if old(gwlist).Some? then Some(w.kept) else None)
        && destroyed == old(destroyed) + w.removed
        && errors == Wrap(old(errors) + w.bad)
    {
      MisconfiguredExactly(h, List(), visits);
      locked := true;
      var ending := Completed;
      if gwlist.Some? {
        ending := WalkList(h, visits);
      }
      locked := ending == Misconfigured;
      ok := ending == Completed;
    }

    /** What the passes so far have made of the list and of the counter. */
    ghost predicate After(w: Watched, errors0: nat, destroyed0: seq<Child>)
      reads this
    {
      gwlist == Some(w.kept) && errors == Wrap(errors0 + w.bad) && destroyed == destroyed0 + w.removed
    }

    /** One pass more. */
    method WatchdogNext(h: Handler, passes: seq<seq<Visit>>, k: nat,
                        ghost list: seq<Child>, ghost errors0: nat, ghost destroyed0: seq<Child>)
      returns (ok: bool)
      requires Ready() && k < |passes| && forall i :: 0 <= i < |passes| ==> |passes[i]| >= |list|
      requires var w := WatchAll(h, list, passes, k);
        After(w, errors0, destroyed0) && w.kept != [] && w.ending == Completed
      modifies this`gwlist, this`locked, this`errors, this`destroyed, queue
      ensures errors < UINT32 && queue.Valid() && After(WatchAll(h, list, passes, k + 1), errors0, destroyed0)
      ensures var ending := WatchAll(h, list, passes, k + 1).ending;
        (ok <==> ending == Completed) && (locked <==> ending == Misconfigured)
    {
      hide Conserved, Wrap, Watch, WatchAll, WellFormed, MeetsFlaw;
      MisconfiguredExactly(h, List(), passes[k]);
      ghost var w := WatchAll(h, list, passes, k);
      AllNext(h, list, passes, k);
      Wraps(errors0 + w.bad, Watch(h, w.kept, passes[k]).bad);
      Gathered(destroyed0, w.removed, destroyed, Watch(h, w.kept, passes[k]).removed);
      ok := Watchdog(h, passes[k]);
    }

    /**
      Passes until the list is gone or empty, or a pass fails; then the verdict.  `passes` is what each
      pass would meet; `finished` unless they run out first.  A flawed handler leaves the lock held
      exactly when the first pass meets an unchanged child.
    */
    method WatchdogLoop(h: Handler, passes: seq<seq<Visit>>) returns (finished: bool, failed: bool)
      requires Ready() && forall k :: 0 <= k < |passes| ==> |passes[k]| >= |List()|
      modifies this`gwlist, this`locked, this`errors, this`destroyed, queue
      ensures errors < UINT32 && queue.Valid()
      ensures locked <==> |passes| > 0 && MeetsFlaw(h, old(List()), passes[0])
      ensures old(gwlist).None? ==>
        gwlist.None? && finished && errors == old(errors) && destroyed == old(destroyed)
      ensures var w := WatchAll(h, old(List()), passes, |passes|);
        && (old(gwlist).Some? ==> After(w, old(errors), old(destroyed)))
        && (finished <==> w.kept == [] || w.ending != Completed)
        && (failed <==> errors > 0 || w.ending != Completed)
    {
      hide Conserved, Wrap, WatchAll, WellFormed, After, MeetsFlaw;
      ghost var list := List();
      var ok, k := true, 0;
      AllBegin(h, list, passes);
      if gwlist.Some? {
        Untouched(list);
      }
      var count := if gwlist.Some? then |gwlist.value| else 0;
      while gwlist.Some? && count > 0 && k < |passes|
        invariant Ready() && k <= |passes| && count == |List()| && gwlist.Some? == old(gwlist).Some?
        invariant gwlist.None? ==> k == 0 && errors == old(errors) && destroyed == old(destroyed)
        invariant ok && WatchAll(h, list, passes, k).ending == Completed
        invariant gwlist.Some? ==> After(WatchAll(h, list, passes, k), old(errors), old(destroyed))
        decreases |passes| - k
      {
        Showing(WatchAll(h, list, passes, k), old(errors), old(destroyed));
        ok := WatchdogNext(h, passes, k, list, old(errors), old(destroyed));
        k := k + 1;
        Showing(WatchAll(h, list, passes, k), old(errors), old(destroyed));
        if !ok {
          break;
        }
        count := if gwlist.Some? then |gwlist.value| else 0;
      }
      if gwlist.Some? {
        Showing(WatchAll(h, list, passes, k), old(errors), old(destroyed));
      }
      AllDone(h, list, passes, k);
      FlawShowsAtOnce(h, list, passes, |passes|);
      finished := !ok || count == 0;
      failed := !ok || errors > 0;
    }

    lemma Showing(w: Watched, errors0: nat, destroyed0: seq<Child>)
      requires After(w, errors0, destroyed0)
      ensures gwlist == Some(w.kept)
    {
    }

    lemma Untouched(list: seq<Child>)
      requires gwlist == Some(list) && errors < UINT32
      ensures After(Watched(list, [], 0, Completed), errors, destroyed)
    {
    }

    // ----- Stopping

    /** Polls a signalled child until its state changes, at most ten times; then it is killed. */
    method PollStopping(child: Child, polls: seq<Poll>) returns (polled: nat, last: Poll)
      requires |polls| == RETRIES
      modifies this`signals
      ensures 1 <= polled <= 10 && last == polls[polled - 1]
      ensures forall i :: 0 <= i < polled - 1 ==> polls[i].NoChange?
      ensures last.NoChange? ==> polled == 10
      ensures signals == old(signals) + if Refuses(polls) then [Sent(child, 9)] else []
    {
      var retry := RETRIES;
      polled, last := 0, NoChange;
      while last.NoChange? && retry > 0
        invariant 0 <= retry == RETRIES - polled + (if last.NoChange? then 0 else 1)
        invariant polled <= RETRIES && (polled > 0 ==> last == polls[polled - 1]) && (polled == 0 ==> last.NoChange?)
        invariant forall i :: 0 <= i < polled - 1 ==> polls[i].NoChange?
        invariant signals == old(signals) + if polled == RETRIES && last.NoChange? then [Sent(child, SIGKILL)] else []
        decreases RETRIES - polled
      {
        last := polls[polled];
        polled := polled + 1;
        if !last.NoChange? {
          break;
        }
        retry := retry - 1;
        if retry == 0 {
          signals := signals + [Sent(child, SIGKILL)];
        }
      }
    }

    /** One child of the stop pass. */
    method StopChild(sig: nat, child: Child, v: StopVisit) returns (polled: nat)
      requires |v.polls| == RETRIES && queue.Valid()
      modifies this`signals, queue
      ensures queue.Valid() && polled <= RETRIES
      ensures v.killOk ==> queue.fifo == []
      ensures signals == old(signals)
        + (if v.killOk then [Sent(child, sig)] else [])
        + (if v.killOk && Refuses(v.polls) then [Sent(child, SIGKILL)] else [])
    {
      if !v.killOk {
        return 0;
      }
      signals := signals + [Sent(child, sig)];
      var last;
      polled, last := PollStopping(child, v.polls);
      queue.Drain(child, v.gaps);
    }

    /**
      Signals every listed child, polls it, drains the queue, and finally destroys the list.  `late` is
      what the children still alive write after the last drain.
    */
    method DoStop(sig: nat, visits: seq<StopVisit>, late: seq<Snapshot>) returns (polled: nat)
      requires Ready() && Scripted(List(), visits)
      requires (forall i :: 0 <= i < |List()| ==> Collected(visits[i].polls)) ==> late == []
      modifies this`gwlist, this`locked, this`signals, this`destroyed, queue
      ensures Ready() && gwlist == None && destroyed == old(destroyed) + old(List())
      ensures polled <= 10 * |old(List())|
      ensures signals == old(signals) + StopSignals(sig, old(List()), visits)
      ensures old(List()) != [] && AllStopped(old(List()), visits) ==> queue.fifo == []
    {
      hide Conserved, Collected, Refuses, StopSignals;
      locked := true;
      ghost var list := List();
      polled := 0;
      StopSignalsNext(sig, list, visits);
      var node := 0;
      while gwlist.Some? && node < |gwlist.value|
        invariant locked && queue.Valid() && gwlist == old(gwlist) && destroyed == old(destroyed)
        invariant node <= |list| && polled <= RETRIES * node
        invariant signals == old(signals) + StopSignals(sig, list[..node], visits)
        invariant node > 0 && visits[node - 1].killOk ==> queue.fifo == []
      {
        var n := StopChild(sig, gwlist.value[node], visits[node]);
        polled := polled + n;
        node := node + 1;
      }
      assert list[..node] == list;
      locked := false;
      queue.WriteAll(late);
      Clean();
    }

    method Stop(visits: seq<StopVisit>, late: seq<Snapshot>) returns (polled: nat)
      requires Ready() && Scripted(List(), visits)
      requires (forall i :: 0 <= i < |List()| ==> Collected(visits[i].polls)) ==> late == []
      modifies this`gwlist, this`locked, this`signals, this`destroyed, queue
      ensures Ready() && gwlist == None && errors == old(errors) && destroyed == old(destroyed) + old(List())
      ensures polled <= 10 * |old(List())|
      ensures signals == old(signals) + StopSignals(2, old(List()), visits)
      ensures old(List()) != [] && AllStopped(old(List()), visits) ==> queue.fifo == []
    {
      polled := DoStop(SIGINT, visits, late);
    }

    method Abort(visits: seq<StopVisit>, late: seq<Snapshot>) returns (polled: nat)
      requires Ready() && Scripted(List(), visits)
      requires (forall i :: 0 <= i < |List()| ==> Collected(visits[i].polls)) ==> late == []
      modifies this`gwlist, this`locked, this`signals, this`destroyed, this`errors, queue
      ensures Ready() && gwlist == None && errors == Wrap(old(errors) + 1)
      ensures destroyed == old(destroyed) + old(List()) && polled <= 10 * |old(List())|
      ensures signals == old(signals) + StopSignals(15, old(List()), visits)
      ensures old(List()) != [] && AllStopped(old(List()), visits) ==> queue.fifo == []
    {
      errors := Wrap(errors + 1);
      polled := DoStop(SIGTERM, visits, late);
    }
  }

  lemma StopSignalsNext(sig: nat, list: seq<Child>, visits: seq<StopVisit>)
    requires |visits| >= |list|
    ensures StopSignals(sig, list[..0], visits) == []
    ensures forall n {:trigger list[n]} :: 0 <= n < |list| ==>
      StopSignals(sig, list[..n + 1], visits) == StopSignals(sig, list[..n], visits)
        + (if visits[n].killOk then [Sent(list[n], sig)] else [])
        + (if visits[n].killOk && Refuses(visits[n].polls) then [Sent(list[n], SIGKILL)] else [])
  {
    forall n | 0 <= n < |list|
      ensures StopSignals(sig, list[..n + 1], visits) == StopSignals(sig, list[..n], visits)
        + (if visits[n].killOk then [Sent(list[n], sig)] else [])
        + (if visits[n].killOk && Refuses(visits[n].polls) then [Sent(list[n], SIGKILL)] else [])
    {
      assert list[..n + 1][..n] == list[..n];
    }
  }
}
