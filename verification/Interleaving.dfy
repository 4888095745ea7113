/**
  The worker manager under two threads: the main thread clones, watches and finally stops; the player
  thread stops and aborts.  Every critical section, and every unlocked access, is one step.
*/
module Interleaving {
  import opened Common
  import opened WorkerManager

  /** Where the main thread is: what it does next. */
  datatype Main = MIdle | MReset | MSetup | MCloning(pending: Option<Child>) | MCounting | MTesting(count: nat)
                | MWatching | MChecking | MStopping | MCleaning

  datatype Player = PIdle | PAborting | PStopping | PCleaning

  /**
    The shared list and error counter, the two threads, and what happened: the children forked, the
    entries registered and destroyed, the children dead, sent a signal, reported stopped, or `lost`
    because waiting for them or signalling them failed.  `late` are the children registered while the
    player thread was between its stop pass and the destruction of the list.  `forks`, `bad`, `aborts`
    and `refused` are what was done and seen since the counter was last reset.
  */
  datatype State = State(list: Option<seq<Child>>, errors: nat, main: Main, player: Player,
                         forked: set<Child>, registered: set<Child>, destroyed: multiset<Child>,
                         dead: set<Child>, signalled: set<Child>, stopped: set<Child>, lost: set<Child>,
                         late: set<Child>, forks: nat, bad: nat, aborts: nat, refused: bool)

  /** How many children one clone can ask for: the count is 16 bits wide. */
  const MAX_CHILDREN := 0xFFFF

  const START := State(None, 0, MIdle, PIdle, {}, {}, multiset{}, {}, {}, {}, {}, {}, 0, 0, 0, false)

  datatype Step =
    // main thread
    | Reset | InitList | SetupFails | SetupDone | Fork(c: Child) | InfoFails | Append | ForkingDone | CountList | Test
    | Pass(h: Handler, visits: seq<Visit>) | Check | MainStop(stops: seq<StopVisit>) | MainClean
    // player thread
    | Request(abort: bool) | CountAbort | PlayerStop(stops: seq<StopVisit>) | PlayerClean
    // the children
    | Die(c: Child)

  function Listed(s: State): seq<Child> {
    if s.list.Some? then s.list.value else []
  }

  function Pending(s: State): Option<Child> {
    if s.main.MCloning? then s.main.pending else None
  }

  predicate Enabled(s: State, step: Step) {
    match step
    case Reset => s.main.MIdle?
    case InitList => s.main.MReset?
    case SetupFails => s.main.MSetup?
    case SetupDone => s.main.MSetup?
    case Fork(c) => s.main == MCloning(None) && c !in s.forked && s.forks < MAX_CHILDREN
    case InfoFails => Pending(s).Some?
    case Append => Pending(s).Some?
    case ForkingDone => s.main == MCloning(None)
    case CountList => s.main.MCounting?
    case Test => s.main.MTesting?
    case Pass(h, visits) => s.main.MWatching? && WellFormed(h) && |visits| >= |Listed(s)|
    case Check => s.main.MChecking?
    case MainStop(stops) => s.main.MStopping? && Scripted(Listed(s), stops)
    case MainClean => s.main.MCleaning?
    case Request(_) => s.player.PIdle?
    case CountAbort => s.player.PAborting?
    case PlayerStop(stops) => s.player.PStopping? && Scripted(Listed(s), stops)
    case PlayerClean => s.player.PCleaning?
    case Die(c) => c in s.forked
  }

  /** The children of the first `n` entries whose poll is of the given kind. */
  function Polled(list: seq<Child>, visits: seq<Visit>, n: nat, kind: Poll -> bool): set<Child>
    requires n <= |list| <= |visits|
  {
    set i | 0 <= i < n && kind(visits[i].poll) :: list[i]
  }

  function AfterPass(s: State, h: Handler, visits: seq<Visit>): State
    requires |visits| >= |Listed(s)|
  {
    var list := Listed(s);
    var n := Passed(h, list, visits, 0);
    var w := Watch(h, list, visits);
    s.(list := if s.list.Some? then Some(w.kept) else None,
       destroyed := s.destroyed + multiset(w.removed),
       errors := Wrap(s.errors + w.bad), bad := s.bad + w.bad, refused := s.refused || w.ending == Refused,
       dead := s.dead + Polled(list, visits, n, p => Reaped(p)),
       stopped := s.stopped + Polled(list, visits, n, (p: Poll) => p.Stopped?),
       lost := s.lost + Polled(list, visits, n, (p: Poll) => p.WaitFailed?),
       main := if w.ending == Completed then MCounting else MChecking)
  }

  function AfterStop(s: State, stops: seq<StopVisit>): State
    requires |stops| >= |Listed(s)|
  {
    var list := Listed(s);
    s.(signalled := s.signalled + (set i | 0 <= i < |list| && stops[i].killOk :: list[i]),
       lost := s.lost + (set i | 0 <= i < |list| && !stops[i].killOk :: list[i]),
       dead := s.dead + (set i | 0 <= i < |list| && stops[i].killOk && Collected(stops[i].polls) :: list[i]))
  }

  function AfterClean(s: State): State {
    s.(list := None, destroyed := s.destroyed + multiset(Listed(s)))
  }

  function Apply(s: State, step: Step): State {
    if !Enabled(s, step) then s else
    match step
    case Reset => s.(errors := 0, forks := 0, bad := 0, aborts := 0, refused := false, main := MReset)
    case InitList => if s.list.Some? then s.(main := MIdle) else s.(list := Some([]), main := MSetup)
    case SetupFails => s.(main := MIdle)
    case SetupDone => s.(main := MCloning(None))
    case Fork(c) => s.(forked := s.forked + {c}, forks := s.forks + 1, main := MCloning(Some(c)))
    case InfoFails => s.(signalled := s.signalled + {s.main.pending.value}, main := MIdle)
    case Append =>
      var c := s.main.pending.value;
      if s.list.None? then s.(signalled := s.signalled + {c}, main := MIdle)
      else s.(list := Some(s.list.value + [c]), registered := s.registered + {c}, main := MCloning(None),
              late := if s.player.PCleaning? then s.late + {c} else s.late)
    case ForkingDone => s.(main := MCounting)
    case CountList => s.(main := MTesting(|Listed(s)|))
    case Test => s.(main := if s.list.Some? && s.main.count > 0 then MWatching else MChecking)
    case Pass(h, visits) => AfterPass(s, h, visits)
    case Check => s.(main := MStopping)
    case MainStop(stops) => AfterStop(s, stops).(main := MCleaning)
    case MainClean => AfterClean(s).(main := MIdle)
    case Request(abort) => if s.list.None? then s else s.(player := if abort then PAborting else PStopping)
    case CountAbort => s.(errors := Wrap(s.errors + 1), aborts := s.aborts + 1, player := PStopping)
    case PlayerStop(stops) => AfterStop(s, stops).(player := PCleaning)
    case PlayerClean => AfterClean(s).(player := PIdle)
    case Die(c) => s.(dead := s.dead + {c})
  }

  function Run(steps: seq<Step>): State {
    if steps == [] then START else Apply(Run(steps[..|steps| - 1]), steps[|steps| - 1])
  }

  // ----- The invariant

  /** Every registered entry is either in the list or destroyed, once. */
  ghost predicate Entries(s: State) {
    && s.destroyed + multiset(Listed(s)) == multiset(s.registered)
    && s.registered <= s.forked
    && (Pending(s).Some? ==> Pending(s).value in s.forked && Pending(s).value !in s.registered)
  }

  /** Something has happened to the child that makes it no orphan. */
  predicate Settled(s: State, c: Child) {
    c in s.dead || c in s.signalled || c in s.stopped || c in s.lost
  }

  /** A forked child that is alive, was never signalled, and that nothing refers to. */
  predicate Orphan(s: State, c: Child) {
    c in s.forked && !Settled(s, c) && c !in Listed(s) && Pending(s) != Some(c)
  }

  ghost predicate Accounts(s: State) {
    && (forall c :: Orphan(s, c) ==> c in s.late)
    && (s.player.PCleaning? ==> forall c :: c in Listed(s) ==> Settled(s, c) || c in s.late)
    && (s.main.MCleaning? ==> forall c :: c in Listed(s) ==> Settled(s, c))
  }

  ghost predicate Counts(s: State) {
    s.errors == Wrap(s.bad + s.aborts)
  }

  /**
    What can still be counted: an abort needs a list, which only a clone makes; an error a listed child,
    which only a fork makes.
  */
  ghost predicate Bounded(s: State) {
    && s.aborts + One(s.player.PAborting?) + One(s.player.PIdle? && s.list.Some?) + One(s.main.MReset?) <= 2
    && s.bad <= s.forks <= MAX_CHILDREN
    && (s.main.MReset? ==> s.bad == 0)
    && (!s.main.MIdle? && !s.main.MReset? ==> s.bad + |Listed(s)| + One(Pending(s).Some?) <= s.forks)
  }

  function One(b: bool): nat { if b then 1 else 0 }

  lemma PassKeepsEntries(s: State, h: Handler, visits: seq<Visit>)
    requires Entries(s) && |visits| >= |Listed(s)|
    ensures var s' := AfterPass(s, h, visits);
      s'.destroyed + multiset(Listed(s')) == multiset(s'.registered)
  {
    hide Watch, Passed, Polled;
    WatchPartitions(h, Listed(s), visits);
  }

  lemma AppendKeepsEntries(s: State)
    requires Entries(s) && Pending(s).Some?
    ensures Entries(Apply(s, Append))
  {
    var c := s.main.pending.value;
    assert multiset(s.registered + {c}) == multiset(s.registered) + multiset{c};
  }

  lemma CleanKeepsEntries(s: State)
    requires Entries(s)
    ensures Entries(AfterClean(s)) && AfterClean(s).destroyed == multiset(s.registered)
  {
  }

  lemma EntriesKept(s: State, step: Step)
    requires Entries(s)
    ensures Entries(Apply(s, step))
  {
    hide AfterPass, AfterStop, AfterClean, Collected;
    if Enabled(s, step) {
      match step
      case Pass(h, visits) => PassKeepsEntries(s, h, visits); PassFrame(s, h, visits);
      case Append => AppendKeepsEntries(s);
      case MainClean => CleanKeepsEntries(s); CleanFrame(s);
      case PlayerClean => CleanKeepsEntries(s); CleanFrame(s);
      case MainStop(stops) => StopFrame(s, stops);
      case PlayerStop(stops) => StopFrame(s, stops);
      case _ => assert Listed(Apply(s, step)) == Listed(s);
    }
  }

  /** What a pass leaves alone. */
  lemma PassFrame(s: State, h: Handler, visits: seq<Visit>)
    requires |visits| >= |Listed(s)|
    ensures var s' := AfterPass(s, h, visits);
      && s'.forked == s.forked && s'.registered == s.registered && s'.late == s.late && s'.player == s.player
      && s'.signalled == s.signalled && s'.dead >= s.dead && s'.stopped >= s.stopped && s'.lost >= s.lost
      && (s'.main.MCounting? || s'.main.MChecking?)
  {
    hide Watch, Passed, Polled;
  }

  lemma {:induction false} UnchangedIsKept(list: seq<Child>, visits: seq<Visit>, n: nat, i: nat)
    requires i < n <= |list| <= |visits| && visits[i].poll.NoChange?
    ensures list[i] in Kept(list, visits, n)
  {
    if i < n - 1 {
      UnchangedIsKept(list, visits, n - 1, i);
    }
  }

  /** Whoever leaves the list in a pass has died, was reported stopped, or could not be waited for. */
  lemma PassSettles(s: State, h: Handler, visits: seq<Visit>, c: Child)
    requires |visits| >= |Listed(s)| && c in Listed(s)
    ensures var s' := AfterPass(s, h, visits); c in Listed(s') || Settled(s', c)
  {
    var list := Listed(s);
    var n := Passed(h, list, visits, 0);
    var i :| 0 <= i < |list| && list[i] == c;
    if i >= n {
      assert c == list[n..][i - n];
    } else if visits[i].poll.NoChange? {
      UnchangedIsKept(list, visits, n, i);
    } else {
      assert Reaped(visits[i].poll) || visits[i].poll.Stopped? || visits[i].poll.WaitFailed?;
    }
  }

  /** A pass only ever shortens the list. */
  lemma PassShrinks(s: State, h: Handler, visits: seq<Visit>, c: Child)
    requires |visits| >= |Listed(s)| && c in Listed(AfterPass(s, h, visits))
    ensures c in Listed(s)
  {
    WatchPartitions(h, Listed(s), visits);
    assert c in multiset(Watch(h, Listed(s), visits).kept);
    assert c in multiset(Listed(s));
  }

  lemma StopSettles(s: State, stops: seq<StopVisit>, c: Child)
    requires |stops| >= |Listed(s)| && c in Listed(s)
    ensures Settled(AfterStop(s, stops), c)
  {
    var i :| 0 <= i < |Listed(s)| && Listed(s)[i] == c;
    assert stops[i].killOk || !stops[i].killOk;
  }

  lemma PassKeepsAccounts(s: State, h: Handler, visits: seq<Visit>)
    requires Accounts(s) && s.main.MWatching? && |visits| >= |Listed(s)|
    ensures Accounts(AfterPass(s, h, visits))
  {
    hide AfterPass;
    var s' := AfterPass(s, h, visits);
    PassFrame(s, h, visits);
    forall c | c in Listed(s) ensures c in Listed(s') || Settled(s', c) { PassSettles(s, h, visits, c); }
    forall c | c in Listed(s') ensures c in Listed(s) { PassShrinks(s, h, visits, c); }
    forall c | Orphan(s', c) ensures c in s'.late {
      assert Orphan(s, c);
    }
  }

  lemma StopKeepsAccounts(s: State, stops: seq<StopVisit>)
    requires Accounts(s) && |stops| >= |Listed(s)|
    ensures Accounts(AfterStop(s, stops)) && forall c :: c in Listed(s) ==> Settled(AfterStop(s, stops), c)
  {
    hide Collected;
    forall c | c in Listed(s) ensures Settled(AfterStop(s, stops), c) { StopSettles(s, stops, c); }
    forall c | Orphan(AfterStop(s, stops), c) ensures c in s.late {
      assert Orphan(s, c);
    }
  }

  lemma CleanKeepsAccounts(s: State)
    requires Accounts(s) && (s.player.PCleaning? || s.main.MCleaning?)
    ensures Accounts(AfterClean(s))
  {
    forall c | Orphan(AfterClean(s), c) ensures c in s.late {
      assert Orphan(s, c) || c in Listed(s);
    }
  }

  lemma AppendKeepsAccounts(s: State)
    requires Accounts(s) && Pending(s).Some?
    ensures Accounts(Apply(s, Append)) && Accounts(Apply(s, InfoFails))
  {
    var c, s' := s.main.pending.value, Apply(s, Append);
    if s.list.Some? {
      assert s'.list.value == s.list.value + [c];
      assert forall x :: x in Listed(s') <==> x in Listed(s) || x == c;
    }
    forall x | Orphan(s', x) ensures x in s'.late {
      assert Orphan(s, x);
    }
    forall x | Orphan(Apply(s, InfoFails), x) ensures x in s.late {
      assert Orphan(s, x);
    }
  }

  lemma AccountsKept(s: State, step: Step)
    requires Accounts(s)
    ensures Accounts(Apply(s, step))
  {
    hide AfterPass, AfterStop, AfterClean, Collected;
    if Enabled(s, step) {
      match step
      case Pass(h, visits) => PassKeepsAccounts(s, h, visits);
      case MainStop(stops) => StopKeepsAccounts(s, stops); StopFrame(s, stops);
      case PlayerStop(stops) => StopKeepsAccounts(s, stops); StopFrame(s, stops);
      case MainClean => CleanKeepsAccounts(s); CleanFrame(s);
      case PlayerClean => CleanKeepsAccounts(s); CleanFrame(s);
      case Append => AppendKeepsAccounts(s);
      case InfoFails => AppendKeepsAccounts(s);
      case _ => QuietKeepsAccounts(s, step);
    }
  }

  lemma StopFrame(s: State, stops: seq<StopVisit>)
    requires |stops| >= |Listed(s)|
    ensures var s' := AfterStop(s, stops);
      && s'.list == s.list && s'.main == s.main && s'.player == s.player && s'.late == s.late
      && s'.forked == s.forked && s'.registered == s.registered && s'.destroyed == s.destroyed
  {
  }

  lemma CleanFrame(s: State)
    ensures var s' := AfterClean(s); s'.list.None? && s'.main == s.main && s'.player == s.player
  {
  }

  lemma QuietKeepsAccounts(s: State, step: Step)
    requires Accounts(s) && Enabled(s, step)
    requires !step.Pass? && !step.MainStop? && !step.PlayerStop? && !step.MainClean? && !step.PlayerClean?
    requires !step.Append? && !step.InfoFails?
    ensures Accounts(Apply(s, step))
  {
    var s' := Apply(s, step);
    assert Listed(s') == Listed(s);
    forall c | Orphan(s', c) ensures c in s'.late {
      assert Orphan(s, c);
    }
  }

  lemma CountsKept(s: State, step: Step)
    requires Counts(s)
    ensures Counts(Apply(s, step))
  {
    hide Watch, Passed, Polled, Scripted, Collected;
    if step.Pass? && Enabled(s, step) {
      Wraps(s.bad + s.aborts, Watch(step.h, Listed(s), step.visits).bad);
    }
    Wraps(s.bad + s.aborts, 1);
    Wraps(0, 0);
  }

  lemma BoundedKept(s: State, step: Step)
    requires Bounded(s)
    ensures Bounded(Apply(s, step))
  {
    hide Watch, Passed, Polled, Scripted, Collected;
    if step.Pass? && Enabled(s, step) {
      WatchBadLeave(step.h, Listed(s), step.visits);
    }
  }

  lemma {:induction false} AlwaysBounded(steps: seq<Step>)
    ensures Bounded(Run(steps))
  {
    hide Apply, Bounded;
    if steps == [] {
      assert Bounded(START) by { StartBounded(); }
    } else {
      AlwaysBounded(steps[..|steps| - 1]);
      BoundedKept(Run(steps[..|steps| - 1]), steps[|steps| - 1]);
    }
  }

  lemma StartBounded()
    ensures Bounded(START)
  {
  }

  lemma {:induction false} AlwaysInv(steps: seq<Step>)
    ensures Entries(Run(steps)) && Accounts(Run(steps)) && Counts(Run(steps))
  {
    hide Apply, Entries, Accounts, Counts;
    if steps == [] {
      assert Entries(START) && Accounts(START) && Counts(START) by { StartInv(); }
    } else {
      var s, step := Run(steps[..|steps| - 1]), steps[|steps| - 1];
      AlwaysInv(steps[..|steps| - 1]);
      EntriesKept(s, step);
      AccountsKept(s, step);
      CountsKept(s, step);
    }
  }

  lemma StartInv()
    ensures Entries(START) && Accounts(START) && Counts(START)
  {
  }

  // ----- Every entry is destroyed once, and only live entries are visited

  predicate Walks(step: Step) {
    step.Pass? || step.MainStop? || step.PlayerStop?
  }

  /** In any run, a registered entry is in the list or has been destroyed, exactly one of them and once. */
  lemma DestroyedOnce(steps: seq<Step>, c: Child)
    requires c in Run(steps).registered
    ensures var s := Run(steps);
      && s.destroyed[c] + multiset(Listed(s))[c] == 1
      && (s.list.None? ==> s.destroyed[c] == 1)
  {
    hide Run;
    AlwaysInv(steps);
    assert multiset(Run(steps).registered)[c] == 1;
  }

  /** No traversal, by whichever thread and after whatever interleaving, meets a destroyed entry. */
  lemma WalksLiveEntries(steps: seq<Step>, step: Step, c: Child)
    requires Walks(step) && Enabled(Run(steps), step) && c in Listed(Run(steps))
    ensures Run(steps).destroyed[c] == 0 && c in Run(steps).registered
  {
    hide Run;
    AlwaysInv(steps);
    var s := Run(steps);
    assert multiset(Listed(s))[c] >= 1;
    assert multiset(s.registered)[c] <= 1;
  }

  /** Whoever cleans, every entry registered so far is destroyed exactly once afterwards. */
  lemma CleanDestroysAll(steps: seq<Step>, step: Step, c: Child)
    requires (step.MainClean? || step.PlayerClean?) && Enabled(Run(steps), step) && c in Run(steps).registered
    ensures Run(steps + [step]).destroyed[c] == 1 && Run(steps + [step]).list.None?
  {
    assert (steps + [step])[..|steps|] == steps;
    assert Run(steps + [step]).registered == Run(steps).registered;
    DestroyedOnce(steps + [step], c);
  }

  // ----- Orphans

  /** If no child was registered in the window of a stop, there is never an orphan. */
  lemma NoOrphans(steps: seq<Step>, c: Child)
    requires Run(steps).late == {}
    ensures !Orphan(Run(steps), c)
  {
    hide Run;
    AlwaysInv(steps);
  }

  /**
    A child becomes an orphan exactly when the player thread destroys a list holding it although it was
    registered after that thread's stop pass, and nothing has happened to it since.
  */
  lemma OrphanedExactlyWhen(steps: seq<Step>, step: Step, c: Child)
    ensures var s, s' := Run(steps), Run(steps + [step]);
      !Orphan(s, c) && Orphan(s', c) <==>
        step.PlayerClean? && s.player.PCleaning? && c in Listed(s) && c in s.late && !Settled(s, c)
  {
    AlwaysInv(steps);
    assert (steps + [step])[..|steps|] == steps;
    OrphanStep(Run(steps), step, c);
  }

  lemma OrphanStep(s: State, step: Step, c: Child)
    requires Entries(s) && Accounts(s)
    ensures !Orphan(s, c) && Orphan(Apply(s, step), c) <==>
      step.PlayerClean? && s.player.PCleaning? && c in Listed(s) && c in s.late && !Settled(s, c)
  {
    hide AfterPass, AfterStop, Collected;
    if Enabled(s, step) {
      match step
      case Pass(h, visits) =>
        PassFrame(s, h, visits);
        if c in Listed(s) {
          PassSettles(s, h, visits, c);
        }
      case MainStop(stops) => StopFrame(s, stops); StopSets(s, stops, c);
      case PlayerStop(stops) => StopFrame(s, stops); StopSets(s, stops, c);
      case Append =>
        if s.list.Some? {
          var child := s.main.pending.value;
          assert forall x :: x in s.list.value + [child] <==> x in s.list.value || x == child;
        }
      case PlayerClean =>
        if c in Listed(s) {
          assert c in multiset(Listed(s)) && c in multiset(s.registered);
          assert c in s.forked;
          assert Pending(s) != Some(c);
        }
      case _ =>
    }
  }

  lemma StopSets(s: State, stops: seq<StopVisit>, c: Child)
    requires |stops| >= |Listed(s)|
    ensures Settled(s, c) ==> Settled(AfterStop(s, stops), c)
  {
  }

  lemma RunNext(steps: seq<Step>, step: Step)
    ensures Run(steps + [step]) == Apply(Run(steps), step)
  {
    assert (steps + [step])[..|steps|] == steps;
  }

  /** In every such state the child whose turn it is becomes an orphan. */
  lemma LateChildOrphaned(steps: seq<Step>, c: Child)
    requires var s := Run(steps); s.main == MCloning(Some(c)) && s.player.PCleaning? && s.list.Some? && !Settled(s, c)
    ensures Orphan(Run(steps + [Append] + [PlayerClean]), c)
  {
    hide Run, Apply;
    AlwaysInv(steps);
    RunNext(steps, Append);
    RunNext(steps + [Append], PlayerClean);
    LateState(Run(steps), c);
  }

  lemma LateState(s: State, c: Child)
    requires Entries(s) && s.main == MCloning(Some(c)) && s.player.PCleaning? && s.list.Some? && !Settled(s, c)
    ensures Orphan(Apply(Apply(s, Append), PlayerClean), c)
  {
    var s' := Apply(s, Append);
    assert s'.main == MCloning(None) && s'.player.PCleaning? && !Settled(s', c) && c in s'.forked;
  }

  /** And such states are reached: a stop arrives while the first child is being forked. */
  lemma OrphanExample() returns (steps: seq<Step>)
    ensures Orphan(Run(steps), 7)
  {
    hide Run, Apply, Settled;
    var s1 := START.(main := MSetup, list := Some([]));
    var s2 := s1.(main := MCloning(None));
    var s4 := s2.(main := MCloning(Some(7)), forked := {7}, forks := 1, player := PStopping);
    ExampleStart(s1, s2);
    ExampleStop(s2, s4);
    RunStart();
    var r1 := TwoSteps([], Reset, InitList, START, s1);
    RunNext(r1, SetupDone);
    var r4 := TwoSteps(r1 + [SetupDone], Fork(7), Request(false), s2, s4);
    RunNext(r4, PlayerStop([]));
    LateChildOrphaned(r4 + [PlayerStop([])], 7);
    steps := r4 + [PlayerStop([])] + [Append] + [PlayerClean];
  }

  lemma ExampleStart(s1: State, s2: State)
    requires s1 == START.(main := MSetup, list := Some([])) && s2 == s1.(main := MCloning(None))
    ensures Apply(Apply(START, Reset), InitList) == s1 && Apply(s1, SetupDone) == s2
  {
    hide AfterPass, AfterStop, AfterClean;
  }

  lemma ExampleStop(s2: State, s4: State)
    requires s2 == START.(main := MCloning(None), list := Some([]))
    requires s4 == s2.(main := MCloning(Some(7)), forked := {7}, forks := 1, player := PStopping)
    ensures Apply(Apply(s2, Fork(7)), Request(false)) == s4
    ensures Apply(s4, PlayerStop([])) == s4.(player := PCleaning)
    ensures !Settled(s4, 7) && !Settled(s4.(player := PCleaning), 7)
  {
    hide AfterPass, AfterStop, AfterClean;
    StopNobody(s4);
  }

  lemma TwoSteps(steps: seq<Step>, a: Step, b: Step, s: State, t: State) returns (r: seq<Step>)
    requires Run(steps) == s && Apply(Apply(s, a), b) == t
    ensures r == steps + [a] + [b] && Run(r) == t
  {
    hide Run, Apply;
    RunNext(steps, a);
    RunNext(steps + [a], b);
    r := steps + [a] + [b];
  }

  lemma RunStart()
    ensures Run([]) == START
  {
  }

  lemma StopNobody(s: State)
    requires Listed(s) == []
    ensures AfterStop(s, []) == s
  {
  }

  // ----- What becomes of a child

  /** An evaluation refuses the child, whose state is unchanged. */
  predicate Declines(h: Handler, v: Visit) {
    v.poll.NoChange? && h.evals && !v.accepts
  }

  /** A pass gets to entry `i`: no evaluation before it refuses. */
  predicate Reaches(h: Handler, visits: seq<Visit>, i: nat) {
    i <= |visits| && forall j :: 0 <= j < i ==> !Declines(h, visits[j])
  }

  /** The pass gets to the entry of the child and polls it with the given result. */
  ghost predicate Polls(s: State, step: Step, c: Child, kind: Poll -> bool) {
    && step.Pass? && |step.visits| >= |Listed(s)|
    && exists i ::
      && 0 <= i < |Listed(s)| && Listed(s)[i] == c
      && Reaches(step.h, step.visits, i) && kind(step.visits[i].poll)
  }

  /** The child is listed as a thread stops, and `kind` holds of what happens to it. */
  ghost predicate Stops(s: State, step: Step, c: Child, kind: StopVisit -> bool) {
    && (step.MainStop? || step.PlayerStop?) && |step.stops| >= |Listed(s)|
    && exists i :: 0 <= i < |Listed(s)| && Listed(s)[i] == c && kind(step.stops[i])
  }

  /** The signal was delivered, and after polls without change one showed that the child is gone. */
  ghost predicate Goes(v: StopVisit) {
    && v.killOk
    && exists i ::
      && 0 <= i < |v.polls| && (v.polls[i].Exited? || v.polls[i].Signaled?)
      && forall j :: 0 <= j < i ==> v.polls[j].NoChange?
  }

  datatype Fate = Forked | Registered | Late | Dead | Signalled | StoppedBy | Lost

  /** The state holds the child to have met the fate. */
  predicate Recorded(f: Fate, s: State, c: Child) {
    match f
    case Forked => c in s.forked
    case Registered => c in s.registered
    case Late => c in s.late
    case Dead => c in s.dead
    case Signalled => c in s.signalled
    case StoppedBy => c in s.stopped
    case Lost => c in s.lost
  }

  /** The step, taken in the state, brings the fate about. */
  ghost predicate Meets(f: Fate, s: State, step: Step, c: Child) {
    Enabled(s, step) &&
    match f
    case Forked => step == Fork(c)
    case Registered => step.Append? && s.main == MCloning(Some(c)) && s.list.Some?
    case Late => step.Append? && s.main == MCloning(Some(c)) && s.list.Some? && s.player.PCleaning?
    case Dead =>
      || step == Die(c) || Polls(s, step, c, (p: Poll) => p.Exited? || p.Signaled?)
      || Stops(s, step, c, v => Goes(v))
    case Signalled =>
      || Stops(s, step, c, (v: StopVisit) => v.killOk)
      || (s.main == MCloning(Some(c)) && (step.InfoFails? || (step.Append? && s.list.None?)))
    case StoppedBy => Polls(s, step, c, (p: Poll) => p.Stopped?)
    case Lost =>
      Polls(s, step, c, (p: Poll) => p.WaitFailed?) || Stops(s, step, c, (v: StopVisit) => !v.killOk)
  }

  lemma EndsWhen(h: Handler, v: Visit)
    requires WellFormed(h)
    ensures Ends(h, v) <==> Declines(h, v)
  {
  }

  /** A pass of a well-formed handler gets past exactly the entries that it reaches and does not refuse. */
  lemma PassedWhen(h: Handler, list: seq<Child>, visits: seq<Visit>, i: nat)
    requires WellFormed(h) && i < |list| <= |visits|
    ensures i < Passed(h, list, visits, 0) <==> Reaches(h, visits, i) && !Declines(h, visits[i])
  {
    hide WellFormed, Ends, Declines, Passed;
    var n := Passed(h, list, visits, 0);
    forall j | 0 <= j < |list| ensures Ends(h, visits[j]) <==> Declines(h, visits[j]) {
      EndsWhen(h, visits[j]);
    }
    if n <= i {
      assert Ends(h, visits[n]);
    }
  }

  lemma PolledWhen(s: State, h: Handler, visits: seq<Visit>, c: Child, kind: Poll -> bool)
    requires WellFormed(h) && |visits| >= |Listed(s)| && !kind(NoChange)
    ensures c in Polled(Listed(s), visits, Passed(h, Listed(s), visits, 0), kind)
       <==> Polls(s, Pass(h, visits), c, kind)
  {
    hide WellFormed, Passed, Reaches;
    var list := Listed(s);
    forall i | 0 <= i < |list|
      ensures i < Passed(h, list, visits, 0) <==> Reaches(h, visits, i) && !Declines(h, visits[i])
    {
      PassedWhen(h, list, visits, i);
    }
  }

  lemma PassFate(f: Fate, s: State, h: Handler, visits: seq<Visit>, c: Child)
    requires WellFormed(h) && |visits| >= |Listed(s)| && Enabled(s, Pass(h, visits))
    ensures Recorded(f, AfterPass(s, h, visits), c) <==> Recorded(f, s, c) || Meets(f, s, Pass(h, visits), c)
  {
    hide Passed, Watch, Polled, Polls, Enabled;
    PolledWhen(s, h, visits, c, p => Reaped(p));
    PolledWhen(s, h, visits, c, (p: Poll) => p.Exited? || p.Signaled?);
    PolledWhen(s, h, visits, c, (p: Poll) => p.Stopped?);
    PolledWhen(s, h, visits, c, (p: Poll) => p.WaitFailed?);
    SamePolls(s, Pass(h, visits), c);
  }

  lemma SamePolls(s: State, step: Step, c: Child)
    ensures Polls(s, step, c, p => Reaped(p)) <==> Polls(s, step, c, (p: Poll) => p.Exited? || p.Signaled?)
  {
    hide Reaches;
  }

  lemma StopFate(f: Fate, s: State, step: Step, c: Child)
    requires (step.MainStop? || step.PlayerStop?) && Enabled(s, step) && |step.stops| >= |Listed(s)|
    ensures Recorded(f, AfterStop(s, step.stops), c) <==> Recorded(f, s, c) || Meets(f, s, step, c)
  {
    hide Enabled;
  }

  lemma FateStep(f: Fate, s: State, step: Step, c: Child)
    ensures Recorded(f, Apply(s, step), c) <==> Recorded(f, s, c) || Meets(f, s, step, c)
  {
    hide AfterPass, AfterStop, AfterClean, Polls, Stops, Recorded, Meets;
    if !Enabled(s, step) {
      assert !Meets(f, s, step, c) by { OnlyEnabled(f, s, step, c); }
    } else if step.Pass? {
      PassFate(f, s, step.h, step.visits, c);
    } else if step.MainStop? || step.PlayerStop? {
      StopFate(f, s, step, c);
      SameRecords(f, AfterStop(s, step.stops), Apply(s, step), c);
    } else {
      QuietFate(f, s, step, c);
    }
  }

  lemma OnlyEnabled(f: Fate, s: State, step: Step, c: Child)
    requires !Enabled(s, step)
    ensures !Meets(f, s, step, c)
  {
    hide Enabled;
  }

  lemma SameRecords(f: Fate, s: State, t: State, c: Child)
    requires t == s.(main := t.main, player := t.player)
    ensures Recorded(f, t, c) <==> Recorded(f, s, c)
  {
  }

  lemma QuietFate(f: Fate, s: State, step: Step, c: Child)
    requires Enabled(s, step) && !step.Pass? && !step.MainStop? && !step.PlayerStop?
    ensures Recorded(f, Apply(s, step), c) <==> Recorded(f, s, c) || Meets(f, s, step, c)
  {
    hide AfterPass, AfterStop, Watch;
    NoPolls(s, step, c);
  }

  lemma NoPolls(s: State, step: Step, c: Child)
    ensures !step.Pass? ==> forall kind :: !Polls(s, step, c, kind)
    ensures !step.MainStop? && !step.PlayerStop? ==> forall kind :: !Stops(s, step, c, kind)
  {
  }

  /** The step at `k` brought the fate about. */
  ghost predicate MetAt(f: Fate, steps: seq<Step>, c: Child, k: nat) {
    k < |steps| && Meets(f, Run(steps[..k]), steps[k], c)
  }

  /** In any run, a child is recorded with a fate exactly when a step of the run brought it about. */
  lemma {:induction false} FateExact(f: Fate, steps: seq<Step>, c: Child)
    ensures Recorded(f, Run(steps), c) <==> exists k :: MetAt(f, steps, c, k)
  {
    hide Apply, Recorded, Meets;
    if steps == [] {
      assert !Recorded(f, START, c) by { FateStart(f, c); }
    } else {
      var most, step := steps[..|steps| - 1], steps[|steps| - 1];
      FateExact(f, most, c);
      FateStep(f, Run(most), step, c);
      forall k: nat | k < |most| ensures MetAt(f, steps, c, k) <==> MetAt(f, most, c, k) {
        assert steps[..k] == most[..k];
      }
      assert MetAt(f, steps, c, |most|) <==> Meets(f, Run(most), step, c);
    }
  }

  lemma FateStart(f: Fate, c: Child)
    ensures !Recorded(f, START, c)
  {
  }

  lemma PassLeaves(s: State, h: Handler, visits: seq<Visit>, c: Child)
    requires Entries(s) && Enabled(s, Pass(h, visits)) && c in Listed(s)
    ensures c in Listed(AfterPass(s, h, visits)) <==> !Polls(s, Pass(h, visits), c, (p: Poll) => !p.NoChange?)
  {
    hide Kept, Removed, BadIn, Passed, Reaches, Declines, WellFormed, Polled;
    var list := Listed(s);
    var n := Passed(h, list, visits, 0);
    var w := Watch(h, list, visits);
    WatchPartitions(h, list, visits);
    RemovedWhen(list, visits, n, c);
    forall i | 0 <= i < |list|
      ensures i < n <==> Reaches(h, visits, i) && !Declines(h, visits[i])
      ensures Declines(h, visits[i]) ==> visits[i].poll.NoChange?
    {
      PassedWhen(h, list, visits, i);
      DeclinesUnchanged(h, visits[i]);
    }
    assert multiset(Listed(s))[c] == 1 by {
      assert multiset(Listed(s))[c] >= 1 && multiset(s.registered)[c] <= 1;
    }
    assert multiset(w.kept)[c] + multiset(w.removed)[c] == 1;
    assert c in w.kept <==> multiset(w.kept)[c] > 0;
    assert c in w.removed <==> multiset(w.removed)[c] > 0;
  }

  lemma DeclinesUnchanged(h: Handler, v: Visit)
    ensures Declines(h, v) ==> v.poll.NoChange?
  {
  }

  /** In any run, a child leaves the list exactly when a pass finds it changed or the list is destroyed. */
  lemma LeavesExactly(steps: seq<Step>, step: Step, c: Child)
    requires c in Listed(Run(steps))
    ensures var s := Run(steps);
      c !in Listed(Run(steps + [step])) <==>
      && Enabled(s, step)
      && (step.MainClean? || step.PlayerClean? || Polls(s, step, c, (p: Poll) => !p.NoChange?))
  {
    hide Run, AfterPass, AfterStop, Polls, Entries;
    AlwaysInv(steps);
    RunNext(steps, step);
    var s := Run(steps);
    if Enabled(s, step) {
      match step
      case Pass(h, visits) => PassLeaves(s, h, visits, c);
      case MainStop(stops) => StopFrame(s, stops); NoPolls(s, step, c);
      case PlayerStop(stops) => StopFrame(s, stops); NoPolls(s, step, c);
      case _ => NoPolls(s, step, c);
    }
  }

  // ----- The order of the main thread

  /** Cloning is followed by counting and watching, and these by a check, a stop pass and the end of the list. */
  predicate Leads(m: Main, m': Main) {
    match m
    case MIdle => m'.MReset?
    case MReset => m'.MIdle? || m'.MSetup?
    case MSetup => m'.MIdle? || m' == MCloning(None)
    case MCloning(None) => m'.MCounting? || (m'.MCloning? && m'.pending.Some?)
    case MCloning(Some(_)) => m'.MIdle? || m' == MCloning(None)
    case MCounting => m'.MTesting?
    case MTesting(_) => m'.MWatching? || m'.MChecking?
    case MWatching => m'.MCounting? || m'.MChecking?
    case MChecking => m'.MStopping?
    case MStopping => m'.MCleaning?
    case MCleaning => m'.MIdle?
  }

  lemma MainLeads(s: State, step: Step)
    ensures var s' := Apply(s, step);
      && (s'.main != s.main ==> Leads(s.main, s'.main))
      && (s.main.MReset? && s'.main.MIdle? ==> s.list.Some?)
      && (s.main.MReset? && s'.main.MSetup? ==> s.list.None? && s'.list == Some([]))
      && (s.main.MCloning? && s'.main.MIdle? ==> step.InfoFails? || (step.Append? && s.list.None?))
      && (s.main.MCloning? && s.main.pending.Some? && s'.main == MCloning(None) ==> step.Append? && s.list.Some?)
      && (s.main.MCounting? && s'.main.MTesting? ==> s'.main.count == if s.list.Some? then |s.list.value| else 0)
      && (s.main.MStopping? && s'.main.MCleaning? ==> step.MainStop? && Enabled(s, step))
      && (s.main.MCleaning? && s'.main.MIdle? ==> s'.list.None?)
  {
    hide Watch, Scripted, Collected;
  }

  /** Neither thread is ever kept from its next step, except a clone that has forked all the children it can. */
  lemma ThreadsGoOn(s: State, step: Step)
    requires match s.main
      case MIdle => step.Reset?
      case MReset => step.InitList?
      case MSetup => step.SetupFails? || step.SetupDone?
      case MCloning(None) => step.ForkingDone? || (step.Fork? && step.c !in s.forked && s.forks < 0xFFFF)
      case MCloning(Some(_)) => step.InfoFails? || step.Append?
      case MCounting => step.CountList?
      case MTesting(_) => step.Test?
      case MWatching =>
        && step.Pass? && |step.visits| >= |Listed(s)|
        && (step.h.prints ==> step.h.canPrint) && (step.h.evals ==> step.h.canEval)
      case MChecking => step.Check?
      case MStopping => step.MainStop? && Scripted(Listed(s), step.stops)
      case MCleaning => step.MainClean?
    ensures Enabled(s, step) && Apply(s, step).main != s.main
  {
    hide Watch, Scripted, Collected;
  }

  lemma PlayerGoesOn(s: State, step: Step)
    requires match s.player
      case PIdle => step.Request? && s.list.Some?
      case PAborting => step.CountAbort?
      case PStopping => step.PlayerStop? && Scripted(Listed(s), step.stops)
      case PCleaning => step.PlayerClean?
    ensures Enabled(s, step) && Apply(s, step).player != s.player
  {
    hide Watch, Scripted, Collected;
  }

  predicate MainStopsAt(steps: seq<Step>, k: nat) {
    k < |steps| && steps[k].MainStop? && Enabled(Run(steps[..k]), steps[k])
  }

  /** The main thread is between the end of its cloning and its stop pass. */
  predicate Supervises(m: Main) {
    m.MCounting? || m.MTesting? || m.MWatching? || m.MChecking? || m.MStopping?
  }

  /** Once it has cloned, the main thread does not come to rest without a stop pass, whatever the player does. */
  lemma StopsBeforeRest(steps: seq<Step>, k: nat, j: nat)
    requires k <= j <= |steps| && Supervises(Run(steps[..k]).main) && Run(steps[..j]).main.MIdle?
    ensures exists m: nat :: k <= m < j && MainStopsAt(steps, m)
  {
    hide Run, Scripted;
    var m := k;
    while !MainStopsAt(steps, m)
      invariant k <= m <= j && Supervises(Run(steps[..m]).main)
      decreases j - m
    {
      PrefixNext(steps, m);
      MainLeads(Run(steps[..m]), steps[m]);
      m := m + 1;
    }
  }

  // ----- Requests of the player thread

  /** The player thread is asked to abort, or to stop, while there is a list. */
  predicate Asks(steps: seq<Step>, k: nat, abort: bool) {
    && k < |steps| && steps[k] == Request(abort)
    && Enabled(Run(steps[..k]), steps[k]) && Run(steps[..k]).list.Some?
  }

  predicate StopsAt(steps: seq<Step>, k: nat) {
    k < |steps| && steps[k].PlayerStop? && Enabled(Run(steps[..k]), steps[k])
  }

  predicate CountsAt(steps: seq<Step>, k: nat) {
    k < |steps| && steps[k].CountAbort? && Enabled(Run(steps[..k]), steps[k])
  }

  lemma PrefixNext(steps: seq<Step>, k: nat)
    requires k < |steps|
    ensures Run(steps[..k + 1]) == Apply(Run(steps[..k]), steps[k])
  {
    assert steps[..k + 1][..k] == steps[..k];
  }

  /** Asked to abort, the player thread counts the abort before its stop pass. */
  lemma AbortsCountedFirst(steps: seq<Step>, k: nat, j: nat)
    requires Asks(steps, k, true) && k < j && StopsAt(steps, j)
    ensures exists m: nat :: k < m < j && CountsAt(steps, m)
  {
    hide Run, Scripted;
    PrefixNext(steps, k);
    var m := k + 1;
    while !CountsAt(steps, m)
      invariant k < m <= j && Run(steps[..m]).player.PAborting?
      decreases j - m
    {
      PrefixNext(steps, m);
      PlayerWaits(Run(steps[..m]), steps[m]);
      m := m + 1;
    }
  }

  lemma PlayerWaits(s: State, step: Step)
    requires s.player.PAborting? && !(step.CountAbort? && Enabled(s, step))
    ensures Apply(s, step).player.PAborting?
  {
    hide Watch, Scripted, Collected;
  }

  /** And every abort that it counts is one that it was asked for, and has not counted before. */
  lemma CountsAreAborts(steps: seq<Step>, m: nat)
    requires CountsAt(steps, m)
    ensures exists k: nat :: k < m && Asks(steps, k, true) && forall i :: k < i < m ==> !CountsAt(steps, i)
  {
    hide Run, Asks, Scripted;
    AbortAsked(steps, m);
  }

  lemma {:induction false} AbortAsked(steps: seq<Step>, m: nat)
    requires m <= |steps| && Run(steps[..m]).player.PAborting?
    ensures exists k: nat :: k < m && Asks(steps, k, true) && forall i :: k < i < m ==> !CountsAt(steps, i)
  {
    hide Run, Scripted;
    if m == 0 {
      assert steps[..0] == [];
      RunStart();
    } else {
      PrefixNext(steps, m - 1);
      PlayerAsked(Run(steps[..m - 1]), steps[m - 1]);
      if !Asks(steps, m - 1, true) {
        AbortAsked(steps, m - 1);
      }
    }
  }

  lemma PlayerAsked(s: State, step: Step)
    requires Apply(s, step).player.PAborting?
    ensures s.player.PAborting? || (step == Request(true) && Enabled(s, step) && s.list.Some?)
    ensures s.player.PAborting? ==> !step.CountAbort?
  {
    hide Watch, Scripted, Collected;
  }

  // ----- The verdict of the watchdog loop

  /** What the check after the loop, in state `MChecking`, turns into a failed status. */
  predicate Failed(s: State) {
    s.refused || s.errors > 0
  }

  datatype Event = Resets | Refuses | SeesBad | Aborts

  /** Whether the step, taken in the state, is such an event. */
  ghost predicate Occurs(e: Event, s: State, step: Step) {
    Enabled(s, step) &&
    match e
    case Resets => step.Reset?
    case Aborts => step.CountAbort?
    case Refuses => step.Pass? && exists i :: 0 <= i < |Listed(s)| && Declines(step.h, step.visits[i])
    case SeesBad =>
      step.Pass? && exists i :: 0 <= i < |Listed(s)| && Reaches(step.h, step.visits, i) && Abnormal(step.visits[i].poll)
  }

  /** The child was killed or stopped by a signal other than an interrupt. */
  predicate Abnormal(p: Poll) {
    (p.Signaled? && p.sig != 2) || (p.Stopped? && p.sig != 2)
  }

  ghost predicate At(e: Event, steps: seq<Step>, k: nat)
    requires k < |steps|
  {
    Occurs(e, Run(steps[..k]), steps[k])
  }

  /** The event occurred at step `k`, and the error counter was not reset since. */
  ghost predicate LastAt(e: Event, steps: seq<Step>, k: nat) {
    k < |steps| && At(e, steps, k) && forall j: nat :: k < j < |steps| ==> !At(Resets, steps, j)
  }

  ghost predicate Since(e: Event, steps: seq<Step>) {
    exists k: nat :: LastAt(e, steps, k)
  }

  lemma AtNext(e: Event, steps: seq<Step>, step: Step, k: nat)
    requires k <= |steps|
    ensures At(e, steps + [step], k) <==> if k < |steps| then At(e, steps, k) else Occurs(e, Run(steps), step)
  {
    hide Run, Occurs;
    assert (steps + [step])[..k] == steps[..k];
    assert steps[..|steps|] == steps;
  }

  lemma LastAtNext(e: Event, steps: seq<Step>, step: Step, k: nat)
    requires k < |steps|
    ensures LastAt(e, steps + [step], k) <==> LastAt(e, steps, k) && !Occurs(Resets, Run(steps), step)
  {
    hide At, Run, Occurs;
    var all := steps + [step];
    AtNext(e, steps, step, k);
    AtNext(Resets, steps, step, |steps|);
    if LastAt(e, all, k) {
      assert !At(Resets, all, |steps|);
      forall j: nat | k < j < |steps| ensures !At(Resets, steps, j) { AtNext(Resets, steps, step, j); }
    }
    if LastAt(e, steps, k) && !Occurs(Resets, Run(steps), step) {
      forall j: nat | k < j < |all| ensures !At(Resets, all, j) { AtNext(Resets, steps, step, j); }
    }
  }

  lemma SinceNext(e: Event, steps: seq<Step>, step: Step)
    ensures Since(e, steps + [step]) <==>
      Occurs(e, Run(steps), step) || (Since(e, steps) && !Occurs(Resets, Run(steps), step))
  {
    hide At, Run, Occurs;
    AtNext(e, steps, step, |steps|);
    assert LastAt(e, steps + [step], |steps|) <==> Occurs(e, Run(steps), step);
    forall k: nat | k < |steps|
      ensures LastAt(e, steps + [step], k) <==> LastAt(e, steps, k) && !Occurs(Resets, Run(steps), step)
    {
      LastAtNext(e, steps, step, k);
    }
    hide LastAt;
  }

  lemma StepCounts(s: State, step: Step)
    ensures var s' := Apply(s, step);
      && (s'.refused <==> Occurs(Refuses, s, step) || (s.refused && !Occurs(Resets, s, step)))
      && (s'.bad > 0 <==> Occurs(SeesBad, s, step) || (s.bad > 0 && !Occurs(Resets, s, step)))
      && (s'.aborts > 0 <==> Occurs(Aborts, s, step) || (s.aborts > 0 && !Occurs(Resets, s, step)))
  {
    hide Polled, Scripted, Collected, Watch, Passed, BadIn;
    if step.Pass? && Enabled(s, step) {
      PassEvents(s, step.h, step.visits);
    }
  }

  lemma PassEvents(s: State, h: Handler, visits: seq<Visit>)
    requires WellFormed(h) && |visits| >= |Listed(s)|
    ensures var w := Watch(h, Listed(s), visits);
      && (w.ending == Refused <==> exists i :: 0 <= i < |Listed(s)| && Declines(h, visits[i]))
      && (w.bad > 0 <==>
          exists i :: 0 <= i < |Listed(s)| && Reaches(h, visits, i) && Abnormal(visits[i].poll))
  {
    hide Kept, Removed, BadIn, Reaches, Passed;
    var list := Listed(s);
    var n := Passed(h, list, visits, 0);
    BadSeen(visits, n);
    forall i | 0 <= i < |list|
      ensures i < n <==> Reaches(h, visits, i) && !Declines(h, visits[i])
      ensures Ends(h, visits[i]) <==> Declines(h, visits[i])
    {
      PassedWhen(h, list, visits, i);
      EndsWhen(h, visits[i]);
    }
  }

  /** The loop goes on as long as there is a list that was not empty when counted, and ends with the first refusal. */
  lemma LoopEndsWhen(s: State, step: Step)
    requires s.main.MTesting? || s.main.MWatching?
    ensures Apply(s, step).main.MChecking? <==>
      || (step.Test? && s.main.MTesting? && (s.list.None? || s.main.count == 0))
      || (Enabled(s, step) && step.Pass? && exists i :: 0 <= i < |Listed(s)| && Declines(step.h, step.visits[i]))
    ensures Apply(s, step).main.MCounting? <==>
      Enabled(s, step) && step.Pass? && forall i :: 0 <= i < |Listed(s)| ==> !Declines(step.h, step.visits[i])
  {
    hide Watch, Scripted, Collected, Passed, Polled, WellFormed;
    if step.Pass? && Enabled(s, step) {
      PassEvents(s, step.h, step.visits);
      MisconfiguredExactly(step.h, Listed(s), step.visits);
      FlawNeeded(step.h, Listed(s), step.visits);
    }
  }

  lemma {:induction false} CountsMean(steps: seq<Step>)
    ensures var s := Run(steps);
      && (s.refused <==> Since(Refuses, steps))
      && (s.bad > 0 <==> Since(SeesBad, steps))
      && (s.aborts > 0 <==> Since(Aborts, steps))
  {
    hide Apply, Occurs;
    if steps != [] {
      var most, step := steps[..|steps| - 1], steps[|steps| - 1];
      assert most + [step] == steps;
      CountsMean(most);
      StepCounts(Run(most), step);
      SinceNext(Refuses, most, step);
      SinceNext(SeesBad, most, step);
      SinceNext(Aborts, most, step);
    }
  }

  /**
    The watchdog loop fails exactly when, since the clone reset the counter, an evaluation refused, a
    pass saw a child killed or stopped by a signal other than SIGINT, or an abort was counted.
  */
  lemma VerdictExact(steps: seq<Step>)
    ensures Failed(Run(steps)) <==> Since(Refuses, steps) || Since(SeesBad, steps) || Since(Aborts, steps)
  {
    hide Run;
    CountsMean(steps);
    CounterExact(steps);
  }

  /** The 32-bit counter never wraps: between two resets it counts at most 65535 children and two aborts. */
  lemma CounterExact(steps: seq<Step>)
    ensures var s := Run(steps); s.errors == s.bad + s.aborts && s.bad <= MAX_CHILDREN && s.aborts <= 2
  {
    hide Run;
    AlwaysInv(steps);
    AlwaysBounded(steps);
    Wraps(Run(steps).bad + Run(steps).aborts, 0);
  }
}
