/** The queue that carries the snapshots of all workers of one role to the parent, and its draining. */
module SnapshotQueue {

  /** A snapshot, or the zeroed buffer that a worker entry starts with. */
  datatype Snapshot = Zeroed | Taken(worker: nat, number: nat)

  datatype ReadStat = Success | NoData | Error

  /** A read error counts as data. */
  predicate HasData(stat: ReadStat) { stat != NoData }

  // ----- Any interleaving of writes and reads

  datatype Step = Write(s: Snapshot) | Read(entry: nat, fails: bool)

  /**
    `accepted` by the queue so far, `fifo` still in it, `read` out of it, `handed` to the report writer;
    `buffers` are the snapshots of the worker entries, and `errors` counts the failed reads.
  */
  datatype Pipe = Pipe(capacity: nat, fifo: seq<Snapshot>, accepted: seq<Snapshot>, read: seq<Snapshot>,
                       handed: seq<Snapshot>, buffers: map<nat, Snapshot>, errors: nat)

  function Empty(capacity: nat): Pipe { Pipe(capacity, [], [], [], [], map[], 0) }

  function Buffer(p: Pipe, entry: nat): Snapshot {
    if entry in p.buffers then p.buffers[entry] else Zeroed
  }

  function StatOf(p: Pipe, fails: bool): ReadStat {
    if fails then Error else if p.fifo == [] then NoData else Success
  }

  /** One read into the buffer of an entry. */
  function Take(p: Pipe, entry: nat, fails: bool): Pipe {
    if StatOf(p, fails) == Success then
      p.(fifo := p.fifo[1..], read := p.read + [p.fifo[0]], buffers := p.buffers[entry := p.fifo[0]])
    else p
  }

  /** A read takes the oldest snapshot into the buffer of the entry and no other, or leaves everything alone. */
  lemma TakeMeans(p: Pipe, entry: nat, fails: bool)
    ensures StatOf(p, fails) == Error <==> fails
    ensures StatOf(p, fails) == NoData <==> !fails && p.fifo == []
    ensures var q := Take(p, entry, fails);
      if fails || p.fifo == [] then q == p
      else
        && p.fifo == [Buffer(q, entry)] + q.fifo && q.read == p.read + [Buffer(q, entry)]
        && (forall other :: other != entry ==> Buffer(q, other) == Buffer(p, other))
        && q.handed == p.handed && q.accepted == p.accepted && q.errors == p.errors && q.capacity == p.capacity
  {
  }

  /** The report of the buffer, whatever the read left in it. */
  function Report(p: Pipe, entry: nat, fails: bool): Pipe {
    p.(handed := p.handed + [Buffer(p, entry)], errors := p.errors + if fails then 1 else 0)
  }

  /** One write, which never waits; or one read and, if it is taken to have data, its report. */
  function Apply(p: Pipe, step: Step): Pipe {
    match step
    case Write(s) =>
      if |p.fifo| < p.capacity then p.(fifo := p.fifo + [s], accepted := p.accepted + [s]) else p
    case Read(entry, fails) =>
      if HasData(StatOf(p, fails)) then Report(Take(p, entry, fails), entry, fails) else p
  }

  function Run(p: Pipe, steps: seq<Step>): Pipe {
    if steps == [] then p else Apply(Run(p, steps[..|steps| - 1]), steps[|steps| - 1])
  }

  ghost predicate Conserved(p: Pipe) {
    && p.accepted == p.read + p.fifo
    && |p.handed| == |p.read| + p.errors
    && (p.errors == 0 ==> p.handed == p.read)
    && |p.fifo| <= p.capacity
  }

  lemma ApplyConserves(p: Pipe, step: Step)
    requires Conserved(p)
    ensures Conserved(Apply(p, step))
    ensures p.accepted <= Apply(p, step).accepted && p.handed <= Apply(p, step).handed
    ensures Apply(p, step).errors >= p.errors && Apply(p, step).capacity == p.capacity
  {
  }

  /**
    Whoever reads, the records handed to the writer are a prefix of those accepted, in order and
    without repeats, when and only when they are as many as were read: no read failed.
  */
  lemma {:induction false} HandedInOrder(capacity: nat, steps: seq<Step>)
    ensures var p := Run(Empty(capacity), steps);
      && Conserved(p)
      && (p.errors == 0 ==> p.handed <= p.accepted)
      && (p.errors == 0 <==> p.handed == p.accepted[..|p.read|])
  {
    if steps != [] {
      var most := steps[..|steps| - 1];
      HandedInOrder(capacity, most);
      ApplyConserves(Run(Empty(capacity), most), steps[|steps| - 1]);
    }
    var p := Run(Empty(capacity), steps);
    assert p.accepted[..|p.read|] == p.read;
  }

  /** A failed read repeats what the entry read last. */
  lemma ReadErrorRepeats(a: Snapshot)
    ensures Run(Empty(1), [Write(a), Read(0, false), Read(0, true)]).handed == [a, a]
  {
    var steps := [Write(a), Read(0, false), Read(0, true)];
    var p := Apply(Empty(1), Write(a));
    assert steps[..2] == [Write(a), Read(0, false)];
    assert steps[..2][..1] == [Write(a)] && [Write(a)][..0] == [];
    assert Run(Empty(1), [Write(a)]) == p;
    assert Run(Empty(1), steps[..2]) == Apply(p, Read(0, false));
  }

  // ----- The queue and the drain loop

  /** What the workers do between two reads, and whether the second one fails. */
  datatype Gap = Gap(writes: seq<Snapshot>, fails: bool)

  class SharedQueue {
    const capacity: nat
    var fifo: seq<Snapshot>
    var handed: seq<Snapshot>
    var buffers: map<nat, Snapshot>
    ghost var accepted: seq<Snapshot>
    ghost var read: seq<Snapshot>
    ghost var errors: nat

    ghost function State(): Pipe
      reads this
    {
      Pipe(capacity, fifo, accepted, read, handed, buffers, errors)
    }

    ghost predicate Valid()
      reads this
    {
      Conserved(State())
    }

    constructor (capacity: nat)
      ensures State() == Empty(capacity) && Valid()
    {
      this.capacity := capacity;
      fifo, handed, buffers, accepted, read, errors := [], [], map[], [], [], 0;
    }

    method WriteOne(s: Snapshot) returns (ok: bool)
      requires Valid()
      modifies this
      ensures State() == Apply(old(State()), Write(s)) && Valid()
      ensures ok <==> |old(fifo)| < capacity
      ensures handed == old(handed) && read == old(read)
      ensures fifo == old(fifo) + (if ok then [s] else []) && accepted == old(accepted) + (if ok then [s] else [])
    {
      ApplyConserves(State(), Write(s));
      ok := |fifo| < capacity;
      if ok {
        fifo, accepted := fifo + [s], accepted + [s];
      }
    }

    method WriteAll(ss: seq<Snapshot>)
      requires Valid()
      modifies this
      ensures Valid() && old(accepted) <= accepted && old(fifo) <= fifo
      ensures handed == old(handed) && errors == old(errors) && (ss == [] ==> fifo == old(fifo))
    {
      for i := 0 to |ss|
        invariant Valid() && old(accepted) <= accepted && old(fifo) <= fifo
        invariant handed == old(handed) && errors == old(errors) && (i == 0 ==> fifo == old(fifo))
      {
        var _ := WriteOne(ss[i]);
      }
    }

    method ReadInto(entry: nat, fails: bool) returns (stat: ReadStat)
      modifies this`fifo, this`buffers, this`read
      ensures stat == StatOf(old(State()), fails) && State() == Take(old(State()), entry, fails)
    {
      if fails {
        return Error;
      }
      if fifo == [] {
        return NoData;
      }
      buffers, read, fifo := buffers[entry := fifo[0]], read + [fifo[0]], fifo[1..];
      return Success;
    }

    /** Hands the buffer of the entry to the report writer. */
    method ReportBuffer(entry: nat, ghost fails: bool)
      modifies this`handed, this`errors
      ensures State() == Report(old(State()), entry, fails)
    {
      handed := handed + [if entry in buffers then buffers[entry] else Zeroed];
      errors := errors + if fails then 1 else 0;
    }

    /** What the workers write before the next read. */
    method Between(gaps: seq<Gap>, turn: nat) returns (fails: bool, next: nat)
      requires Valid() && turn <= |gaps|
      modifies this
      ensures Valid() && old(accepted) <= accepted && handed == old(handed) && errors == old(errors)
      ensures turn < |gaps| ==> next == turn + 1 && fails == gaps[turn].fails
      ensures turn == |gaps| ==> next == turn && !fails && fifo == old(fifo)
    {
      if turn == |gaps| {
        return false, turn;
      }
      WriteAll(gaps[turn].writes);
      return gaps[turn].fails, turn + 1;
    }

    /**
      Reads until there is no data, reporting after every read; the workers go on writing meanwhile.
      The queue is empty when it returns, and what it handed on continues the accepted order.
    */
    method Drain(entry: nat, gaps: seq<Gap>)
      requires Valid()
      modifies this
      ensures Valid() && fifo == []
      ensures old(accepted) <= accepted && old(handed) <= handed && errors >= old(errors)
      ensures errors == 0 ==> handed == accepted
      ensures (forall i :: 0 <= i < |gaps| ==> !gaps[i].fails) ==> errors == old(errors)
    {
      hide Conserved;
      var fails, turn := Between(gaps, 0);
      ghost var was := State();
      var stat := ReadInto(entry, fails);
      while HasData(stat)
        invariant turn <= |gaps| && Conserved(was)
        invariant stat == StatOf(was, fails) && State() == Take(was, entry, fails)
        invariant old(accepted) <= accepted && old(handed) <= handed && errors >= old(errors)
        invariant (forall i :: 0 <= i < |gaps| ==> !gaps[i].fails) ==> errors == old(errors) && !fails
        decreases 2 * (|gaps| - turn) + (if fails then 1 else 0), |was.fifo|
      {
        ApplyConserves(was, Read(entry, fails));
        ReportBuffer(entry, fails);
        assert State() == Apply(was, Read(entry, fails));
        fails, turn := Between(gaps, turn);
        was := State();
        stat := ReadInto(entry, fails);
      }
      Drained(was);
    }
  }

  lemma Drained(p: Pipe)
    requires Conserved(p) && p.fifo == []
    ensures p.errors == 0 ==> p.handed == p.accepted
  {
  }
}
