/** The add-or-replace registry of messaging callbacks. */
module Handlers {

  type Address = nat

  datatype Entry = Entry(call: Address, payload: Address)

  // ----- The registry on values

  function Find(es: seq<Entry>, call: Address): (i: nat)
    ensures i <= |es| && (i < |es| ==> es[i].call == call)
    ensures forall j :: 0 <= j < i ==> es[j].call != call
  {
    if es == [] || es[0].call == call then 0 else 1 + Find(es[1..], call)
  }

  function Register(es: seq<Entry>, e: Entry): seq<Entry> {
    var i := Find(es, e.call);
    if i < |es| then es[i := e] else es + [e]
  }

  function RegisterAll(regs: seq<Entry>): seq<Entry> {
    if regs == [] then [] else Register(RegisterAll(regs[..|regs| - 1]), regs[|regs| - 1])
  }

  lemma RegisterIs(es: seq<Entry>, e: Entry, r: seq<Entry>)
    requires |r| == if Find(es, e.call) < |es| then |es| else |es| + 1
    requires r[Find(es, e.call)] == e
    requires forall i :: 0 <= i < |r| && i != Find(es, e.call) ==> r[i] == es[i]
    ensures r == Register(es, e)
  {
    hide Find;
  }

  // ----- What a sequence of registrations means

  ghost predicate IsFirst(regs: seq<Entry>, call: Address, i: int) {
    0 <= i < |regs| && regs[i].call == call && forall j :: 0 <= j < i ==> regs[j].call != call
  }

  ghost predicate IsLast(regs: seq<Entry>, call: Address, i: int) {
    0 <= i < |regs| && regs[i].call == call && forall j :: i < j < |regs| ==> regs[j].call != call
  }

  ghost predicate Has(es: seq<Entry>, call: Address) {
    exists a :: 0 <= a < |es| && es[a].call == call
  }

  ghost predicate LastSet(regs: seq<Entry>, e: Entry) {
    exists k :: IsLast(regs, e.call, k) && regs[k].payload == e.payload
  }

  /** `x` was first registered before `y`. */
  ghost predicate Before(regs: seq<Entry>, x: Address, y: Address) {
    forall i, j :: IsFirst(regs, x, i) && IsFirst(regs, y, j) ==> i < j
  }

  /** One entry per callback ever registered, in order of first registration, with the last payload. */
  ghost predicate Summarises(es: seq<Entry>, regs: seq<Entry>) {
    && (forall a, b :: 0 <= a < b < |es| ==> es[a].call != es[b].call)
    && (forall k :: 0 <= k < |regs| ==> Has(es, regs[k].call))
    && (forall a :: 0 <= a < |es| ==> LastSet(regs, es[a]))
    && (forall a, b :: 0 <= a < b < |es| ==> Before(regs, es[a].call, es[b].call))
  }

  lemma LastSetKept(regs: seq<Entry>, e: Entry, x: Entry)
    requires LastSet(regs, x) && x.call != e.call
    ensures LastSet(regs + [e], x)
  {
    var k :| IsLast(regs, x.call, k) && regs[k].payload == x.payload;
    assert IsLast(regs + [e], x.call, k);
  }

  lemma BeforeKept(regs: seq<Entry>, e: Entry, x: Address, y: Address)
    requires Has(regs, x) && (Before(regs, x, y) || !Has(regs, y))
    ensures Before(regs + [e], x, y)
  {
    var regs' := regs + [e];
    var k :| 0 <= k < |regs| && regs[k].call == x;
    assert regs'[k].call == x;
    assert forall j :: 0 <= j < |regs| ==> regs[j] == regs'[j];
    forall i, j | IsFirst(regs', x, i) && IsFirst(regs', y, j)
      ensures i < j
    {
      assert IsFirst(regs, x, i);
      if j < |regs| {
        assert regs[j].call == y;
        assert IsFirst(regs, y, j);
      }
    }
  }

  lemma RegisterSummary(es: seq<Entry>, regs: seq<Entry>, e: Entry)
    requires Summarises(es, regs)
    ensures Summarises(Register(es, e), regs + [e])
  {
    var es', regs' := Register(es, e), regs + [e];
    var at := Find(es, e.call);
    assert forall a :: 0 <= a < |es| ==> es'[a].call == es[a].call;
    assert es'[at] == e;
    forall k | 0 <= k < |regs'|
      ensures Has(es', regs'[k].call)
    {
      if k < |regs| {
        var a :| 0 <= a < |es| && es[a].call == regs[k].call;
        assert es'[a].call == regs'[k].call;
      }
    }
    forall a | 0 <= a < |es'|
      ensures LastSet(regs', es'[a])
    {
      if a == at {
        assert IsLast(regs', e.call, |regs|);
      } else {
        LastSetKept(regs, e, es[a]);
      }
    }
    forall a, b | 0 <= a < b < |es'|
      ensures Before(regs', es'[a].call, es'[b].call)
    {
      var k :| IsLast(regs, es[a].call, k);
      BeforeKept(regs, e, es[a].call, es'[b].call);
    }
  }

  /** Any sequence of registrations is summarised by the list. */
  lemma {:induction false} RegistrationsSummarised(regs: seq<Entry>)
    ensures Summarises(RegisterAll(regs), regs)
  {
    hide Summarises, Register;
    if regs == [] {
      NothingRegistered();
    } else {
      var most := regs[..|regs| - 1];
      RegistrationsSummarised(most);
      RegisterSummary(RegisterAll(most), most, regs[|regs| - 1]);
      assert most + [regs[|regs| - 1]] == regs;
    }
  }

  lemma NothingRegistered()
    ensures Summarises([], [])
  {
  }

  /** Later registrations, such as URL parameters, change payloads in place and never reorder the defaults. */
  lemma {:induction false} OverridesInPlace(defaults: seq<Entry>, user: seq<Entry>)
    ensures var d, all := RegisterAll(defaults), RegisterAll(defaults + user);
      |d| <= |all| && forall i :: 0 <= i < |d| ==> all[i].call == d[i].call
  {
    if user == [] {
      assert defaults + user == defaults;
    } else {
      var most := user[..|user| - 1];
      OverridesInPlace(defaults, most);
      assert (defaults + user)[..|defaults + user| - 1] == defaults + most;
    }
  }

  // ----- The linked list

  class Callback {
    var call: Address
    var payload: Address

    constructor ()
      ensures call == payload == 0
    {
      call, payload := 0, 0;
    }
  }

  class HandlerList {
    var nodes: seq<Callback>

    ghost predicate Valid()
      reads this, nodes
    {
      forall i, j :: 0 <= i < j < |nodes| ==> nodes[i] != nodes[j] && nodes[i].call != nodes[j].call
    }

    ghost function Entries(): (es: seq<Entry>)
      reads this, nodes
      ensures |es| == |nodes|
      ensures forall i :: 0 <= i < |nodes| ==> es[i] == Entry(nodes[i].call, nodes[i].payload)
    {
      EntriesOf(nodes)
    }

    static ghost function EntriesOf(ns: seq<Callback>): (es: seq<Entry>)
      reads ns
      ensures |es| == |ns|
      ensures forall i :: 0 <= i < |ns| ==> es[i] == Entry(ns[i].call, ns[i].payload)
    {
      if ns == [] then [] else [Entry(ns[0].call, ns[0].payload)] + EntriesOf(ns[1..])
    }

    constructor ()
      ensures Valid() && Entries() == []
    {
      nodes := [];
    }

    /** The wrapper of the callback; if there is none, an empty one is appended. */
    method ByAddr(callback: Address) returns (wrapper: Callback)
      requires Valid()
      modifies this
      ensures var at := Find(old(Entries()), callback);
        if at < |old(nodes)| then nodes == old(nodes) && wrapper == nodes[at]
        else fresh(wrapper) && nodes == old(nodes) + [wrapper]
    {
      for node := 0 to |nodes|
        invariant forall j :: 0 <= j < node ==> nodes[j].call != callback
        invariant nodes == old(nodes)
      {
        if nodes[node].call == callback {
          assert Find(Entries(), callback) == node;
          return nodes[node];
        }
      }
      wrapper := new Callback();
      nodes := nodes + [wrapper];
    }

    method Add(callback: Address, payload: Address)
      requires Valid()
      modifies this, nodes
      ensures Valid() && Entries() == Register(old(Entries()), Entry(callback, payload))
      ensures old(nodes) <= nodes && forall i :: |old(nodes)| <= i < |nodes| ==> fresh(nodes[i])
    {
      hide Register, Find, EntriesOf;
      ghost var es, was := Entries(), nodes;
      var wrapper := ByAddr(callback);
      ghost var at := Find(es, callback);
      assert nodes[at] == wrapper && forall i :: 0 <= i < |nodes| && i != at ==> nodes[i] == was[i] != wrapper;
      Update(wrapper, callback, payload);
      RegisterIs(es, Entry(callback, payload), Entries());
    }

    static method Update(wrapper: Callback, callback: Address, payload: Address)
      modifies wrapper
      ensures wrapper.call == callback && wrapper.payload == payload
    {
      wrapper.call := callback;
      wrapper.payload := payload;
    }

    /** Calls every callback with its payload; `calls` is what was called, in order. */
    method Run() returns (calls: seq<Entry>)
      requires Valid()
      ensures calls == Entries()
    {
      calls := [];
      for node := 0 to |nodes|
        invariant calls == Entries()[..node]
      {
        calls := calls + [Entry(nodes[node].call, nodes[node].payload)];
      }
    }
  }

  /** Registering a whole sequence and running the list calls what `RegisterAll` says. */
  method RegisterAndRun(regs: seq<Entry>) returns (calls: seq<Entry>)
    ensures calls == RegisterAll(regs)
    ensures Summarises(calls, regs)
  {
    hide Summarises, Register;
    var list := new HandlerList();
    for k := 0 to |regs|
      invariant list.Valid() && fresh(list)
      invariant forall i :: 0 <= i < |list.nodes| ==> fresh(list.nodes[i])
      invariant list.Entries() == RegisterAll(regs[..k])
    {
      assert regs[..k + 1][..k] == regs[..k];
      list.Add(regs[k].call, regs[k].payload);
    }
    calls := list.Run();
    assert regs[..|regs|] == regs;
    RegistrationsSummarised(regs);
  }
}
