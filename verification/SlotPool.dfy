/** The sandbox slots: how the pool is filled, and what allocating and releasing conserve under concurrency. */
module SlotPool {
  import opened CpuSet
  import opened Distinct
  import opened Options
  import opened Text

  datatype Slot = Slot(cpus: string, mems: string, uid: int, gid: int)

  // ---------- Filling the pool ----------

  /** The number of slots, and what CPUCount returns. */
  function CpuCount(cpuSet: string, numCpu: nat): nat {
    if Cpus(cpuSet) == [] then numCpu else |Cpus(cpuSet)|
  }

  function Mems(env: string): (mems: seq<string>)
    ensures mems != []
  {
    if Cpus(TrimSpace(env)) == [] then ["0"] else Cpus(TrimSpace(env))
  }

  function SlotAt(cpus: seq<string>, mems: seq<string>, uidBase: int, i: nat): Slot
    requires mems != [] && (cpus == [] || i < |cpus|)
  {
    var id := if uidBase != 0 then uidBase + i else 0;
    Slot(if cpus == [] then "" else cpus[i], mems[i % |mems|], id, id)
  }

  function FirstSlots(cpus: seq<string>, mems: seq<string>, uidBase: int, n: nat): (s: seq<Slot>)
    requires mems != [] && (cpus == [] || n <= |cpus|)
    ensures |s| == n && forall i :: 0 <= i < n ==> s[i] == SlotAt(cpus, mems, uidBase, i)
  {
    if n == 0 then [] else FirstSlots(cpus, mems, uidBase, n - 1) + [SlotAt(cpus, mems, uidBase, n - 1)]
  }

  /** The slots of a machine with numCpu processors for a CPU set, the memory nodes in env and a UID base. */
  function Slots(cpuSet: string, env: string, numCpu: nat, uidBase: int): seq<Slot> {
    FirstSlots(Cpus(cpuSet), Mems(env), uidBase, CpuCount(cpuSet, numCpu))
  }

  /**
   What the channel is filled with: slot i runs on the i-th CPU of the set, or on any when the set is empty, uses the
   memory nodes in turn, and has the UID and GID base + i when a base is set.
   */
  ghost predicate Fills(slots: seq<Slot>, cpuSet: string, env: string, numCpu: nat, uidBase: int) {
    var cpus, mems := Cpus(cpuSet), if Cpus(TrimSpace(env)) == [] then ["0"] else Cpus(TrimSpace(env));
    && |slots| == (if cpus == [] then numCpu else |cpus|)
    && forall i :: 0 <= i < |slots| ==>
      && slots[i].cpus == (if cpus == [] then "" else cpus[i]) && slots[i].mems == mems[i % |mems|]
      && slots[i].uid == slots[i].gid == if uidBase == 0 then 0 else uidBase + i
  }

  lemma SlotsFill(cpuSet: string, env: string, numCpu: nat, uidBase: int)
    ensures Fills(Slots(cpuSet, env, numCpu, uidBase), cpuSet, env, numCpu, uidBase)
  {
  }

  datatype PoolOption = WithCPUs(cpuSet: string) | WithSlotUIDs(base: int)

  /** The pool being configured; ch is None until the channel is made. */
  datatype Config = Config(uidBase: int, ch: Option<seq<Slot>>)

  function Configured(opts: seq<PoolOption>, env: string, numCpu: nat): Config {
    if opts == [] then Config(0, None)
    else
      var c := Configured(opts[..|opts| - 1], env, numCpu);
      match opts[|opts| - 1]
      case WithCPUs(cpuSet) => c.(ch := Some(Slots(cpuSet, env, numCpu, c.uidBase)))
      case WithSlotUIDs(base) => c.(uidBase := base)
  }

  class Pool {
    var ch: Option<seq<Slot>>
    var uidBase: int

    /** NewSlotPool: the options in order, and a default CPU set when none of them made the channel. */
    constructor (opts: seq<PoolOption>, env: string, numCpu: nat)
      ensures var c := Configured(opts, env, numCpu);
        && uidBase == c.uidBase
        && ch == if c.ch.Some? then c.ch else Some(Slots("", env, numCpu, c.uidBase))
    {
      ch, uidBase := None, 0;
      new;
      for i := 0 to |opts|
        invariant Config(uidBase, ch) == Configured(opts[..i], env, numCpu)
      {
        assert opts[..i + 1][..i] == opts[..i];
        match opts[i] {
          case WithCPUs(cpuSet) => FillChannel(cpuSet, env, numCpu);
          case WithSlotUIDs(base) => uidBase := base;
        }
      }
      assert opts[..|opts|] == opts;
      if ch.None? {
        FillChannel("", env, numCpu);
      }
    }

    method FillChannel(cpuSet: string, env: string, numCpu: nat)
      modifies `ch
      ensures ch == Some(Slots(cpuSet, env, numCpu, uidBase)) && Fills(ch.value, cpuSet, env, numCpu, uidBase)
    {
      SlotsFill(cpuSet, env, numCpu, uidBase);
      var mems := ParseCPUSet(TrimSpace(env));
      if |mems| == 0 {
        mems := ["0"];
      }
      var cpus := ParseCPUSet(cpuSet);
      var n := |cpus|;
      if n == 0 {
        n := numCpu;
      }
      var slots := FillSlots(cpus, mems, n);
      ch := Some(slots);
    }

    method FillSlots(cpus: seq<string>, mems: seq<string>, n: nat) returns (slots: seq<Slot>)
      requires mems != [] && (cpus == [] || n <= |cpus|)
      ensures slots == FirstSlots(cpus, mems, uidBase, n)
    {
      slots := [];
      for i := 0 to n
        invariant slots == FirstSlots(cpus, mems, uidBase, i)
      {
        var cpu := "";
        if |cpus| > 0 {
          cpu := cpus[i];
        }
        var uid, gid := 0, 0;
        if uidBase != 0 {
          uid := uidBase + i;
          gid := uidBase + i;
        }
        slots := slots + [Slot(cpu, mems[i % |mems|], uid, gid)];
      }
    }
  }

  /**
   Isolation by UID: the slots have pairwise distinct UIDs exactly when a base is set or there is at most one
   slot.
   */
  lemma UidsAreDistinct(cpuSet: string, env: string, numCpu: nat, uidBase: int)
    ensures var s := Slots(cpuSet, env, numCpu, uidBase);
      && |s| == CpuCount(cpuSet, numCpu)
      && ((forall i, j :: 0 <= i < j < |s| ==> s[i].uid != s[j].uid) <==> uidBase != 0 || |s| <= 1)
  {
    var s := Slots(cpuSet, env, numCpu, uidBase);
    if uidBase == 0 && |s| > 1 {
      assert s[0].uid == s[1].uid;
    }
  }

  /** Option j sets base b, and no later one sets a base. */
  predicate SetsLast(opts: seq<PoolOption>, j: nat, b: int) {
    j < |opts| && opts[j] == WithSlotUIDs(b) && forall l :: j < l < |opts| ==> !opts[l].WithSlotUIDs?
  }

  /** b is the last base the options set, or 0 when none of them sets one. */
  ghost predicate IsLastBase(opts: seq<PoolOption>, b: int) {
    || (exists j :: SetsLast(opts, j, b))
    || (b == 0 && forall l :: 0 <= l < |opts| ==> !opts[l].WithSlotUIDs?)
  }

  lemma LastBaseKept(opts: seq<PoolOption>, cpuSet: string, b: int)
    requires IsLastBase(opts, b)
    ensures IsLastBase(opts + [WithCPUs(cpuSet)], b)
  {
    if j :| SetsLast(opts, j, b) {
      assert SetsLast(opts + [WithCPUs(cpuSet)], j, b);
    }
  }

  lemma LastBaseSet(opts: seq<PoolOption>, b: int)
    ensures IsLastBase(opts + [WithSlotUIDs(b)], b)
  {
    assert SetsLast(opts + [WithSlotUIDs(b)], |opts|, b);
  }

  lemma {:induction false} BaseOfOptions(opts: seq<PoolOption>, env: string, numCpu: nat)
    ensures IsLastBase(opts, Configured(opts, env, numCpu).uidBase)
    decreases |opts|
  {
    if opts != [] {
      var n := |opts| - 1;
      BaseOfOptions(opts[..n], env, numCpu);
      assert opts == opts[..n] + [opts[n]];
      match opts[n]
      case WithCPUs(cpuSet) => LastBaseKept(opts[..n], cpuSet, Configured(opts[..n], env, numCpu).uidBase);
      case WithSlotUIDs(base) => LastBaseSet(opts[..n], base);
    }
  }

  /** Option k gives the last CPU set. */
  predicate IsLastCpus(opts: seq<PoolOption>, k: nat) {
    k < |opts| && opts[k].WithCPUs? && forall l :: k < l < |opts| ==> !opts[l].WithCPUs?
  }

  lemma BaseKeepsChannel(before: seq<PoolOption>, base: int, env: string, numCpu: nat)
    ensures Configured(before + [WithSlotUIDs(base)], env, numCpu).ch == Configured(before, env, numCpu).ch
  {
    assert (before + [WithSlotUIDs(base)])[..|before|] == before;
  }

  lemma CpusMakeChannel(before: seq<PoolOption>, cpuSet: string, env: string, numCpu: nat)
    ensures Configured(before + [WithCPUs(cpuSet)], env, numCpu).ch
         == Some(Slots(cpuSet, env, numCpu, Configured(before, env, numCpu).uidBase))
  {
    assert (before + [WithCPUs(cpuSet)])[..|before|] == before;
  }

  lemma {:induction false} ChannelKept(before: seq<PoolOption>, after: seq<PoolOption>, env: string, numCpu: nat)
    requires forall o :: o in after ==> o.WithSlotUIDs?
    ensures Configured(before + after, env, numCpu).ch == Configured(before, env, numCpu).ch
    decreases |after|
  {
    if after == [] {
      assert before + after == before;
    } else {
      var n := |after| - 1;
      ChannelKept(before, after[..n], env, numCpu);
      BaseKeepsChannel(before + after[..n], after[n].base, env, numCpu);
      assert before + after == before + after[..n] + [WithSlotUIDs(after[n].base)];
    }
  }

  lemma ChannelOfOptions(before: seq<PoolOption>, cpuSet: string, after: seq<PoolOption>, env: string, numCpu: nat)
    requires forall o :: o in after ==> o.WithSlotUIDs?
    ensures Configured(before + [WithCPUs(cpuSet)] + after, env, numCpu).ch
         == Some(Slots(cpuSet, env, numCpu, Configured(before, env, numCpu).uidBase))
  {
    CpusMakeChannel(before, cpuSet, env, numCpu);
    ChannelKept(before + [WithCPUs(cpuSet)], after, env, numCpu);
  }

  lemma AroundLastCpus(opts: seq<PoolOption>, k: nat)
    requires IsLastCpus(opts, k)
    ensures opts == opts[..k] + [WithCPUs(opts[k].cpuSet)] + opts[k + 1..]
    ensures forall o :: o in opts[k + 1..] ==> o.WithSlotUIDs?
  {
  }

  /**
   For every list of options: the channel is the one the last CPU set makes, with the last base set before it;
   a base set later has no effect on it.
   */
  lemma OrderOfOptions(opts: seq<PoolOption>, env: string, numCpu: nat, k: nat)
    requires IsLastCpus(opts, k)
    ensures exists b ::
      IsLastBase(opts[..k], b) && Configured(opts, env, numCpu).ch == Some(Slots(opts[k].cpuSet, env, numCpu, b))
  {
    BaseOfOptions(opts[..k], env, numCpu);
    AroundLastCpus(opts, k);
    ChannelOfOptions(opts[..k], opts[k].cpuSet, opts[k + 1..], env, numCpu);
  }

  /** Without a CPU set among the options no channel is made. */
  lemma {:induction false} NoChannelYet(opts: seq<PoolOption>, env: string, numCpu: nat)
    ensures Configured(opts, env, numCpu).ch.None? <==> forall k :: 0 <= k < |opts| ==> !opts[k].WithCPUs?
    decreases |opts|
  {
    if opts != [] {
      NoChannelYet(opts[..|opts| - 1], env, numCpu);
    }
  }

  // ---------- Allocating and releasing ----------

  /** Releasing: the flag is swapped, the slot is not yet back in the channel. */
  datatype Phase = Held | Releasing | Returned

  datatype Allocation = Allocation(slot: Slot, phase: Phase)

  /** The channel's buffer and every allocation ever made. */
  datatype State = State(free: seq<Slot>, allocs: seq<Allocation>)

  /** The atomic steps of any number of goroutines; Release is a Swap and, if the swap succeeded, a Send. */
  datatype Event = Take | Cancel | Swap(i: nat) | Send(i: nat)

  predicate CanSend(s: State, i: nat) {
    i < |s.allocs| && s.allocs[i].phase.Releasing?
  }

  /** The state after an event; an event that cannot happen, or whose swap fails, changes nothing. */
  function Next(s: State, e: Event): State {
    match e
    case Take => if s.free == [] then s else State(s.free[1..], s.allocs + [Allocation(s.free[0], Held)])
    case Cancel => s
    case Swap(i) =>
      if i < |s.allocs| && s.allocs[i].phase.Held? then
        s.(allocs := s.allocs[i := s.allocs[i].(phase := Releasing)]) else s
    case Send(i) =>
      if CanSend(s, i) then State(s.free + [s.allocs[i].slot], s.allocs[i := s.allocs[i].(phase := Returned)]) else s
  }

  function Run(slots: seq<Slot>, events: seq<Event>): State {
    if events == [] then State(slots, []) else Next(Run(slots, events[..|events| - 1]), events[|events| - 1])
  }

  predicate IsOut(a: Allocation) {
    !a.phase.Returned?
  }

  /** How many allocations are out, that is, held or on their way back. */
  function OutCount(allocs: seq<Allocation>): nat {
    if allocs == [] then 0
    else OutCount(allocs[..|allocs| - 1]) + if IsOut(allocs[|allocs| - 1]) then 1 else 0
  }

  /** How many of them have slot x. */
  function OutWith(allocs: seq<Allocation>, x: Slot): nat {
    if allocs == [] then 0
    else
      var a := allocs[|allocs| - 1];
      OutWith(allocs[..|allocs| - 1], x) + if IsOut(a) && a.slot == x then 1 else 0
  }

  lemma {:induction false} OutUpdate(allocs: seq<Allocation>, i: nat, phase: Phase, x: Slot)
    requires i < |allocs| && allocs[i].phase != Returned
    ensures var allocs', back := allocs[i := allocs[i].(phase := phase)], if phase == Returned then 1 else 0;
      && OutCount(allocs') == OutCount(allocs) - back
      && OutWith(allocs', x) == OutWith(allocs, x) - if allocs[i].slot == x then back else 0
    decreases |allocs|
  {
    var n, a := |allocs| - 1, allocs[i].(phase := phase);
    if i < n {
      OutUpdate(allocs[..n], i, phase, x);
      assert allocs[i := a][..n] == allocs[..n][i := a];
    } else {
      assert allocs[i := a][..n] == allocs[..n];
    }
  }

  lemma {:induction false} OutHas(allocs: seq<Allocation>, i: nat)
    requires i < |allocs| && IsOut(allocs[i])
    ensures OutWith(allocs, allocs[i].slot) >= 1 && OutCount(allocs) >= 1
    decreases |allocs|
  {
    if i < |allocs| - 1 {
      OutHas(allocs[..|allocs| - 1], i);
    }
  }

  lemma {:induction false} OutHasTwice(allocs: seq<Allocation>, i: nat, j: nat)
    requires i < j < |allocs| && IsOut(allocs[i]) && IsOut(allocs[j]) && allocs[i].slot == allocs[j].slot
    ensures OutWith(allocs, allocs[i].slot) >= 2
    decreases |allocs|
  {
    if j < |allocs| - 1 {
      OutHasTwice(allocs[..|allocs| - 1], i, j);
    } else {
      OutHas(allocs[..j], i);
    }
  }

  lemma {:induction false} NoneOut(allocs: seq<Allocation>)
    ensures OutCount(allocs) == 0 <==> forall i :: 0 <= i < |allocs| ==> !IsOut(allocs[i])
    decreases |allocs|
  {
    if allocs != [] {
      NoneOut(allocs[..|allocs| - 1]);
    }
  }

  /** Free slots and slots that are out make up the initial slots, each as often as it was there. */
  ghost predicate Conserves(slots: seq<Slot>, s: State) {
    && |s.free| + OutCount(s.allocs) == |slots|
    && forall x :: Balanced(slots, s, x)
  }

  ghost predicate Balanced(slots: seq<Slot>, s: State, x: Slot) {
    multiset(s.free)[x] + OutWith(s.allocs, x) == multiset(slots)[x]
  }

  /** A slot that is taken and released is at the end of the queue again, and the allocation is over. */
  lemma TakeThenRelease(s: State)
    requires s.free != []
    ensures var taken := Next(s, Take);
      && taken.allocs == s.allocs + [Allocation(s.free[0], Held)] && taken.free == s.free[1..]
      && Next(Next(taken, Swap(|s.allocs|)), Send(|s.allocs|))
           == State(s.free[1..] + [s.free[0]], s.allocs + [Allocation(s.free[0], Returned)])
  {
    var i := |s.allocs|;
    var taken := Next(s, Take);
    var swapped := Next(taken, Swap(i));
    assert swapped.allocs == s.allocs + [Allocation(s.free[0], Releasing)];
    assert Next(swapped, Send(i)).allocs == s.allocs + [Allocation(s.free[0], Returned)];
  }

  /** The slot that is the k-th to be taken when n allocations were made and released one after the other. */
  function InTurn(slots: seq<Slot>, allocs: seq<Allocation>, k: nat): Slot
    requires k < |slots| + |allocs|
  {
    if k < |slots| then slots[k] else allocs[k - |slots|].slot
  }

  predicate TookTurns(slots: seq<Slot>, s: State, n: nat) {
    && |s.allocs| == n && |s.free| == |slots|
    && (forall j :: 0 <= j < |slots| ==> s.free[j] == InTurn(slots, s.allocs, n + j))
    && forall k :: 0 <= k < n ==> s.allocs[k] == Allocation(InTurn(slots, s.allocs, k), Returned)
  }

  /** Programs that run one after the other get the initial slots in order, and then each the one longest unused. */
  lemma {:induction false} TakesInTurn(slots: seq<Slot>, n: nat) returns (events: seq<Event>)
    requires slots != []
    ensures TookTurns(slots, Run(slots, events), n)
    decreases n
  {
    events := [];
    if n > 0 {
      events := TakesInTurn(slots, n - 1);
      OneMoreTurn(slots, Run(slots, events), n - 1);
      RunsOne(slots, events, Take);
      events := events + [Take];
      RunsOne(slots, events, Swap(n - 1));
      events := events + [Swap(n - 1)];
      RunsOne(slots, events, Send(n - 1));
      events := events + [Send(n - 1)];
    }
  }

  lemma OneMoreTurn(slots: seq<Slot>, s: State, n: nat)
    requires slots != [] && TookTurns(slots, s, n)
    ensures TookTurns(slots, Next(Next(Next(s, Take), Swap(n)), Send(n)), n + 1)
  {
    TakeThenRelease(s);
    var m, t := |slots|, Next(Next(Next(s, Take), Swap(n)), Send(n));
    assert t.allocs == s.allocs + [Allocation(s.free[0], Returned)];
    assert forall k: nat :: k < m + n ==> InTurn(slots, t.allocs, k) == InTurn(slots, s.allocs, k);
    assert t.free == s.free[1..] + [s.free[0]];
    forall j | 0 <= j < m
      ensures t.free[j] == InTurn(slots, t.allocs, n + 1 + j)
    {
      if j < m - 1 {
        assert t.free[j] == s.free[j + 1];
      } else {
        assert t.free[j] == s.free[0] == t.allocs[n].slot;
      }
    }
    assert s.free[0] == InTurn(slots, s.allocs, n + 0);
    forall k | 0 <= k < n + 1
      ensures t.allocs[k] == Allocation(InTurn(slots, t.allocs, k), Returned)
    {
      assert k < n ==> t.allocs[k] == s.allocs[k];
    }
  }

  lemma RunsOne(slots: seq<Slot>, events: seq<Event>, e: Event)
    ensures Run(slots, events + [e]) == Next(Run(slots, events), e)
  {
    assert (events + [e])[..|events|] == events;
  }

  lemma StepConserves(slots: seq<Slot>, s: State, e: Event, x: Slot)
    requires |s.free| + OutCount(s.allocs) == |slots| && Balanced(slots, s, x)
    ensures |Next(s, e).free| + OutCount(Next(s, e).allocs) == |slots| && Balanced(slots, Next(s, e), x)
  {
    match e
    case Take =>
      if s.free != [] {
        var a := Allocation(s.free[0], Held);
        assert (s.allocs + [a])[..|s.allocs|] == s.allocs;
        assert s.free == [s.free[0]] + s.free[1..];
      }
    case Cancel =>
    case Swap(i) =>
      if i < |s.allocs| && s.allocs[i].phase.Held? {
        OutUpdate(s.allocs, i, Releasing, x);
      }
    case Send(i) =>
      if CanSend(s, i) {
        OutUpdate(s.allocs, i, Returned, x);
      }
  }

  /** In every interleaving, free slots and slots that are out make up exactly the initial slots. */
  lemma {:induction false} RunConserves(slots: seq<Slot>, events: seq<Event>)
    ensures Conserves(slots, Run(slots, events))
    decreases |events|
  {
    if events != [] {
      var s, e := Run(slots, events[..|events| - 1]), events[|events| - 1];
      RunConserves(slots, events[..|events| - 1]);
      forall x
        ensures |Next(s, e).free| + OutCount(Next(s, e).allocs) == |slots| && Balanced(slots, Next(s, e), x)
      {
        StepConserves(slots, s, e, x);
      }
      StepConserves(slots, s, e, Slot("", "", 0, 0));
    }
  }

  /** The send in Release never blocks: the channel, made for the initial slots, has room. */
  lemma SendNeverBlocks(slots: seq<Slot>, events: seq<Event>, i: nat)
    requires CanSend(Run(slots, events), i)
    ensures |Run(slots, events).free| < |slots|
  {
    RunConserves(slots, events);
    OutHas(Run(slots, events).allocs, i);
  }

  /** Allocate waits exactly while as many allocations are out as there are slots. */
  lemma WaitsWhileAllAreOut(slots: seq<Slot>, events: seq<Event>)
    ensures Run(slots, events).free == [] <==> OutCount(Run(slots, events).allocs) == |slots|
  {
    RunConserves(slots, events);
  }

  /** The pool is as it was, up to the order of the slots, exactly when every allocation has been released. */
  lemma AllReturned(slots: seq<Slot>, events: seq<Event>)
    ensures multiset(Run(slots, events).free) == multiset(slots) <==>
      forall i :: 0 <= i < |Run(slots, events).allocs| ==> !IsOut(Run(slots, events).allocs[i])
  {
    var s := Run(slots, events);
    RunConserves(slots, events);
    NoneOut(s.allocs);
    assert |multiset(s.free)| == |s.free| && |multiset(slots)| == |slots|;
    if OutCount(s.allocs) == 0 {
      forall x
        ensures multiset(s.free)[x] == multiset(slots)[x]
      {
        assert Balanced(slots, s, x);
        OutWithAtMost(s.allocs, x);
      }
    }
  }

  lemma {:induction false} OutWithAtMost(allocs: seq<Allocation>, x: Slot)
    ensures OutWith(allocs, x) <= OutCount(allocs)
    decreases |allocs|
  {
    if allocs != [] {
      OutWithAtMost(allocs[..|allocs| - 1], x);
    }
  }

  /** Allocations i and j are out at the same time. */
  predicate BothOut(s: State, i: nat, j: nat) {
    i < |s.allocs| && j < |s.allocs| && i != j && IsOut(s.allocs[i]) && IsOut(s.allocs[j])
  }

  /** When the initial slots differ, no slot is ever out twice, or out and free. */
  lemma NoSlotIsShared(slots: seq<Slot>, events: seq<Event>, i: nat, j: nat)
    requires NoRepeats(slots) && BothOut(Run(slots, events), i, j)
    ensures var s := Run(slots, events);
      s.allocs[i].slot != s.allocs[j].slot && s.allocs[i].slot !in s.free && s.allocs[i].slot in slots
  {
    var s := Run(slots, events);
    var x := s.allocs[i].slot;
    RunConserves(slots, events);
    assert Balanced(slots, s, x);
    OccursOnce(slots, x);
    OutHas(s.allocs, i);
    if s.allocs[j].slot == x {
      OutHasTwice(s.allocs, if i < j then i else j, if i < j then j else i);
    }
    assert x in s.free ==> x in multiset(s.free);
    assert x in multiset(slots);
  }

  /** With a UID base, two programs that run at the same time never have the same UID. */
  lemma LiveUidsDiffer(cpuSet: string, env: string, numCpu: nat, uidBase: int, events: seq<Event>, i: nat, j: nat)
    requires uidBase != 0 && BothOut(Run(Slots(cpuSet, env, numCpu, uidBase), events), i, j)
    ensures var s := Run(Slots(cpuSet, env, numCpu, uidBase), events); s.allocs[i].slot.uid != s.allocs[j].slot.uid
  {
    var slots := Slots(cpuSet, env, numCpu, uidBase);
    UidsAreDistinct(cpuSet, env, numCpu, uidBase);
    DistinctUidsDiffer(slots, events, i, j);
  }

  lemma DistinctUidsDiffer(slots: seq<Slot>, events: seq<Event>, i: nat, j: nat)
    requires forall k, l :: 0 <= k < l < |slots| ==> slots[k].uid != slots[l].uid
    requires BothOut(Run(slots, events), i, j)
    ensures Run(slots, events).allocs[i].slot.uid != Run(slots, events).allocs[j].slot.uid
  {
    NoSlotIsShared(slots, events, i, j);
    NoSlotIsShared(slots, events, j, i);
    var a, b := Run(slots, events).allocs[i].slot, Run(slots, events).allocs[j].slot;
    var k :| 0 <= k < |slots| && slots[k] == a;
    var l :| 0 <= l < |slots| && slots[l] == b;
    assert k != l;
  }

  /** A second release of an allocation, or a late send, changes nothing. */
  lemma ReturnedForGood(slots: seq<Slot>, events: seq<Event>, i: nat, e: Event)
    requires i < |Run(slots, events).allocs| && Run(slots, events).allocs[i].phase.Returned?
    ensures var s, s' := Run(slots, events), Run(slots, events + [e]);
      && i < |s'.allocs| && s'.allocs[i] == s.allocs[i]
      && (e == Swap(i) || e == Send(i) ==> s' == s)
  {
    assert (events + [e])[..|events|] == events;
  }
}
