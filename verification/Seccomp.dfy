/** The seccomp filter: from an allowlist of system calls to BPF code, and what the code decides. */
module Seccomp {

  /** The words of struct seccomp_data the filter loads, at offsets 0 and 4. */
  datatype Data = Data(nr: bv32, arch: bv32)

  const OFFSET_NR := 0
  const OFFSET_ARCH := 4
  const AUDIT_ARCH_X86_64: bv32 := 0xC000003E

  datatype Action = Allow | KillProcess

  /** Load a word of the data, jump forward on equality with a constant, return. */
  datatype Instr = Load(offset: nat) | JumpEq(k: bv32, jt: bv8, jf: bv8) | Ret(action: Action)

  /** The macro that allows one system call: two instructions, the second skipped unless the number matches. */
  function AllowSyscall(nr: bv32): seq<Instr> {
    [JumpEq(nr, 0, 1), Ret(Allow)]
  }

  function AllowAll(list: seq<bv32>): (code: seq<Instr>)
    ensures |code| == 2 * |list|
    ensures forall i :: 0 <= i < |list| ==> code[2 * i] == JumpEq(list[i], 0, 1) && code[2 * i + 1] == Ret(Allow)
  {
    if list == [] then []
    else
      var n := |list| - 1;
      AllowAll(list[..n]) + AllowSyscall(list[n])
  }

  function Header(): seq<Instr> {
    [Load(OFFSET_ARCH), JumpEq(AUDIT_ARCH_X86_64, 1, 0), Ret(KillProcess), Load(OFFSET_NR)]
  }

  function Filter(list: seq<bv32>): seq<Instr> {
    Header() + AllowAll(list) + [Ret(KillProcess)]
  }

  /** How a run ends: with an action, or outside the program. */
  datatype Result = Decided(action: Action) | Fault

  function LoadWord(data: Data, offset: nat): bv32 {
    if offset == OFFSET_NR then data.nr else if offset == OFFSET_ARCH then data.arch else 0
  }

  function Target(pc: nat, acc: bv32, i: Instr): (t: nat)
    requires i.JumpEq?
    ensures t > pc
  {
    pc + 1 + (if acc == i.k then i.jt else i.jf) as nat
  }

  /** The run from pc with accumulator acc; every jump is forward, so it ends. */
  function Exec(prog: seq<Instr>, data: Data, pc: nat, acc: bv32): Result
    decreases |prog| - pc
  {
    if pc >= |prog| then Fault
    else
      match prog[pc]
      case Ret(action) => Decided(action)
      case Load(offset) => Exec(prog, data, pc + 1, LoadWord(data, offset))
      case JumpEq(_, _, _) => Exec(prog, data, Target(pc, acc, prog[pc]), acc)
  }

  function Decide(list: seq<bv32>, data: Data): Result {
    Exec(Filter(list), data, 0, 0)
  }

  /** BPF_MAXINSNS */
  const MAX_INSTRUCTIONS := 4096

  /**
   The kernel's check of a classic filter: not too long, loads of whole words of the 64 bytes of data, jumps stay
   inside, and the last instruction returns.
   */
  predicate WellFormed(prog: seq<Instr>) {
    && 0 < |prog| <= MAX_INSTRUCTIONS && prog[|prog| - 1].Ret?
    && (forall pc :: 0 <= pc < |prog| && prog[pc].Load? ==> prog[pc].offset % 4 == 0 && prog[pc].offset < 64)
    && forall pc :: 0 <= pc < |prog| && prog[pc].JumpEq? ==>
         pc + 1 + prog[pc].jt as nat < |prog| && pc + 1 + prog[pc].jf as nat < |prog|
  }

  lemma {:induction false} WellFormedDecides(prog: seq<Instr>, data: Data, pc: nat, acc: bv32)
    requires WellFormed(prog) && pc < |prog|
    ensures Exec(prog, data, pc, acc).Decided?
    decreases |prog| - pc
  {
    match prog[pc]
    case Ret(_) =>
    case Load(offset) => WellFormedDecides(prog, data, pc + 1, LoadWord(data, offset));
    case JumpEq(_, _, _) => WellFormedDecides(prog, data, Target(pc, acc, prog[pc]), acc);
  }

  /** The filter passes the kernel's check exactly for lists of up to 2045 system calls; the source's has about 150. */
  lemma FilterIsWellFormed(list: seq<bv32>)
    ensures |Filter(list)| == 2 * |list| + 5
    ensures WellFormed(Filter(list)) <==> |list| <= 2045
  {
    var prog := Filter(list);
    forall pc | 4 <= pc < |prog|
      ensures !prog[pc].Load?
    {
      var i := (pc - 4) / 2;
      FilterAt(list, i);
      assert pc == 4 + 2 * i || pc == 5 + 2 * i;
    }
    forall pc | 0 <= pc < |prog| && prog[pc].JumpEq?
      ensures pc + 1 + prog[pc].jt as nat < |prog| && pc + 1 + prog[pc].jf as nat < |prog|
    {
      if pc >= 4 {
        var i := (pc - 4) / 2;
        FilterAt(list, i);
        assert pc == 4 + 2 * i || pc == 5 + 2 * i;
      }
    }
  }

  lemma FilterAt(list: seq<bv32>, i: nat)
    requires i <= |list|
    ensures var prog := Filter(list);
      && |prog| == 2 * |list| + 5
      && if i < |list| then prog[4 + 2 * i] == JumpEq(list[i], 0, 1) && prog[5 + 2 * i] == Ret(Allow)
         else prog[4 + 2 * i] == Ret(KillProcess)
  {
  }

  /** The pair of a system call skips its return unless the number matches. */
  lemma PairDecides(prog: seq<Instr>, data: Data, pc: nat, k: bv32)
    requires pc + 1 < |prog| && prog[pc] == JumpEq(k, 0, 1) && prog[pc + 1] == Ret(Allow)
    ensures Exec(prog, data, pc, data.nr)
         == if data.nr == k then Decided(Allow) else Exec(prog, data, pc + 2, data.nr)
  {
    assert Target(pc, data.nr, prog[pc]) == if data.nr == k then pc + 1 else pc + 2;
  }

  /** From the pair of entry i on, the code allows exactly the numbers in the rest of the list. */
  lemma {:induction false} ChainDecides(list: seq<bv32>, data: Data, i: nat)
    requires i <= |list|
    ensures Exec(Filter(list), data, 4 + 2 * i, data.nr)
         == Decided(if data.nr in list[i..] then Allow else KillProcess)
    decreases |list| - i
  {
    FilterAt(list, i);
    if i < |list| {
      assert list[i..] == [list[i]] + list[i + 1..];
      PairDecides(Filter(list), data, 4 + 2 * i, list[i]);
      ChainDecides(list, data, i + 1);
    }
  }

  /**
   For every list, the filter allows exactly the calls of x86-64 programs whose number is in the list, and kills
   for all others.
   */
  lemma FilterIsExact(list: seq<bv32>, data: Data)
    ensures Decide(list, data)
         == Decided(if data.arch == 0xC000_003E && data.nr in list then Allow else KillProcess)
  {
    var prog := Filter(list);
    assert prog[0] == Load(OFFSET_ARCH) && prog[1] == JumpEq(AUDIT_ARCH_X86_64, 1, 0);
    assert prog[2] == Ret(KillProcess) && prog[3] == Load(OFFSET_NR);
    assert Decide(list, data) == Exec(prog, data, 1, data.arch);
    if data.arch == AUDIT_ARCH_X86_64 {
      assert Exec(prog, data, 1, data.arch) == Exec(prog, data, 3, data.arch);
      ChainDecides(list, data, 0);
      assert list[0..] == list;
    } else {
      assert Target(1, data.arch, prog[1]) == 2;
      assert Exec(prog, data, 2, data.arch) == Decided(KillProcess);
    }
  }

  /** The order of the list and its repetitions, which the preprocessor conditions affect, do not matter. */
  lemma OrderIsIrrelevant(a: seq<bv32>, b: seq<bv32>, data: Data)
    requires data.nr in a <==> data.nr in b
    ensures Decide(a, data) == Decide(b, data)
  {
    FilterIsExact(a, data);
    FilterIsExact(b, data);
  }
}
