/** The runner's seccomp filter: a compiler from a deny list to BPF, and the evaluator of the result.

    Both target configurations are covered, for deny lists of any length. */
module SeccompFilter {

  const TWO_32: nat := 0x1_0000_0000

  type U32 = n: nat | n < TWO_32 witness 0

  datatype Opcode = LoadWord | JumpIfEqual | JumpIfGreaterOrEqual | Return | Blank

  /** One `sock_filter`: opcode, the two relative jumps, and the constant. */
  datatype Instruction = Instruction(code: Opcode, jt: nat, jf: nat, k: U32)

  datatype Target = X86_64 | Aarch64

  const NR_OFFSET: U32 := 0
  const ARCH_OFFSET: U32 := 4
  const RET_ALLOW: U32 := 0x7fff_0000
  const RET_DENY: U32 := 0x0005_0001
  const RET_KILL_PROCESS: U32 := 0x8000_0000
  const X32_SYSCALL_BIT: U32 := 0x4000_0000

  function AuditArch(target: Target): U32 {
    if target.X86_64? then 0xc000_003e else 0xc000_00b7
  }

  function Preamble(target: Target): nat {
    if target.X86_64? then 6 else 4
  }

  /** A syscall number converted to 32 bits. */
  function AsU32(n: int): U32 {
    n % TWO_32
  }

  // ----- the compiler -----

  /** `filter` carries the preamble. */
  predicate HasPreamble(target: Target, filter: seq<Instruction>) {
    && |filter| >= Preamble(target)
    && filter[0] == Instruction(LoadWord, 0, 0, ARCH_OFFSET)
    && filter[1] == Instruction(JumpIfEqual, 1, 0, AuditArch(target))
    && filter[2] == Instruction(Return, 0, 0, RET_KILL_PROCESS)
    && filter[3] == Instruction(LoadWord, 0, 0, NR_OFFSET)
    && (target.X86_64? ==>
          && filter[4] == Instruction(JumpIfGreaterOrEqual, 0, 1, X32_SYSCALL_BIT)
          && filter[5] == Instruction(Return, 0, 0, RET_DENY))
  }

  /** From `at` on, a test and a denial for each of the first `n` numbers. */
  predicate HasTests(filter: seq<Instruction>, at: nat, denied: seq<int>, n: nat)
    requires n <= |denied|
  {
    && at + 2 * n <= |filter|
    && forall i :: 0 <= i < n ==>
         && filter[at + 2 * i] == Instruction(JumpIfEqual, 0, 1, AsU32(denied[i]))
         && filter[at + 2 * i + 1] == Instruction(Return, 0, 0, RET_DENY)
  }

  predicate IsProgram(target: Target, denied: seq<int>, filter: seq<Instruction>) {
    && |filter| == Preamble(target) + 2 * |denied| + 1
    && HasPreamble(target, filter)
    && HasTests(filter, Preamble(target), denied, |denied|)
    && filter[|filter| - 1] == Instruction(Return, 0, 0, RET_ALLOW)
  }

  /** `program`: fill a fixed-length array. */
  method Program(target: Target, denied: seq<int>) returns (filter: array<Instruction>)
    ensures fresh(filter) && IsProgram(target, denied, filter[..])
  {
    var length := Preamble(target) + 2 * |denied| + 1;
    filter := new Instruction[length](_ => Instruction(Blank, 0, 0, 0));
    filter[0] := Instruction(LoadWord, 0, 0, ARCH_OFFSET);
    filter[1] := Instruction(JumpIfEqual, 1, 0, AuditArch(target));
    filter[2] := Instruction(Return, 0, 0, RET_KILL_PROCESS);
    filter[3] := Instruction(LoadWord, 0, 0, NR_OFFSET);
    if target.X86_64? {
      filter[4] := Instruction(JumpIfGreaterOrEqual, 0, 1, X32_SYSCALL_BIT);
      filter[5] := Instruction(Return, 0, 0, RET_DENY);
    }
    var at, index := Preamble(target), 0;
    while index < |denied|
      invariant index <= |denied| && at == Preamble(target) + 2 * index
      invariant HasPreamble(target, filter[..]) && HasTests(filter[..], Preamble(target), denied, index)
    {
      ghost var before := filter[..];
      filter[at] := Instruction(JumpIfEqual, 0, 1, AsU32(denied[index]));
      filter[at + 1] := Instruction(Return, 0, 0, RET_DENY);
      OneMoreTest(target, denied, index, before, filter[..]);
      at := at + 2;
      index := index + 1;
    }
    filter[at] := Instruction(Return, 0, 0, RET_ALLOW);
  }

  lemma OneMoreTest(target: Target, denied: seq<int>, n: nat, before: seq<Instruction>, after: seq<Instruction>)
    requires n < |denied| && HasPreamble(target, before) && HasTests(before, Preamble(target), denied, n)
    requires |before| == |after| && Preamble(target) + 2 * n + 1 < |before|
    requires var at := Preamble(target) + 2 * n;
      && (forall i :: 0 <= i < at ==> after[i] == before[i])
      && after[at] == Instruction(JumpIfEqual, 0, 1, AsU32(denied[n]))
      && after[at + 1] == Instruction(Return, 0, 0, RET_DENY)
    ensures HasPreamble(target, after) && HasTests(after, Preamble(target), denied, n + 1)
  {
  }

  // ----- the evaluator -----

  datatype Outcome = Crash | Returns(k: U32)

  /** Run from `pc`. Leaving the program, an unknown opcode or an unknown offset is a crash. */
  function Evaluate(filter: seq<Instruction>, arch: U32, nr: U32, accumulator: U32, pc: nat): Outcome
    decreases |filter| - pc
  {
    if pc >= |filter| then Crash else
    var i := filter[pc];
    match i.code
    case LoadWord =>
      if i.k == NR_OFFSET then Evaluate(filter, arch, nr, nr, pc + 1)
      else if i.k == ARCH_OFFSET then Evaluate(filter, arch, nr, arch, pc + 1)
      else Crash
    case JumpIfEqual => Evaluate(filter, arch, nr, accumulator, pc + 1 + if accumulator == i.k then i.jt else i.jf)
    case JumpIfGreaterOrEqual =>
      Evaluate(filter, arch, nr, accumulator, pc + 1 + if accumulator >= i.k then i.jt else i.jf)
    case Return => Returns(i.k)
    case Blank => Crash
  }

  /** The evaluator's loop over the program counter and the accumulator. */
  method Run(filter: seq<Instruction>, arch: U32, nr: U32) returns (outcome: Outcome)
    ensures outcome == Evaluate(filter, arch, nr, 0, 0)
  {
    var accumulator: U32, pc := 0, 0;
    while true
      invariant Evaluate(filter, arch, nr, 0, 0) == Evaluate(filter, arch, nr, accumulator, pc)
      decreases |filter| - pc
    {
      if pc >= |filter| { return Crash; }
      var i := filter[pc];
      var taken;
      match i.code {
        case LoadWord =>
          if i.k == NR_OFFSET { accumulator := nr; }
          else if i.k == ARCH_OFFSET { accumulator := arch; }
          else { return Crash; }
          pc := pc + 1;
          continue;
        case JumpIfEqual => taken := accumulator == i.k;
        case JumpIfGreaterOrEqual => taken := accumulator >= i.k;
        case Return => return Returns(i.k);
        case Blank => return Crash;
      }
      pc := pc + 1 + if taken then i.jt else i.jf;
    }
  }

  // ----- what the program means -----

  predicate Listed(denied: seq<int>, nr: U32) {
    exists i :: 0 <= i < |denied| && AsU32(denied[i]) == nr
  }

  /** The policy: foreign ABIs die, listed numbers and the x32 numbers of x86-64 are denied. */
  function Policy(target: Target, denied: seq<int>, arch: U32, nr: U32): U32 {
    if arch != AuditArch(target) then RET_KILL_PROCESS
    else if (target.X86_64? && nr >= X32_SYSCALL_BIT) || Listed(denied, nr) then RET_DENY
    else RET_ALLOW
  }

  predicate ListedFrom(denied: seq<int>, nr: U32, i: nat) {
    exists j :: i <= j < |denied| && AsU32(denied[j]) == nr
  }

  /** Standing before the `i`-th test with the number loaded. */
  lemma {:induction false} TestsDecide(target: Target, denied: seq<int>, filter: seq<Instruction>, arch: U32, nr: U32,
                                       i: nat)
    requires IsProgram(target, denied, filter) && i <= |denied|
    ensures Evaluate(filter, arch, nr, nr, Preamble(target) + 2 * i)
         == Returns(if ListedFrom(denied, nr, i) then RET_DENY else RET_ALLOW)
    decreases |denied| - i
  {
    var pc := Preamble(target) + 2 * i;
    if i < |denied| {
      TestsDecide(target, denied, filter, arch, nr, i + 1);
      assert filter[pc] == Instruction(JumpIfEqual, 0, 1, AsU32(denied[i]));
      assert filter[pc + 1] == Instruction(Return, 0, 0, RET_DENY);
      assert Preamble(target) + 2 * (i + 1) == pc + 2;
    }
  }

  /** The built program, run on any architecture and number, never leaves itself and returns the policy. */
  lemma FilterImplementsPolicy(target: Target, denied: seq<int>, filter: seq<Instruction>, arch: U32, nr: U32)
    requires IsProgram(target, denied, filter)
    ensures Evaluate(filter, arch, nr, 0, 0) == Returns(Policy(target, denied, arch, nr))
  {
    TestsDecide(target, denied, filter, arch, nr, 0);
    assert Listed(denied, nr) <==> ListedFrom(denied, nr, 0);
    assert Evaluate(filter, arch, nr, 0, 0) == Evaluate(filter, arch, nr, arch, 1);
    if arch == AuditArch(target) {
      assert Evaluate(filter, arch, nr, arch, 1) == Evaluate(filter, arch, nr, arch, 3);
      assert Evaluate(filter, arch, nr, arch, 3) == Evaluate(filter, arch, nr, nr, 4);
      if target.X86_64? {
        var next := if nr >= X32_SYSCALL_BIT then 5 else 6;
        assert Evaluate(filter, arch, nr, nr, 4) == Evaluate(filter, arch, nr, nr, next);
      }
    } else {
      assert Evaluate(filter, arch, nr, arch, 1) == Evaluate(filter, arch, nr, arch, 2);
    }
  }
}
