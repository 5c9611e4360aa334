/** The packet filter: the machine, the interpreter loop and the program check (kernel/bpf_filt.c). */
module Bpf {
  import opened Common
  import opened TcpTypes

  const WORDS := 16

  /** `jt` and `jf` are unsigned bytes, `k` is a signed 32-bit word. */
  datatype Insn = Insn(code: nat, jt: nat, jf: nat, k: int)

  /** Accumulator, index register and scratch memory hold signed 32-bit words. */
  datatype Machine = Machine(pc: int, a: int, x: int, mem: seq<int>)

  datatype Fault = BadPc | BadMem | DivideByZero | BadRead

  datatype Outcome = Running(m: Machine) | Returned(value: nat) | Faulted(fault: Fault)

  // ---------------------------------------------------------------- words

  /** The low 32 bits as a signed word. */
  function Wrap(v: int): (w: int)
    ensures -HALF <= w < HALF && (-HALF <= v < HALF ==> w == v)
  {
    (v + HALF) % WORD - HALF
  }

  /** The same word read as unsigned. */
  function Unsigned(v: int): (u: nat)
    ensures u < WORD
  {
    v % WORD
  }

  function Bits(v: int): bv32 { Unsigned(v) as bv32 }

  function And(v: int, w: int): int { Wrap((Bits(v) & Bits(w)) as int) }

  function Or(v: int, w: int): int { Wrap((Bits(v) | Bits(w)) as int) }

  function Power(n: nat): nat { if n == 0 then 1 else 2 * Power(n - 1) }

  /** Shift counts are taken modulo 64, as the processor does. */
  function ShiftLeft(v: int, n: int): int { Wrap(v * Power(n % 64)) }

  function ShiftRight(v: int, n: int): int {
    var p := Power(n % 64);
    if p == 0 then 0 else v / p
  }

  /** Division truncates towards zero. */
  function Divide(v: int, w: int): int
    requires w != 0
  {
    var q := (if v < 0 then -v else v) / (if w < 0 then -w else w);
    Wrap(if (v < 0) == (w < 0) then q else -q)
  }

  // ---------------------------------------------------------------- reading the packet

  /** `n` bytes at offset `k` pass the check, whose addition wraps around. */
  predicate PassesCheck(p: seq<Byte>, k: nat, n: nat) { (k + n) % WORD <= |p| }

  /** A check that passes means the bytes are there exactly if the addition does not wrap. */
  lemma {:induction false} CheckedReadIsInside(p: seq<Byte>, k: nat, n: nat)
    requires k < WORD && n <= 4 && |p| < WORD && PassesCheck(p, k, n)
    ensures k + n <= |p| <==> k + n < WORD
  {
  }

  function BigEndian(s: seq<Byte>): nat {
    if |s| == 0 then 0 else BigEndian(s[..|s| - 1]) * 256 + s[|s| - 1] as nat
  }

  /** Loads `n` bytes into the accumulator; outside the packet the filter returns 0. */
  function Load(m: Machine, p: seq<Byte>, k: nat, n: nat): Outcome {
    if n == 1 && k >= |p| then Returned(0)
    else if n > 1 && !PassesCheck(p, k, n) then Returned(0)
    else if k + n <= |p| then Running(m.(pc := m.pc + 1, a := Wrap(BigEndian(p[k..k + n]))))
    else Faulted(BadRead)
  }

  // ---------------------------------------------------------------- instructions by class

  function StepLoad(i: Insn, m: Machine, p: seq<Byte>, wirelen: nat): Outcome {
    match i.code
    case 0x20 => Load(m, p, Unsigned(i.k), 4)
    case 0x28 => Load(m, p, Unsigned(i.k), 2)
    case 0x30 => Load(m, p, Unsigned(i.k), 1)
    case 0x40 => Load(m, p, Unsigned(m.x + i.k), 4)
    case 0x48 => Load(m, p, Unsigned(m.x + i.k), 2)
    case 0x50 => Load(m, p, Unsigned(m.x + i.k), 1)
    case 0x80 => Running(m.(pc := m.pc + 1, a := Wrap(wirelen)))
    case 0x00 => Running(m.(pc := m.pc + 1, a := i.k))
    case 0x60 => if 0 <= i.k < |m.mem| then Running(m.(pc := m.pc + 1, a := m.mem[i.k])) else Faulted(BadMem)
    case _ => Returned(0)
  }

  function StepLoadX(i: Insn, m: Machine, p: seq<Byte>, wirelen: nat): Outcome {
    match i.code
    case 0x81 => Running(m.(pc := m.pc + 1, x := Wrap(wirelen)))
    case 0xb1 =>
      var k := Unsigned(i.k);
      if k >= |p| then Returned(0) else Running(m.(pc := m.pc + 1, x := (p[k] as int) % 16 * 4))
    case 0x01 => Running(m.(pc := m.pc + 1, x := i.k))
    case 0x61 => if 0 <= i.k < |m.mem| then Running(m.(pc := m.pc + 1, x := m.mem[i.k])) else Faulted(BadMem)
    case _ => Returned(0)
  }

  function StepStore(i: Insn, m: Machine, code: nat, value: int): Outcome {
    if i.code != code then Returned(0)
    else if 0 <= i.k < |m.mem| then Running(m.(pc := m.pc + 1, mem := m.mem[i.k := value]))
    else Faulted(BadMem)
  }

  /** The operand of an arithmetic or jump instruction. */
  function Operand(i: Insn, m: Machine): int { if i.code / 8 % 2 == 1 then m.x else i.k }

  function StepAlu(i: Insn, m: Machine): Outcome {
    var v := Operand(i, m);
    if i.code == 0x3c && v == 0 then Returned(0)
    else if i.code == 0x34 && v == 0 then Faulted(DivideByZero)
    else
      var r := Alu(i.code, m.a, v);
      if r.Some? then Running(m.(pc := m.pc + 1, a := r.value)) else Returned(0)
  }

  function Alu(code: nat, a: int, v: int): Option<int>
    requires code == 0x34 || code == 0x3c ==> v != 0
  {
    match code
    case 0x04 => Some(Wrap(a + v)) case 0x0c => Some(Wrap(a + v))
    case 0x14 => Some(Wrap(a - v)) case 0x1c => Some(Wrap(a - v))
    case 0x24 => Some(Wrap(a * v)) case 0x2c => Some(Wrap(a * v))
    case 0x34 => Some(Divide(a, v)) case 0x3c => Some(Divide(a, v))
    case 0x44 => Some(Or(a, v)) case 0x4c => Some(Or(a, v))
    case 0x54 => Some(And(a, v)) case 0x5c => Some(And(a, v))
    case 0x64 => Some(ShiftLeft(a, v)) case 0x6c => Some(ShiftLeft(a, v))
    case 0x74 => Some(ShiftRight(a, v)) case 0x7c => Some(ShiftRight(a, v))
    case 0x84 => Some(Wrap(-a))
    case _ => None
  }

  /** Whether a conditional jump is taken; none for codes that are no jumps. */
  function Condition(code: nat, a: int, v: int): Option<bool> {
    match code
    case 0x15 => Some(a == v) case 0x1d => Some(a == v)
    case 0x25 => Some(a > v) case 0x2d => Some(a > v)
    case 0x35 => Some(a >= v) case 0x3d => Some(a >= v)
    case 0x45 => Some(And(a, v) != 0) case 0x4d => Some(And(a, v) != 0)
    case _ => None
  }

  function StepJump(i: Insn, m: Machine): Outcome {
    if i.code == 0x05 then Running(m.(pc := m.pc + 1 + i.k))
    else
      var c := Condition(i.code, m.a, Operand(i, m));
      if c.None? then Returned(0) else Running(m.(pc := m.pc + 1 + if c.value then i.jt else i.jf))
  }

  /** One instruction. */
  function Step(prog: seq<Insn>, p: seq<Byte>, wirelen: nat, m: Machine): Outcome {
    if !(0 <= m.pc < |prog|) then Faulted(BadPc) else
    var i := prog[m.pc];
    match i.code % 8
    case 0 => StepLoad(i, m, p, wirelen)
    case 1 => StepLoadX(i, m, p, wirelen)
    case 2 => StepStore(i, m, 0x02, m.a)
    case 3 => StepStore(i, m, 0x03, m.x)
    case 4 => StepAlu(i, m)
    case 5 => StepJump(i, m)
    case 6 => Returned(if i.code == 0x06 then Unsigned(i.k) else if i.code == 0x16 then Unsigned(m.a) else 0)
    case 7 =>
      if i.code == 0x07 then Running(m.(pc := m.pc + 1, x := m.a))
      else if i.code == 0x87 then Running(m.(pc := m.pc + 1, a := m.x))
      else Returned(0)
  }

  /** The outcome after at most `n` instructions. */
  function Run(prog: seq<Insn>, p: seq<Byte>, wirelen: nat, m: Machine, n: nat): Outcome
    decreases n
  {
    if n == 0 then Running(m) else
    var o := Step(prog, p, wirelen, m);
    if o.Running? then Run(prog, p, wirelen, o.m, n - 1) else o
  }

  // ---------------------------------------------------------------- the program check

  predicate JumpOk(i: Insn, at: nat, len: nat) {
    i.code % 8 == 5 ==>
      if i.code / 16 % 16 == 0 then Wrap(at + 1 + i.k) < len else at + 1 + i.jt < len && at + 1 + i.jf < len
  }

  predicate MemoryOk(i: Insn) { i.code % 8 == 2 || (i.code % 8 == 0 && i.code / 32 % 8 == 3) ==> 0 <= i.k < WORDS }

  predicate InsnOk(i: Insn, at: nat, len: nat) { JumpOk(i, at, len) && MemoryOk(i) && (i.code == 0x34 ==> i.k != 0) }

  /** What the check accepts. */
  ghost predicate Accepted(prog: seq<Insn>) {
    && |prog| > 0 && prog[|prog| - 1].code % 8 == 6
    && forall i :: 0 <= i < |prog| ==> InsnOk(prog[i], i, |prog|)
  }

  /** The program check; the source reads the last instruction, so there must be one. */
  method Validate(prog: seq<Insn>) returns (ok: bool)
    requires |prog| > 0
    ensures ok <==> Accepted(prog)
  {
    var i := 0;
    while i < |prog|
      invariant 0 <= i <= |prog| && forall j :: 0 <= j < i ==> InsnOk(prog[j], j, |prog|)
    {
      if !InsnOk(prog[i], i, |prog|) {
        return false;
      }
      i := i + 1;
    }
    return prog[|prog| - 1].code % 8 == 6;
  }

  // ---------------------------------------------------------------- what acceptance buys

  /** What the check forgets: backward or overflowing plain jumps, and scratch indexes of the index register. */
  predicate Tame(i: Insn, at: nat) {
    && (i.code == 0x05 ==> 0 <= i.k && at + 1 + i.k < HALF)
    && (i.code == 0x61 || i.code == 0x03 ==> 0 <= i.k < WORDS)
  }

  /** A step that ends the run, moves forward inside the program, or reads past the packet by wrap-around. */
  ghost predicate Safe(o: Outcome, pc: int, len: nat) {
    match o
    case Running(m) => pc < m.pc < len && |m.mem| == WORDS
    case Returned(_) => true
    case Faulted(f) => f == BadRead
  }

  lemma {:induction false} TameStepIsSafe(prog: seq<Insn>, p: seq<Byte>, wirelen: nat, m: Machine)
    requires Accepted(prog) && 0 <= m.pc < |prog| < HALF && |m.mem| == WORDS && Tame(prog[m.pc], m.pc)
    ensures Safe(Step(prog, p, wirelen, m), m.pc, |prog|)
  {
    var i := prog[m.pc];
    assert InsnOk(i, m.pc, |prog|);
    assert i.code % 8 != 6 ==> m.pc + 1 < |prog|;
    match i.code % 8
    case 0 => LoadIsSafe(i, m, p, wirelen, |prog|);
    case 1 => LoadXIsSafe(i, m, p, wirelen, |prog|);
    case 2 =>
    case 3 =>
    case 4 => AluIsSafe(i, m, |prog|);
    case 5 => JumpIsSafe(i, m, |prog|);
    case 6 =>
    case 7 =>
  }

  lemma {:induction false} LoadIsSafe(i: Insn, m: Machine, p: seq<Byte>, wirelen: nat, len: nat)
    requires MemoryOk(i) && i.code % 8 == 0 && |m.mem| == WORDS && m.pc + 1 < len
    ensures Safe(StepLoad(i, m, p, wirelen), m.pc, len)
  {
  }

  lemma {:induction false} LoadXIsSafe(i: Insn, m: Machine, p: seq<Byte>, wirelen: nat, len: nat)
    requires i.code == 0x61 ==> 0 <= i.k < WORDS
    requires |m.mem| == WORDS && m.pc + 1 < len
    ensures Safe(StepLoadX(i, m, p, wirelen), m.pc, len)
  {
  }

  lemma {:induction false} AluIsSafe(i: Insn, m: Machine, len: nat)
    requires i.code == 0x34 ==> i.k != 0
    requires |m.mem| == WORDS && m.pc + 1 < len
    ensures Safe(StepAlu(i, m), m.pc, len)
  {
  }

  lemma {:induction false} JumpIsSafe(i: Insn, m: Machine, len: nat)
    requires 0 <= m.pc && JumpOk(i, m.pc, len) && Tame(i, m.pc) && i.code % 8 == 5 && |m.mem| == WORDS
    ensures Safe(StepJump(i, m), m.pc, len)
  {
    if i.code == 0x05 {
      assert Wrap(m.pc + 1 + i.k) == m.pc + 1 + i.k;
    }
  }

  /** For an accepted program, an instruction is safe in every machine state exactly if it is tame. */
  lemma {:induction false} SafeIffTame(prog: seq<Insn>, p: seq<Byte>, wirelen: nat, at: nat)
    requires Accepted(prog) && at < |prog| < HALF && prog[at].k < HALF
    ensures Tame(prog[at], at) <==>
      forall m: Machine :: m.pc == at && |m.mem| == WORDS ==> Safe(Step(prog, p, wirelen, m), at, |prog|)
  {
    if Tame(prog[at], at) {
      forall m: Machine | m.pc == at && |m.mem| == WORDS ensures Safe(Step(prog, p, wirelen, m), at, |prog|) {
        TameStepIsSafe(prog, p, wirelen, m);
      }
    } else {
      var m := Machine(at, 0, 0, seq(WORDS, _ => 0));
      var i := prog[at];
      assert i.code == 0x05 || i.code == 0x61 || i.code == 0x03;
      assert !Safe(Step(prog, p, wirelen, m), at, |prog|);
    }
  }

  ghost predicate AllTame(prog: seq<Insn>) { forall i :: 0 <= i < |prog| ==> Tame(prog[i], i) }

  /** An accepted, tame program halts within as many steps as it has instructions left, without leaving its memory. */
  lemma {:induction false} Halts(prog: seq<Insn>, p: seq<Byte>, wirelen: nat, m: Machine, n: nat)
    requires Accepted(prog) && AllTame(prog) && 0 <= m.pc < |prog| < HALF && |m.mem| == WORDS
    requires |prog| - m.pc <= n
    ensures var o := Run(prog, p, wirelen, m, n); o.Returned? || o == Faulted(BadRead)
    decreases |prog| - m.pc
  {
    TameStepIsSafe(prog, p, wirelen, m);
    var o := Step(prog, p, wirelen, m);
    if o.Running? { Halts(prog, p, wirelen, o.m, n - 1); }
  }

  /** The interpreter loop; `scratch` is whatever the stack held before. No program accepts every packet. */
  method Filter(prog: seq<Insn>, p: seq<Byte>, wirelen: nat, scratch: seq<int>) returns (o: Outcome)
    requires |prog| > 0 ==> Accepted(prog) && AllTame(prog) && |prog| < HALF
    requires |scratch| == WORDS
    ensures |prog| == 0 ==> o == Returned(WORD - 1)
    ensures |prog| > 0 ==> o == Run(prog, p, wirelen, Machine(0, 0, 0, scratch), |prog|)
    ensures o.Returned? || o == Faulted(BadRead)
  {
    if |prog| == 0 {
      return Returned(WORD - 1);
    }
    var m := Machine(0, 0, 0, scratch);
    ghost var left := |prog|;
    Halts(prog, p, wirelen, m, left);
    o := Step(prog, p, wirelen, m);
    ghost var all := Run(prog, p, wirelen, m, left);
    while o.Running?
      invariant 0 <= m.pc < |prog| && |m.mem| == WORDS
      invariant o == Step(prog, p, wirelen, m)
      invariant |prog| - m.pc <= left && Run(prog, p, wirelen, m, left) == all
      decreases |prog| - m.pc
    {
      TameStepIsSafe(prog, p, wirelen, m);
      RunOneStep(prog, p, wirelen, m, left);
      m, left := o.m, left - 1;
      o := Step(prog, p, wirelen, m);
    }
    RunOneStep(prog, p, wirelen, m, left);
  }

  lemma {:induction false} RunOneStep(prog: seq<Insn>, p: seq<Byte>, wirelen: nat, m: Machine, n: nat)
    requires n > 0
    ensures var o := Step(prog, p, wirelen, m);
      Run(prog, p, wirelen, m, n) == if o.Running? then Run(prog, p, wirelen, o.m, n - 1) else o
  {
  }

  // ---------------------------------------------------------------- what the check lets through

  /** An accepted program that never halts. */
  lemma {:induction false} BackwardJumpLoops(p: seq<Byte>, wirelen: nat, m: Machine, n: nat)
    requires m.pc == 0
    ensures var prog := [Insn(0x05, 0, 0, -1), Insn(0x06, 0, 0, 0)];
      Accepted(prog) && Run(prog, p, wirelen, m, n) == Running(m)
  {
    var prog := [Insn(0x05, 0, 0, -1), Insn(0x06, 0, 0, 0)];
    if n > 0 {
      assert Step(prog, p, wirelen, m) == Running(m);
      BackwardJumpLoops(p, wirelen, m, n - 1);
    }
  }

  /** An accepted program that stores outside the scratch memory, and one that reads before the packet. */
  lemma {:induction false} AcceptedFaults(p: seq<Byte>, wirelen: nat, m: Machine)
    requires m.pc == 0 && |m.mem| == WORDS && 4 <= |p| < 1000
    ensures var prog := [Insn(0x03, 0, 0, 16), Insn(0x06, 0, 0, 0)];
      Accepted(prog) && Step(prog, p, wirelen, m) == Faulted(BadMem)
    ensures var prog := [Insn(0x20, 0, 0, -2), Insn(0x06, 0, 0, 0)];
      Accepted(prog) && Step(prog, p, wirelen, m) == Faulted(BadRead)
  {
  }
}
