/** What the filter's instructions mean, read off the fields of their codes instead of off a table of codes. */
module BpfMeaning {
  import opened Common
  import opened TcpTypes
  import opened SeqSpace
  import opened Bpf

  // ---------------------------------------------------------------- decoding

  datatype Size = Four | Two | One

  datatype Relation = Equal | Greater | AtLeast | SomeBit

  datatype Operation = Plus | Minus | Times | Over | BitOr | BitAnd | Left | Right

  /** An instruction without its constant; `indexed` adds X to the address, `byX` takes X for the operand. */
  datatype Kind =
    | LoadPacket(size: Size, indexed: bool) | LoadLength | LoadConstant | LoadScratch
    | LoadXHeader | LoadXLength | LoadXConstant | LoadXScratch
    | StoreA | StoreX
    | Compute(op: Operation, byX: bool) | Negate
    | JumpAlways | JumpIf(rel: Relation, byX: bool)
    | ReturnConstant | ReturnA
    | CopyAToX | CopyXToA
    | Unknown

  /** Bits 0-2 are the class, bits 3-4 the size, bits 5-7 the mode of a load. */
  function DecodeLoad(mode: nat, size: nat): Kind {
    if (mode == 1 || mode == 2) && size < 3 then
      LoadPacket(if size == 0 then Four else if size == 1 then Two else One, mode == 2)
    else if size != 0 then Unknown
    else if mode == 0 then LoadConstant
    else if mode == 3 then LoadScratch
    else if mode == 4 then LoadLength
    else Unknown
  }

  function DecodeLoadX(mode: nat, size: nat): Kind {
    if mode == 5 && size == 2 then LoadXHeader
    else if size != 0 then Unknown
    else if mode == 0 then LoadXConstant
    else if mode == 3 then LoadXScratch
    else if mode == 4 then LoadXLength
    else Unknown
  }

  /** Bits 4-7 are the operation, bit 3 the source of the operand. */
  function DecodeAlu(op: nat, byX: bool): Kind {
    match op
    case 0 => Compute(Plus, byX)
    case 1 => Compute(Minus, byX)
    case 2 => Compute(Times, byX)
    case 3 => Compute(Over, byX)
    case 4 => Compute(BitOr, byX)
    case 5 => Compute(BitAnd, byX)
    case 6 => Compute(Left, byX)
    case 7 => Compute(Right, byX)
    case 8 => if byX then Unknown else Negate
    case _ => Unknown
  }

  function DecodeJump(op: nat, byX: bool): Kind {
    match op
    case 0 => if byX then Unknown else JumpAlways
    case 1 => JumpIf(Equal, byX)
    case 2 => JumpIf(Greater, byX)
    case 3 => JumpIf(AtLeast, byX)
    case 4 => JumpIf(SomeBit, byX)
    case _ => Unknown
  }

  function Decode(code: nat): Kind {
    var fields := code / 8;
    if code >= 256 then Unknown else
    match code % 8
    case 0 => DecodeLoad(fields / 4, fields % 4)
    case 1 => DecodeLoadX(fields / 4, fields % 4)
    case 2 => if fields == 0 then StoreA else Unknown
    case 3 => if fields == 0 then StoreX else Unknown
    case 4 => DecodeAlu(fields / 2, fields % 2 == 1)
    case 5 => DecodeJump(fields / 2, fields % 2 == 1)
    case 6 => if fields == 0 then ReturnConstant else if fields == 2 then ReturnA else Unknown
    case 7 => if fields == 0 then CopyAToX else if fields == 16 then CopyXToA else Unknown
  }

  // ---------------------------------------------------------------- meaning

  /** `r` is the signed 32-bit word of `v`. */
  predicate IsWord(r: int, v: int) { -HALF <= r < HALF && (r - v) % WORD == 0 }

  function Bytes(size: Size): nat { match size case Four => 4 case Two => 2 case One => 1 }

  /** The `size` bytes of the packet from `k` on, most significant first. */
  function Value(p: seq<Byte>, k: nat, size: Size): nat
    requires k + Bytes(size) <= |p|
  {
    match size
    case One => p[k] as nat
    case Two => p[k] as nat * 0x100 + p[k + 1] as nat
    case Four => p[k] as nat * 0x100_0000 + p[k + 1] as nat * 0x1_0000 + p[k + 2] as nat * 0x100 + p[k + 3] as nat
  }

  predicate SharesBit(a: int, v: int) { Bits(a) & Bits(v) != 0 }

  /** The relation of a conditional jump; words are compared as signed numbers. */
  predicate Holds(rel: Relation, a: int, v: int) {
    match rel
    case Equal => a == v
    case Greater => a > v
    case AtLeast => a >= v
    case SomeBit => SharesBit(a, v)
  }

  /** `q` is the quotient of `a` by `v`, rounded towards zero. */
  predicate Quotient(q: int, a: int, v: int) {
    var rest := a - q * v;
    && (if a < 0 then rest <= 0 else rest >= 0)
    && (if v < 0 then v < rest < -v else -v < rest < v)
  }

  /** `r` is the word that the operation makes of two words; shift counts are taken modulo 64. */
  ghost predicate Computes(op: Operation, a: int, v: int, r: int) {
    match op
    case Plus => IsWord(r, a + v)
    case Minus => IsWord(r, a - v)
    case Times => IsWord(r, a * v)
    case Over => exists q :: Quotient(q, a, v) && IsWord(r, q)
    case BitOr => IsWord(r, r) && Bits(r) == Bits(a) | Bits(v)
    case BitAnd => IsWord(r, r) && Bits(r) == Bits(a) & Bits(v)
    case Left => IsWord(r, a * Power(v % 64))
    case Right => r * Power(v % 64) <= a < (r + 1) * Power(v % 64)
  }

  /** Only the accumulator changes, and the next instruction follows. */
  predicate NextWithA(m: Machine, o: Outcome) { o.Running? && o.m == m.(pc := m.pc + 1, a := o.m.a) }

  predicate NextWithX(m: Machine, o: Outcome) { o.Running? && o.m == m.(pc := m.pc + 1, x := o.m.x) }

  /** What an instruction of kind `kind` and constant `k` makes of the machine. */
  ghost predicate Means(kind: Kind, i: Insn, m: Machine, p: seq<Byte>, wirelen: nat, o: Outcome) {
    match kind
    case LoadPacket(size, indexed) =>
      var at := Unsigned(if indexed then m.x + i.k else i.k);
      if at + Bytes(size) <= |p| then NextWithA(m, o) && IsWord(o.m.a, Value(p, at, size))
      else o == if size != One && (at + Bytes(size)) % WORD <= |p| then Faulted(BadRead) else Returned(0)
    case LoadLength => NextWithA(m, o) && IsWord(o.m.a, wirelen)
    case LoadConstant => NextWithA(m, o) && o.m.a == i.k
    case LoadScratch => if 0 <= i.k < |m.mem| then NextWithA(m, o) && o.m.a == m.mem[i.k] else o == Faulted(BadMem)
    case LoadXHeader =>
      if Unsigned(i.k) < |p| then NextWithX(m, o) && o.m.x == 4 * (p[Unsigned(i.k)] as int % 16) else o == Returned(0)
    case LoadXLength => NextWithX(m, o) && IsWord(o.m.x, wirelen)
    case LoadXConstant => NextWithX(m, o) && o.m.x == i.k
    case LoadXScratch => if 0 <= i.k < |m.mem| then NextWithX(m, o) && o.m.x == m.mem[i.k] else o == Faulted(BadMem)
    case StoreA =>
      if 0 <= i.k < |m.mem| then o == Running(m.(pc := m.pc + 1, mem := m.mem[i.k := m.a])) else o == Faulted(BadMem)
    case StoreX =>
      if 0 <= i.k < |m.mem| then o == Running(m.(pc := m.pc + 1, mem := m.mem[i.k := m.x])) else o == Faulted(BadMem)
    case Compute(op, byX) =>
      var v := if byX then m.x else i.k;
      if op.Over? && v == 0 then o == if byX then Returned(0) else Faulted(DivideByZero)
      else NextWithA(m, o) && Computes(op, m.a, v, o.m.a)
    case Negate => NextWithA(m, o) && IsWord(o.m.a, -m.a)
    case JumpAlways => o == Running(m.(pc := m.pc + 1 + i.k))
    case JumpIf(rel, byX) =>
      o == Running(m.(pc := m.pc + 1 + if Holds(rel, m.a, if byX then m.x else i.k) then i.jt else i.jf))
    case ReturnConstant => o.Returned? && o.value < WORD && IsWord(i.k, o.value)
    case ReturnA => o.Returned? && o.value < WORD && IsWord(m.a, o.value)
    case CopyAToX => NextWithX(m, o) && o.m.x == m.a
    case CopyXToA => NextWithA(m, o) && o.m.a == m.x
    case Unknown => o == Returned(0)
  }

  /** Constant, accumulator and index register hold words. */
  predicate Words(i: Insn, m: Machine) { -HALF <= i.k < HALF && -HALF <= m.a < HALF && -HALF <= m.x < HALF }

  // ---------------------------------------------------------------- words

  lemma {:induction false} WrapIsWord(v: int)
    ensures IsWord(Wrap(v), v)
  {
    assert Wrap(v) == Signed(v);
  }

  lemma {:induction false} UnsignedIsWord(v: int)
    requires -HALF <= v < HALF
    ensures IsWord(v, Unsigned(v))
  {
  }

  lemma {:induction false} WordBits(x: bv32)
    ensures Bits(Wrap(x as int)) == x
  {
    hide Wrap, Unsigned;
    UnsignedWrap(x as int);
    ThereAndBack(x);
  }

  lemma {:induction false} UnsignedWrap(n: nat)
    requires n < WORD
    ensures Unsigned(Wrap(n)) == n
  {
    assert Wrap(n) == if n < HALF then n else n - WORD;
  }

  lemma {:induction false} ThereAndBack(x: bv32)
    ensures (x as int) as bv32 == x
  {
  }

  lemma {:induction false} AndBits(a: int, v: int)
    ensures Bits(And(a, v)) == Bits(a) & Bits(v) && IsWord(And(a, v), And(a, v))
    ensures And(a, v) != 0 <==> SharesBit(a, v)
  {
    WordBits(Bits(a) & Bits(v));
  }

  lemma {:induction false} OrBits(a: int, v: int)
    ensures Bits(Or(a, v)) == Bits(a) | Bits(v) && IsWord(Or(a, v), Or(a, v))
  {
    WordBits(Bits(a) | Bits(v));
  }

  lemma {:induction false} Euclid(n: int, d: int)
    requires d > 0
    ensures n == (n / d) * d + n % d && 0 <= n % d < d
  {
  }

  lemma {:induction false} Signs(q: int, d: int)
    ensures -q * d == -(q * d) && q * -d == -(q * d) && -q * -d == q * d
  {
  }

  lemma {:induction false} QuotientOf(a: int, v: int, n: int, d: int, q: int)
    requires v != 0 && n == (if a < 0 then -a else a) && d == if v < 0 then -v else v
    requires q == if (a < 0) == (v < 0) then n / d else -(n / d)
    ensures Quotient(q, a, v)
  {
    Euclid(n, d);
    var m, r := n / d, n % d;
    Signs(m, d);
    assert q * v == if a < 0 then -(m * d) else m * d;
  }

  lemma {:induction false} DivideIsQuotient(a: int, v: int)
    requires v != 0
    ensures Computes(Over, a, v, Divide(a, v))
  {
    hide Wrap, Quotient;
    var n, d := if a < 0 then -a else a, if v < 0 then -v else v;
    var q := if (a < 0) == (v < 0) then n / d else -(n / d);
    QuotientOf(a, v, n, d, q);
    WrapIsWord(q);
    assert Divide(a, v) == Wrap(q);
  }

  lemma {:induction false} PowerPositive(n: nat)
    ensures Power(n) > 0
  {
    if n > 0 { PowerPositive(n - 1); }
  }

  lemma {:induction false} ShiftIsQuotient(a: int, v: int)
    ensures Computes(Right, a, v, ShiftRight(a, v))
  {
    var d := Power(v % 64);
    PowerPositive(v % 64);
    assert a == d * (a / d) + a % d;
  }

  lemma {:induction false} ArithmeticComputes(op: Operation, a: int, v: int)
    requires -HALF <= a < HALF && (op.Over? ==> v != 0)
    ensures var r := match op
        case Plus => Wrap(a + v) case Minus => Wrap(a - v) case Times => Wrap(a * v) case Over => Divide(a, v)
        case BitOr => Or(a, v) case BitAnd => And(a, v) case Left => ShiftLeft(a, v) case Right => ShiftRight(a, v);
      Computes(op, a, v, r)
  {
    hide Wrap, Divide, Or, And, ShiftRight;
    match op
    case Plus => WrapIsWord(a + v);
    case Minus => WrapIsWord(a - v);
    case Times => WrapIsWord(a * v);
    case Over => DivideIsQuotient(a, v);
    case BitOr => OrBits(a, v);
    case BitAnd => AndBits(a, v);
    case Left => WrapIsWord(a * Power(v % 64));
    case Right => ShiftIsQuotient(a, v);
  }

  lemma {:induction false} BigEndianIsValue(p: seq<Byte>, k: nat, size: Size)
    requires k + Bytes(size) <= |p|
    ensures BigEndian(p[k..k + Bytes(size)]) == Value(p, k, size)
  {
    var s := p[k..k + Bytes(size)];
    assert forall i: nat :: i <= |s| ==> s[..i] == p[k..k + i];
    match size
    case One => assert BigEndian(s[..0]) == 0;
    case Two => BigEndianSteps(s[..1]);
    case Four =>
      BigEndianSteps(s[..1]);
      BigEndianSteps(s[..2]);
      BigEndianSteps(s[..3]);
      assert s[..3][..2] == s[..2] && s[..2][..1] == s[..1];
  }

  lemma {:induction false} BigEndianSteps(s: seq<Byte>)
    requires |s| > 0
    ensures BigEndian(s) == BigEndian(s[..|s| - 1]) * 256 + s[|s| - 1] as nat
    ensures |s| == 1 ==> BigEndian(s) == s[0] as nat
  {
  }

  // ---------------------------------------------------------------- every instruction means what its code says

  /** A code is put together from its fields. */
  lemma {:induction false} CodeParts(code: nat)
    ensures code == 32 * (code / 8 / 4) + 8 * (code / 8 % 4) + code % 8
    ensures code == 16 * (code / 8 / 2) + 8 * (code / 8 % 2) + code % 8
  {
    Euclid(code, 8);
    Euclid(code / 8, 4);
    Euclid(code / 8, 2);
  }

  lemma {:induction false} LoadMeans(m: Machine, p: seq<Byte>, at: nat, size: Size)
    ensures var o := Load(m, p, at, Bytes(size));
      if at + Bytes(size) <= |p| then NextWithA(m, o) && IsWord(o.m.a, Value(p, at, size))
      else o == if size != One && (at + Bytes(size)) % WORD <= |p| then Faulted(BadRead) else Returned(0)
  {
    hide Wrap, BigEndian;
    if at + Bytes(size) <= |p| {
      BigEndianIsValue(p, at, size);
      WrapIsWord(Value(p, at, size));
    }
  }

  lemma {:induction false} LoadsMean(i: Insn, m: Machine, p: seq<Byte>, wirelen: nat)
    requires i.code % 8 == 0 && Words(i, m)
    ensures Means(Decode(i.code), i, m, p, wirelen, StepLoad(i, m, p, wirelen))
  {
    hide Load, Wrap, Value, Computes, IsWord;
    CodeParts(i.code);
    WrapIsWord(wirelen);
    LoadMeans(m, p, Unsigned(i.k), Four);
    LoadMeans(m, p, Unsigned(i.k), Two);
    LoadMeans(m, p, Unsigned(i.k), One);
    LoadMeans(m, p, Unsigned(m.x + i.k), Four);
    LoadMeans(m, p, Unsigned(m.x + i.k), Two);
    LoadMeans(m, p, Unsigned(m.x + i.k), One);
  }

  lemma {:induction false} LoadXsMean(i: Insn, m: Machine, p: seq<Byte>, wirelen: nat)
    requires i.code % 8 == 1 && Words(i, m)
    ensures Means(Decode(i.code), i, m, p, wirelen, StepLoadX(i, m, p, wirelen))
  {
    hide Wrap, Value, Computes, IsWord;
    CodeParts(i.code);
    WrapIsWord(wirelen);
  }

  lemma {:induction false} AluMeans(i: Insn, m: Machine, p: seq<Byte>, wirelen: nat)
    requires i.code % 8 == 4 && Words(i, m)
    ensures Means(Decode(i.code), i, m, p, wirelen, StepAlu(i, m))
  {
    hide Wrap, Divide, Or, And, ShiftLeft, ShiftRight, Computes, Value;
    CodeParts(i.code);
    var v := Operand(i, m);
    WrapIsWord(-m.a);
    var k := Decode(i.code);
    if k.Compute? && !(k.op.Over? && v == 0) { ArithmeticComputes(k.op, m.a, v); }
  }

  lemma {:induction false} ConditionMeans(code: nat, a: int, v: int)
    requires code % 8 == 5
    ensures var k := Decode(code); Condition(code, a, v) == if k.JumpIf? then Some(Holds(k.rel, a, v)) else None
  {
    hide And, SharesBit;
    CodeParts(code);
    AndBits(a, v);
  }

  lemma {:induction false} JumpsMean(i: Insn, m: Machine, p: seq<Byte>, wirelen: nat)
    requires i.code % 8 == 5 && Words(i, m)
    ensures Means(Decode(i.code), i, m, p, wirelen, StepJump(i, m))
  {
    hide Condition, Holds, Computes, Value;
    ConditionMeans(i.code, m.a, Operand(i, m));
  }

  /** One step does what the code says, for every code and every state of the machine. */
  lemma {:induction false} StepMeans(prog: seq<Insn>, p: seq<Byte>, wirelen: nat, m: Machine)
    requires 0 <= m.pc < |prog| && Words(prog[m.pc], m)
    ensures Means(Decode(prog[m.pc].code), prog[m.pc], m, p, wirelen, Step(prog, p, wirelen, m))
  {
    hide StepLoad, StepLoadX, StepAlu, StepJump, Computes, Value, DecodeLoad, DecodeLoadX, DecodeAlu, DecodeJump;
    var i := prog[m.pc];
    match i.code % 8
    case 0 => LoadsMean(i, m, p, wirelen);
    case 1 => LoadXsMean(i, m, p, wirelen);
    case 2 =>
    case 3 =>
    case 4 => AluMeans(i, m, p, wirelen);
    case 5 => JumpsMean(i, m, p, wirelen);
    case 6 =>
    case 7 =>
  }

  // ---------------------------------------------------------------- over a run

  /** Every register and scratch cell holds a word. */
  ghost predicate WordMachine(m: Machine) {
    -HALF <= m.a < HALF && -HALF <= m.x < HALF && forall j :: 0 <= j < |m.mem| ==> -HALF <= m.mem[j] < HALF
  }

  ghost predicate WordProgram(prog: seq<Insn>) { forall j :: 0 <= j < |prog| ==> -HALF <= prog[j].k < HALF }

  lemma {:induction false} TimesGrows(x: nat, d: nat)
    requires d > 0
    ensures x * d >= x
  {
    assert x * d == x * (d - 1) + x;
  }

  lemma {:induction false} RightStaysWord(a: int, v: int, r: int)
    requires -HALF <= a < HALF && Computes(Right, a, v, r)
    ensures -HALF <= r < HALF
  {
    PowerPositive(v % 64);
    FloorStaysWord(a, Power(v % 64), r);
  }

  lemma {:induction false} FloorStaysWord(a: int, d: nat, r: int)
    requires -HALF <= a < HALF && d > 0 && r * d <= a < (r + 1) * d
    ensures -HALF <= r < HALF
  {
    var x := if r >= 0 then r else -(r + 1);
    TimesGrows(x, d);
    Signs(x, d);
    assert (r + 1) * d == if r >= 0 then x * d + d else -(x * d);
  }

  /** Words stay words, so that the meaning above is that of every step of every run. */
  lemma {:induction false} StepKeepsWords(prog: seq<Insn>, p: seq<Byte>, wirelen: nat, m: Machine)
    requires 0 <= m.pc < |prog| && WordProgram(prog) && WordMachine(m)
    ensures var o := Step(prog, p, wirelen, m); o.Running? ==> WordMachine(o.m)
  {
    hide Step, Value, Quotient, DecodeLoad, DecodeLoadX, DecodeAlu, DecodeJump, Holds, Decode, Bits;
    StepMeans(prog, p, wirelen, m);
    var kind, i, o := Decode(prog[m.pc].code), prog[m.pc], Step(prog, p, wirelen, m);
    if kind.Compute? && kind.op.Right? && o.Running? {
      RightStaysWord(m.a, if kind.byX then m.x else i.k, o.m.a);
    }
  }

  /** Comparing as signed words is comparing the unsigned values exactly if both lie in the same half of the range. */
  lemma {:induction false} SignedOrderIffSameHalf(u: nat, v: nat)
    requires u < WORD && v < WORD && u != v
    ensures (Holds(Greater, Wrap(u), Wrap(v)) <==> u > v) <==> (u < HALF <==> v < HALF)
  {
  }
}
