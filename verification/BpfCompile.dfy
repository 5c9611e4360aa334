/** Boolean conditions on packet fields, as filter programs: the filter accepts exactly the packets that meet them. */
module BpfCompile {
  import opened Common
  import opened TcpTypes
  import opened Bpf
  import opened BpfMeaning

  /** A test compares the word that is loaded from a fixed place with a constant. */
  datatype Cond =
    | Test(at: nat, size: Size, rel: Relation, value: int)
    | Not(c: Cond)
    | Both(a: Cond, b: Cond)
    | Either(a: Cond, b: Cond)

  // ---------------------------------------------------------------- what a condition means

  /** Evaluated from left to right as far as needed; none if a field that is looked at is not in the packet. */
  function Eval(c: Cond, p: seq<Byte>): Option<bool> {
    match c
    case Test(at, size, rel, v) =>
      if at + Bytes(size) <= |p| then Some(Holds(rel, Wrap(Value(p, at, size)), v)) else None
    case Not(c) => var r := Eval(c, p); if r.Some? then Some(!r.value) else None
    case Both(a, b) => var r := Eval(a, p); if r == Some(true) then Eval(b, p) else r
    case Either(a, b) => var r := Eval(a, p); if r == Some(false) then Eval(b, p) else r
  }

  /** Every field that the condition might look at is in the packet. */
  predicate FieldsIn(c: Cond, p: seq<Byte>) {
    match c
    case Test(at, size, _, _) => at + Bytes(size) <= |p|
    case Not(c) => FieldsIn(c, p)
    case Both(a, b) => FieldsIn(a, p) && FieldsIn(b, p)
    case Either(a, b) => FieldsIn(a, p) && FieldsIn(b, p)
  }

  /** The condition as a formula. */
  predicate Meets(c: Cond, p: seq<Byte>)
    requires FieldsIn(c, p)
  {
    match c
    case Test(at, size, rel, v) => Holds(rel, Wrap(Value(p, at, size)), v)
    case Not(c) => !Meets(c, p)
    case Both(a, b) => Meets(a, p) && Meets(b, p)
    case Either(a, b) => Meets(a, p) || Meets(b, p)
  }

  lemma {:induction false} EvalIsFormula(c: Cond, p: seq<Byte>)
    requires FieldsIn(c, p)
    ensures Eval(c, p) == Some(Meets(c, p))
  {
    hide Wrap, Value, Holds;
    match c
    case Test(_, _, _, _) =>
    case Not(c) => EvalIsFormula(c, p);
    case Both(a, b) => EvalIsFormula(a, p); EvalIsFormula(b, p);
    case Either(a, b) => EvalIsFormula(a, p); EvalIsFormula(b, p);
  }

  // ---------------------------------------------------------------- the program of a condition

  function LoadCode(size: Size): nat { match size case Four => 0x20 case Two => 0x28 case One => 0x30 }

  function JumpCode(rel: Relation): nat { match rel case Equal => 0x15 case Greater => 0x25 case AtLeast => 0x35 case SomeBit => 0x45 }

  function Length(c: Cond): nat {
    match c
    case Test(_, _, _, _) => 2
    case Not(c) => Length(c)
    case Both(a, b) => Length(a) + Length(b)
    case Either(a, b) => Length(a) + Length(b)
  }

  /** Code that goes on `t` places behind its end if the condition holds and `f` places behind it if not. */
  function Code(c: Cond, t: nat, f: nat): (code: seq<Insn>)
    ensures |code| == Length(c)
  {
    match c
    case Test(at, size, rel, v) => [Insn(LoadCode(size), 0, 0, at), Insn(JumpCode(rel), t, f, v)]
    case Not(c) => Code(c, f, t)
    case Both(a, b) => Code(a, 0, Length(b) + f) + Code(b, t, f)
    case Either(a, b) => Code(a, Length(b) + t, 0) + Code(b, t, f)
  }

  /** Accepts `snap` bytes of the packets that meet the condition, and nothing of all others. */
  function Program(c: Cond, snap: nat): seq<Insn> {
    Code(c, 0, 1) + [Insn(0x06, 0, 0, snap), Insn(0x06, 0, 0, 0)]
  }

  /** Offsets and constants are words; the offsets are far enough from the end of the range for the check not to wrap. */
  predicate Encodable(c: Cond) {
    match c
    case Test(at, size, _, v) => at < HALF && -HALF <= v < HALF
    case Not(c) => Encodable(c)
    case Both(a, b) => Encodable(a) && Encodable(b)
    case Either(a, b) => Encodable(a) && Encodable(b)
  }

  // ---------------------------------------------------------------- running it

  /** The code of `c` lies in the program at place `at`. */
  ghost predicate LiesAt(prog: seq<Insn>, at: nat, code: seq<Insn>) {
    at + |code| <= |prog| && prog[at..at + |code|] == code
  }

  lemma {:induction false} LiesParts(prog: seq<Insn>, at: nat, a: seq<Insn>, b: seq<Insn>)
    requires LiesAt(prog, at, a + b)
    ensures LiesAt(prog, at, a) && LiesAt(prog, at + |a|, b)
  {
    var s := prog[at..at + |a + b|];
    assert s[..|a|] == a && s[|a|..] == b;
    assert prog[at..at + |a|] == s[..|a|];
    assert prog[at + |a|..at + |a| + |b|] == s[|a|..];
  }

  /** A test loads and jumps, or ends the run if the field is not there. */
  lemma {:induction false} TestRuns(prog: seq<Insn>, p: seq<Byte>, wirelen: nat, m: Machine, c: Cond, t: nat, f: nat)
    returns (m': Machine)
    requires c.Test? && Encodable(c) && |p| < HALF && 0 <= m.pc && LiesAt(prog, m.pc, Code(c, t, f))
    ensures var o := Step(prog, p, wirelen, m);
      var r := Eval(c, p);
      if r.None? then o == Returned(0)
      else o.Running? && o.m.pc == m.pc + 1 && Step(prog, p, wirelen, o.m) == Running(m') && m'.pc == m.pc + 2 + if r.value then t else f
  {
    hide Load, Wrap, Value, Holds, Condition;
    var i, j := prog[m.pc], prog[m.pc + 1];
    assert i == prog[m.pc..m.pc + 2][0] && j == prog[m.pc..m.pc + 2][1];
    LoadMeans(m, p, c.at, c.size);
    assert Step(prog, p, wirelen, m) == Load(m, p, c.at, Bytes(c.size));
    m' := m;
    if c.at + Bytes(c.size) <= |p| {
      var a := Wrap(Value(p, c.at, c.size));
      LoadsWord(m, p, c.at, c.size);
      ConditionMeans(j.code, a, c.value);
      m' := m.(pc := m.pc + 2 + (if Holds(c.rel, a, c.value) then t else f), a := a);
    }
  }

  lemma {:induction false} LoadsWord(m: Machine, p: seq<Byte>, at: nat, size: Size)
    requires at + Bytes(size) <= |p| < HALF
    ensures Load(m, p, at, Bytes(size)) == Running(m.(pc := m.pc + 1, a := Wrap(Value(p, at, size))))
  {
    hide Wrap, BigEndian;
    BigEndianIsValue(p, at, size);
  }

  lemma {:induction false} TwoSteps(prog: seq<Insn>, p: seq<Byte>, wirelen: nat, m: Machine, n: nat)
    requires n >= 2
    ensures var o := Step(prog, p, wirelen, m);
      Run(prog, p, wirelen, m, n) ==
        if !o.Running? then o
        else
          var o2 := Step(prog, p, wirelen, o.m);
          if o2.Running? then Run(prog, p, wirelen, o2.m, n - 2) else o2
  {
    hide Step;
    var o := Step(prog, p, wirelen, m);
    RunOneStep(prog, p, wirelen, m, n);
    if o.Running? { RunOneStep(prog, p, wirelen, o.m, n - 1); }
  }

  /** Running the code of a condition: the run goes on behind it, as far as the condition says, or has ended. */
  lemma {:induction false} CodeRuns(prog: seq<Insn>, p: seq<Byte>, wirelen: nat, m: Machine, c: Cond, t: nat, f: nat, n: nat)
    returns (m': Machine, n': nat)
    requires Encodable(c) && |p| < HALF && 0 <= m.pc && LiesAt(prog, m.pc, Code(c, t, f)) && |prog| - m.pc <= n
    ensures var r := Eval(c, p);
      if r.None? then Run(prog, p, wirelen, m, n) == Returned(0)
      else
        && Run(prog, p, wirelen, m, n) == Run(prog, p, wirelen, m', n')
        && m'.pc == m.pc + Length(c) + (if r.value then t else f) && |prog| - m'.pc <= n'
    decreases c
  {
    hide Step, Run, LiesAt;
    match c
    case Test(_, _, _, _) =>
      LiesInside(prog, m.pc, Code(c, t, f));
      m' := TestRuns(prog, p, wirelen, m, c, t, f);
      TwoSteps(prog, p, wirelen, m, n);
      n' := n - 2;
    case Not(d) => m', n' := CodeRuns(prog, p, wirelen, m, d, f, t, n);
    case Both(a, b) =>
      LiesParts(prog, m.pc, Code(a, 0, Length(b) + f), Code(b, t, f));
      m', n' := CodeRuns(prog, p, wirelen, m, a, 0, Length(b) + f, n);
      if Eval(a, p) == Some(true) { m', n' := CodeRuns(prog, p, wirelen, m', b, t, f, n'); }
    case Either(a, b) =>
      LiesParts(prog, m.pc, Code(a, Length(b) + t, 0), Code(b, t, f));
      m', n' := CodeRuns(prog, p, wirelen, m, a, Length(b) + t, 0, n);
      if Eval(a, p) == Some(false) { m', n' := CodeRuns(prog, p, wirelen, m', b, t, f, n'); }
  }

  lemma LiesInside(prog: seq<Insn>, at: nat, code: seq<Insn>)
    requires LiesAt(prog, at, code)
    ensures at + |code| <= |prog|
  {
  }

  // ---------------------------------------------------------------- the check accepts it

  /** Everything the check and the interpreter ask of an instruction at its place. */
  predicate Fit(i: Insn, at: nat, len: nat) { InsnOk(i, at, len) && Tame(i, at) }

  lemma {:induction false} CodeFits(c: Cond, t: nat, f: nat, at: nat, len: nat)
    requires at + Length(c) + Max(t, f) < len
    ensures forall i :: 0 <= i < Length(c) ==> Fit(Code(c, t, f)[i], at + i, len)
  {
    hide Fit;
    match c
    case Test(_, _, _, _) => TestFits(c, t, f, at, len);
    case Not(d) => CodeFits(d, f, t, at, len);
    case Both(a, b) =>
      CodeFits(a, 0, Length(b) + f, at, len);
      CodeFits(b, t, f, at + Length(a), len);
      BothFit(Code(a, 0, Length(b) + f), Code(b, t, f), at, len);
    case Either(a, b) =>
      CodeFits(a, Length(b) + t, 0, at, len);
      CodeFits(b, t, f, at + Length(a), len);
      BothFit(Code(a, Length(b) + t, 0), Code(b, t, f), at, len);
  }

  lemma TestFits(c: Cond, t: nat, f: nat, at: nat, len: nat)
    requires c.Test? && at + 2 + Max(t, f) < len
    ensures var code := Code(c, t, f); Fit(code[0], at, len) && Fit(code[1], at + 1, len)
  {
  }

  lemma {:induction false} BothFit(a: seq<Insn>, b: seq<Insn>, at: nat, len: nat)
    requires forall i :: 0 <= i < |a| ==> Fit(a[i], at + i, len)
    requires forall i :: 0 <= i < |b| ==> Fit(b[i], at + |a| + i, len)
    ensures forall i :: 0 <= i < |a + b| ==> Fit((a + b)[i], at + i, len)
  {
    hide Fit;
    forall i | 0 <= i < |a + b| ensures Fit((a + b)[i], at + i, len) {
      if i >= |a| { assert Fit(b[i - |a|], at + |a| + (i - |a|), len); }
    }
  }

  /** No jump goes further than the code is long. */
  lemma {:induction false} CodeIsNarrow(c: Cond, t: nat, f: nat)
    ensures forall i :: 0 <= i < Length(c) ==>
      var j := Code(c, t, f)[i]; j.jt <= Length(c) - 2 + Max(t, f) && j.jf <= Length(c) - 2 + Max(t, f)
    ensures Length(c) >= 2
  {
    match c
    case Test(_, _, _, _) =>
    case Not(d) => CodeIsNarrow(d, f, t);
    case Both(a, b) =>
      CodeIsNarrow(a, 0, Length(b) + f);
      CodeIsNarrow(b, t, f);
    case Either(a, b) =>
      CodeIsNarrow(a, Length(b) + t, 0);
      CodeIsNarrow(b, t, f);
  }

  /** The program passes the check and is tame; its jumps fit their bytes if it has at most 256 instructions of code. */
  lemma {:induction false} ProgramIsAccepted(c: Cond, snap: nat)
    ensures var prog := Program(c, snap);
      && Accepted(prog) && AllTame(prog)
      && (Length(c) <= 256 ==> forall i :: 0 <= i < |prog| ==> prog[i].jt < 256 && prog[i].jf < 256)
  {
    var prog := Program(c, snap);
    CodeFits(c, 0, 1, 0, |prog|);
    CodeIsNarrow(c, 0, 1);
    forall i | 0 <= i < |prog| ensures InsnOk(prog[i], i, |prog|) && Tame(prog[i], i) {
      if i < Length(c) { assert Fit(Code(c, 0, 1)[i], 0 + i, |prog|); }
    }
  }

  /** The filter returns `snap` for exactly the packets that meet the condition, and 0 for all others. */
  lemma {:induction false} AcceptsExactly(c: Cond, snap: nat, p: seq<Byte>, wirelen: nat, scratch: seq<int>)
    requires Encodable(c) && snap < HALF && |p| < HALF
    ensures var prog := Program(c, snap);
      Run(prog, p, wirelen, Machine(0, 0, 0, scratch), |prog|) == Returned(if Eval(c, p) == Some(true) then snap else 0)
    ensures FieldsIn(c, p) ==> (Eval(c, p) == Some(true) <==> Meets(c, p))
  {
    hide Eval, Meets, FieldsIn, Code;
    var prog := Program(c, snap);
    assert prog[0..0 + |Code(c, 0, 1)|] == Code(c, 0, 1);
    var m', n' := CodeRuns(prog, p, wirelen, Machine(0, 0, 0, scratch), c, 0, 1, |prog|);
    if FieldsIn(c, p) { EvalIsFormula(c, p); }
  }
}
