/** Programs of the matching machine: instructions, one machine step, and runs through a
    region of the program under a list of choices, one per step. */
module Program {
  import opened Bytes
  import opened CharClass

  datatype Instr =
    | Match
    | Char(ch: byte)
    | AnyChar
    | CharClass(klass: Bitmap)
    | CharClassNegated(klass: Bitmap)
    | Split(first: nat, second: nat)
    | Jump(target: nat)
    | AssertBegin
    | AssertEnd
    | Save(slot: nat)

  type Code = seq<Instr>

  /** Where a capture slot points: nowhere, or at a position of the string. */
  datatype Slot = Null | At(pos: nat)
  type Slots = seq<Slot>

  /** The instructions at which a thread waits for a character. */
  predicate Eating(ins: Instr) {
    ins.Char? || ins.AnyChar? || ins.CharClass? || ins.CharClassNegated?
  }

  /** The waiting instruction accepts this character of the string. */
  predicate Eats(ins: Instr, c: byte)
    requires Eating(ins)
  {
    match ins
    case Char(ch) => c == ch
    case AnyChar => true
    case CharClass(k) => Contains(k, c)
    case CharClassNegated(k) => !Contains(k, c)
  }

  /** Every target of an instruction lies in the closed range lo..hi. */
  predicate TargetsIn(ins: Instr, pc: nat, lo: nat, hi: nat) {
    match ins
    case Match => true
    case Split(f, g) => lo <= f <= hi && lo <= g <= hi
    case Jump(t) => lo <= t <= hi
    case _ => lo <= pc + 1 <= hi
  }

  /** Control that starts in [lo, hi) can leave it only at hi. */
  predicate Closed(p: Code, lo: nat, hi: nat) {
    lo <= hi <= |p| && forall k :: lo <= k < hi ==> TargetsIn(p[k], k, lo, hi)
  }

  /** A program the machine can run: control never leaves it and ends in Match alone. */
  predicate Runnable(p: Code) {
    |p| > 0 && p[|p| - 1] == Match && Closed(p, 0, |p| - 1)
  }

  datatype State = State(pc: nat, pos: nat)
  datatype Next = Stuck | To(st: State)

  /** One step; the choice true takes the second branch of a split. */
  function Step(p: Code, s: seq<byte>, st: State, choice: bool): (r: Next)
    requires st.pc < |p|
  {
    var ins := p[st.pc];
    if choice && !ins.Split? then Stuck
    else match ins
      case Split(f, g) => To(State(if choice then g else f, st.pos))
      case Match => Stuck
      case Jump(t) => To(State(t, st.pos))
      case AssertBegin => if st.pos == 0 then To(State(st.pc + 1, st.pos)) else Stuck
      case AssertEnd => if st.pos == |s| then To(State(st.pc + 1, st.pos)) else Stuck
      case Save(_) => To(State(st.pc + 1, st.pos))
      case _ =>
        if st.pos < |s| && Eats(ins, s[st.pos]) then To(State(st.pc + 1, st.pos + 1)) else Stuck
  }

  /** The slots after executing the instruction at st. Slots beyond the array are ignored. */
  function Saved(p: Code, st: State, m: Slots): (r: Slots)
    requires st.pc < |p|
    ensures |r| == |m|
  {
    if p[st.pc].Save? && p[st.pc].slot < |m| then m[p[st.pc].slot := At(st.pos)] else m
  }

  /** The choices lead from st to a Match. */
  predicate Path(p: Code, s: seq<byte>, st: State, ch: seq<bool>)
    decreases |ch|
  {
    st.pc < |p| &&
    if ch == [] then p[st.pc] == Match
    else Step(p, s, st, ch[0]).To? && Path(p, s, Step(p, s, st, ch[0]).st, ch[1..])
  }

  // ---- First steps of a path ----

  lemma SplitPath(p: Code, s: seq<byte>, pc: nat, i: nat, ch: seq<bool>)
    requires pc < |p| && p[pc].Split? && Path(p, s, State(pc, i), ch)
    ensures ch != [] && ch == [ch[0]] + ch[1..]
    ensures Path(p, s, State(if ch[0] then p[pc].second else p[pc].first, i), ch[1..])
  {
  }

  lemma JumpPath(p: Code, s: seq<byte>, pc: nat, i: nat, ch: seq<bool>)
    requires pc < |p| && p[pc].Jump? && Path(p, s, State(pc, i), ch)
    ensures ch != [] && ch == [false] + ch[1..] && Path(p, s, State(p[pc].target, i), ch[1..])
  {
  }

  lemma SavePath(p: Code, s: seq<byte>, pc: nat, i: nat, ch: seq<bool>)
    requires pc < |p| && p[pc].Save? && Path(p, s, State(pc, i), ch)
    ensures ch != [] && ch == [false] + ch[1..] && Path(p, s, State(pc + 1, i), ch[1..])
  {
  }
}
