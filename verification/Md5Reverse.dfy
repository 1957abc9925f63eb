/**
 * For a fixed block the 64 steps permute the register states: running explicit
 * reverse steps backwards undoes them, from either side.
 */
module Md5Reverse {
  import opened Words
  import opened Rfc1321

  /** Subtract x, rotate right, subtract the constant, the message word and the mix. */
  function UndoOp(i: nat, w: Word, x: Word, y: Word, z: Word, block: seq<Word>): Word
    requires |block| == 16
  {
    Sub(Sub(Sub(RotR(Sub(w, x), ShiftOf(i)), T(i)), block[WordIndex(i)]), Mix(i, x, y, z))
  }

  function UndoStep(i: nat, s: State, block: seq<Word>): State
    requires |block| == 16
  {
    if i % 4 == 0 then s.(a := UndoOp(i, s.a, s.b, s.c, s.d, block))
    else if i % 4 == 1 then s.(d := UndoOp(i, s.d, s.a, s.b, s.c, block))
    else if i % 4 == 2 then s.(c := UndoOp(i, s.c, s.d, s.a, s.b, block))
    else s.(b := UndoOp(i, s.b, s.c, s.d, s.a, block))
  }

  /** Undoes the first n steps, the last of them first. */
  function UndoSteps(s: State, block: seq<Word>, n: nat): State
    requires |block| == 16
    decreases n
  {
    if n == 0 then s else UndoSteps(UndoStep(n - 1, s, block), block, n - 1)
  }

  lemma UndoOpAfterOp(i: nat, w: Word, x: Word, y: Word, z: Word, block: seq<Word>)
    requires |block| == 16
    ensures UndoOp(i, Op(i, w, x, y, z, block), x, y, z, block) == w
  {
    hide Add, Sub, RotL, RotR, Mix, T, ShiftOf, WordIndex;
    var m, k, t, s := Mix(i, x, y, z), block[WordIndex(i)], T(i), ShiftOf(i);
    var sum := Add(Add(Add(w, m), k), t);
    AddCommutes(x, RotL(sum, s));
    SubUndoesAdd(RotL(sum, s), x);
    RotateRoundTrip(sum, s);
    SubUndoesAdd(Add(Add(w, m), k), t);
    SubUndoesAdd(Add(w, m), k);
    SubUndoesAdd(w, m);
  }

  lemma OpAfterUndoOp(i: nat, w: Word, x: Word, y: Word, z: Word, block: seq<Word>)
    requires |block| == 16
    ensures Op(i, UndoOp(i, w, x, y, z, block), x, y, z, block) == w
  {
    hide Add, Sub, RotL, RotR, Mix, T, ShiftOf, WordIndex;
    var m, k, t, s := Mix(i, x, y, z), block[WordIndex(i)], T(i), ShiftOf(i);
    var turned := RotR(Sub(w, x), s);
    AddUndoesSub(Sub(Sub(turned, t), k), m);
    AddUndoesSub(Sub(turned, t), k);
    AddUndoesSub(turned, t);
    RotateRoundTrip(Sub(w, x), s);
    AddUndoesSub(w, x);
    AddCommutes(x, Sub(w, x));
  }

  lemma UndoStepAfterStep(i: nat, s: State, block: seq<Word>)
    requires |block| == 16
    ensures UndoStep(i, Step(i, s, block), block) == s
  {
    hide Op, UndoOp;
    match i % 4
    case 0 => UndoOpAfterOp(i, s.a, s.b, s.c, s.d, block);
    case 1 => UndoOpAfterOp(i, s.d, s.a, s.b, s.c, block);
    case 2 => UndoOpAfterOp(i, s.c, s.d, s.a, s.b, block);
    case _ => UndoOpAfterOp(i, s.b, s.c, s.d, s.a, block);
  }

  lemma StepAfterUndoStep(i: nat, s: State, block: seq<Word>)
    requires |block| == 16
    ensures Step(i, UndoStep(i, s, block), block) == s
  {
    hide Op, UndoOp;
    match i % 4
    case 0 => OpAfterUndoOp(i, s.a, s.b, s.c, s.d, block);
    case 1 => OpAfterUndoOp(i, s.d, s.a, s.b, s.c, block);
    case 2 => OpAfterUndoOp(i, s.c, s.d, s.a, s.b, block);
    case _ => OpAfterUndoOp(i, s.b, s.c, s.d, s.a, block);
  }

  /** The steps are injective: the reverse run recovers the starting registers. */
  lemma {:induction false} UndoAfterSteps(s: State, block: seq<Word>, n: nat)
    requires |block| == 16
    ensures UndoSteps(Steps(s, block, n), block, n) == s
    decreases n
  {
    hide Step, UndoStep;
    if n > 0 {
      UndoStepAfterStep(n - 1, Steps(s, block, n - 1), block);
      UndoAfterSteps(s, block, n - 1);
    }
  }

  /** The steps are surjective: every state is the result of a run. */
  lemma {:induction false} StepsAfterUndo(s: State, block: seq<Word>, n: nat)
    requires |block| == 16
    ensures Steps(UndoSteps(s, block, n), block, n) == s
    decreases n
  {
    hide Step, UndoStep;
    if n > 0 {
      StepsAfterUndo(UndoStep(n - 1, s, block), block, n - 1);
      StepAfterUndoStep(n - 1, s, block);
    }
  }

  /** The first state, subtracted register by register, and the reverse steps: what compressing a block is undone by. */
  function UndoCompress(s: State, t: State, block: seq<Word>): State
    requires |block| == 16
  {
    UndoSteps(State(Sub(t.a, s.a), Sub(t.b, s.b), Sub(t.c, s.c), Sub(t.d, s.d)), block, 64)
  }

  /** Compressing adds the state it starts from to what the 64 steps make of it. */
  lemma CompressAddsState(s: State, block: seq<Word>)
    requires |block| == 16
    ensures UndoCompress(s, Compress(s, block), block) == s
  {
    hide Add, Sub, Steps, UndoSteps;
    var t := Steps(s, block, 64);
    AddCommutes(s.a, t.a);
    AddCommutes(s.b, t.b);
    AddCommutes(s.c, t.c);
    AddCommutes(s.d, t.d);
    SubUndoesAdd(t.a, s.a);
    SubUndoesAdd(t.b, s.b);
    SubUndoesAdd(t.c, s.c);
    SubUndoesAdd(t.d, s.d);
    UndoAfterSteps(s, block, 64);
  }
}
