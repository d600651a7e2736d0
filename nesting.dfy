/**
 * The structured control of WebAssembly (section 2.4.5 of the WebAssembly
 * Core Specification 1.0): `if` and `loop` open a block, `else` turns an open
 * `if` into its else arm, `end` closes the innermost block, and `br d` must
 * name one of the enclosing blocks.  `Nesting` follows a list of instructions
 * and says which blocks are open after it, or None when the list breaks one
 * of these rules.
 */
module Nesting {
  import opened Optional
  import opened Instructions

  /** The kinds of open block; a function body is itself a block closed by its final `end`. */
  datatype Block = IfBlock | ElseBlock | LoopBlock | FunctionBlock

  /** The blocks open after one instruction, given those open before it. */
  function Step(open: seq<Block>, i: Instruction): (r: Option<seq<Block>>)
    ensures (i.If? || i.Loop?) ==> r.Some? && |r.value| == |open| + 1
    ensures i.End? ==> (r.Some? <==> open != [])
    ensures i.Else? ==> (r.Some? <==> open != [] && open[|open| - 1] == IfBlock)
    ensures i.Break? ==> (r.Some? <==> i.depth < |open|)
  {
    match i
    case If(_) => Some(open + [IfBlock])
    case Loop(_) => Some(open + [LoopBlock])
    case Else =>
      if open != [] && open[|open| - 1] == IfBlock then Some(open[..|open| - 1] + [ElseBlock]) else None
    case End => if open != [] then Some(open[..|open| - 1]) else None
    case Break(depth) => if depth < |open| then Some(open) else None
    case _ => Some(open)
  }

  /** The block `br d` branches to: the d-th enclosing block, counting outwards from the innermost. */
  function Target(open: seq<Block>, d: nat): Block
    requires d < |open|
  {
    open[|open| - 1 - d]
  }

  /** The blocks open after `code`, run from `open`. */
  function Nest(code: seq<Instruction>, open: seq<Block>): Option<seq<Block>>
  {
    if code == [] then Some(open)
    else
      match Step(open, code[0])
      case None => None
      case Some(next) => Nest(code[1..], next)
  }

  /** Following two lists one after the other is following their concatenation. */
  lemma {:induction false} NestAppend(a: seq<Instruction>, b: seq<Instruction>, open: seq<Block>)
    ensures Nest(a + b, open) == match Nest(a, open) case None => None case Some(mid) => Nest(b, mid)
  {
    if a == [] {
      assert a + b == b;
    } else {
      assert (a + b)[0] == a[0];
      assert (a + b)[1..] == a[1..] + b;
      match Step(open, a[0])
      case None =>
      case Some(next) => NestAppend(a[1..], b, next);
    }
  }

  /** Two balanced lists in a row are balanced. */
  lemma Balanced2(a: seq<Instruction>, b: seq<Instruction>, open: seq<Block>)
    requires Nest(a, open) == Some(open) && Nest(b, open) == Some(open)
    ensures Nest(a + b, open) == Some(open)
  {
    NestAppend(a, b, open);
  }

  /** A list of instructions that opens no block leaves the open blocks as they are. */
  lemma {:induction false} NestFlat(code: seq<Instruction>, open: seq<Block>)
    requires forall i | i in code :: !i.If? && !i.Loop? && !i.Else? && !i.End? && !i.Break?
    ensures Nest(code, open) == Some(open)
  {
    if code != [] {
      assert code[0] in code;
      assert forall i | i in code[1..] :: i in code;
      NestFlat(code[1..], open);
    }
  }

  /** A block opened by `opener`, balanced inside, and closed by `end` leaves the open blocks as they were. */
  lemma Enclosed(opener: Instruction, inner: seq<Instruction>, block: Block, open: seq<Block>)
    requires Step(open, opener) == Some(open + [block])
    requires Nest(inner, open + [block]) == Some(open + [block])
    ensures Nest([opener] + inner + [End], open) == Some(open)
  {
    NestAppend([opener], inner, open);
    NestAppend([opener] + inner, [End], open);
    assert (open + [block])[..|open|] == open;
  }

  /** `if`, a balanced then-arm, `else`, a balanced else-arm, `end`. */
  lemma IfElseEnclosed(opener: Instruction, thenArm: seq<Instruction>, elseArm: seq<Instruction>, open: seq<Block>)
    requires opener.If?
    requires Nest(thenArm, open + [IfBlock]) == Some(open + [IfBlock])
    requires Nest(elseArm, open + [ElseBlock]) == Some(open + [ElseBlock])
    ensures Nest([opener] + thenArm + [Else] + elseArm + [End], open) == Some(open)
  {
    var withIf := open + [IfBlock];
    NestAppend([opener], thenArm, open);
    NestAppend([opener] + thenArm, [Else], open);
    assert withIf[..|withIf| - 1] + [ElseBlock] == open + [ElseBlock];
    NestAppend([opener] + thenArm + [Else], elseArm, open);
    NestAppend([opener] + thenArm + [Else] + elseArm, [End], open);
    assert (open + [ElseBlock])[..|open|] == open;
  }

  /**
   * `loop`, a balanced condition, `if`, a balanced body, `br 1`, `end`, `end`:
   * balanced, and when `br 1` runs the loop and the `if` are the innermost
   * open blocks, so the branch goes back to the loop.
   */
  lemma LoopEnclosed(condition: seq<Instruction>, body: seq<Instruction>, open: seq<Block>)
    requires Nest(condition, open + [LoopBlock]) == Some(open + [LoopBlock])
    requires Nest(body, open + [LoopBlock, IfBlock]) == Some(open + [LoopBlock, IfBlock])
    ensures Nest([Loop(None)] + condition + [If(None)] + body + [Break(1), End, End], open) == Some(open)
    ensures Nest([Loop(None)] + condition + [If(None)] + body, open) == Some(open + [LoopBlock, IfBlock])
    ensures Target(open + [LoopBlock, IfBlock], 1) == LoopBlock
  {
    var inLoop := open + [LoopBlock];
    var inIf := open + [LoopBlock, IfBlock];
    assert inLoop + [IfBlock] == inIf;
    assert Nest([Loop(None)] + condition + [If(None)] + body, open) == Some(inIf) by {
      NestAppend([Loop(None)], condition, open);
      NestAppend([Loop(None)] + condition, [If(None)], open);
      NestAppend([Loop(None)] + condition + [If(None)], body, open);
    }
    assert Nest([If(None)] + body + [Break(1), End], inLoop) == Some(inLoop) by {
      NestAppend(body, [Break(1)], inIf);
      assert Nest(body + [Break(1)], inIf) == Some(inIf);
      Enclosed(If(None), body + [Break(1)], IfBlock, inLoop);
      assert [If(None)] + (body + [Break(1)]) + [End] == [If(None)] + body + [Break(1), End];
    }
    Balanced2(condition, [If(None)] + body + [Break(1), End], inLoop);
    Enclosed(Loop(None), condition + ([If(None)] + body + [Break(1), End]), LoopBlock, open);
    assert [Loop(None)] + (condition + ([If(None)] + body + [Break(1), End])) + [End]
      == [Loop(None)] + condition + [If(None)] + body + [Break(1), End, End];
  }
}
