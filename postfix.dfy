/**
 * What the postfix code of src/wafer.rs computes.  `collect_inner` lowers a
 * binary expression to the first operand's code followed, for each
 * operator-operand pair, by the operand's code and then the operator: postfix
 * order, so the pairs of one binary expression fold from the left.
 *
 * `Exec` runs straight-line code of `i32.const` and binary operators on a
 * value stack, the way a WebAssembly machine does; `Eval` folds an arithmetic
 * tree from the left.  The meaning of each operator (wrap-around, division
 * traps, comparisons giving 0 or 1) is the parameter `apply`.
 */
module Postfix {
  import opened Optional
  import opened Wasm
  import opened Instructions
  import opened Wafer

  /** What applying an operator to two `i32` values gives. */
  type Semantics = (BinaryOperation, int32, int32) -> int32

  /**
   * Runs `code` on `stack` (top at the end): a constant is pushed; an
   * operator pops two values and pushes its result.  None when the stack
   * runs short or the code holds any other instruction.
   */
  function Exec(code: seq<Instruction>, stack: seq<int32>, apply: Semantics): Option<seq<int32>>
    decreases |code|
  {
    if code == [] then Some(stack)
    else if code[0].ConstI32? then Exec(code[1..], stack + [code[0].value], apply)
    else
      match OperationOf(code[0])
      case None => None
      case Some(operation) =>
        if |stack| < 2 then None
        else
          var left, right := stack[|stack| - 2], stack[|stack| - 1];
          Exec(code[1..], stack[..|stack| - 2] + [apply(operation, left, right)], apply)
  }

  /** Running two pieces of code one after the other runs the first, then the second on what it leaves. */
  lemma {:induction false} ExecAppend(a: seq<Instruction>, b: seq<Instruction>, stack: seq<int32>, apply: Semantics)
    ensures Exec(a + b, stack, apply) ==
      match Exec(a, stack, apply)
      case None => None
      case Some(after) => Exec(b, after, apply)
    decreases |a|
  {
    if a != [] {
      assert (a + b)[0] == a[0];
      assert (a + b)[1..] == a[1..] + b;
      if a[0].ConstI32? {
        ExecAppend(a[1..], b, stack + [a[0].value], apply);
      } else if OperationOf(a[0]).Some? && |stack| >= 2 {
        var s := stack[..|stack| - 2] + [apply(OperationOf(a[0]).value, stack[|stack| - 2], stack[|stack| - 1])];
        ExecAppend(a[1..], b, s, apply);
      }
    } else {
      assert a + b == b;
    }
  }

  /** Numbers combined by binary operators, with nothing else in the tree. */
  predicate Arithmetic(n: Node)
    decreases n
  {
    match n
    case Number(_) => true
    case BinaryExpression(first, rest) => Arithmetic(first) && ArithmeticOperands(rest)
    case _ => false
  }

  predicate ArithmeticOperands(rest: seq<Operand>)
    decreases rest
  {
    if rest == [] then true
    else
      var last := rest[|rest| - 1];
      assert last in rest;
      assert last.operand < last;
      ArithmeticOperands(rest[..|rest| - 1]) && Arithmetic(last.operand)
  }

  /** The value of an arithmetic tree: operators apply from the left, in the order written. */
  function Eval(n: Node, apply: Semantics): int32
    requires Arithmetic(n)
    decreases n
  {
    match n
    case Number(v) => v
    case BinaryExpression(first, rest) => EvalOperands(Eval(first, apply), rest, apply)
  }

  /** Folds the operator-operand pairs into `acc` from the left. */
  function EvalOperands(acc: int32, rest: seq<Operand>, apply: Semantics): int32
    requires ArithmeticOperands(rest)
    decreases rest
  {
    if rest == [] then acc
    else
      var last := rest[|rest| - 1];
      assert last in rest;
      assert last.operand < last;
      apply(last.operation, EvalOperands(acc, rest[..|rest| - 1], apply), Eval(last.operand, apply))
  }

  /** An arithmetic tree holds no string literals. */
  lemma {:induction false} ArithmeticHasNoLiterals(n: Node)
    requires Arithmetic(n)
    ensures Literals(n) == []
    decreases n
  {
    match n
    case Number(_) =>
    case BinaryExpression(first, rest) =>
      ArithmeticHasNoLiterals(first);
      OperandsHaveNoLiterals(rest);
  }

  lemma {:induction false} OperandsHaveNoLiterals(rest: seq<Operand>)
    requires ArithmeticOperands(rest)
    ensures LiteralsOperands(rest) == []
    decreases rest
  {
    if rest != [] {
      var last := rest[|rest| - 1];
      assert last in rest;
      assert last.operand < last;
      OperandsHaveNoLiterals(rest[..|rest| - 1]);
      ArithmeticHasNoLiterals(last.operand);
    }
  }

  /**
   * The code `collect_inner` pushes for an arithmetic tree leaves exactly the
   * tree's value on top of whatever stack it starts from.
   */
  lemma {:induction false} LowerEvaluates(ctx: Context, n: Node, stack: seq<int32>, apply: Semantics)
    requires Arithmetic(n)
    ensures LiteralsKnown(ctx, Literals(n))
    ensures Exec(Lower(ctx, n), stack, apply) == Some(stack + [Eval(n, apply)])
    decreases n
  {
    ArithmeticHasNoLiterals(n);
    match n
    case Number(v) =>
      assert Lower(ctx, n) == [ConstI32(v)];
    case BinaryExpression(first, rest) =>
      LowerBinaryExpression(ctx, n);
      LowerEvaluates(ctx, first, stack, apply);
      OperandsEvaluate(ctx, rest, stack, Eval(first, apply), apply);
      ExecAppend(Lower(ctx, first), LowerOperands(ctx, rest), stack, apply);
  }

  /** The code for the pairs turns `acc` on top of the stack into the fold of the pairs into it. */
  lemma {:induction false} OperandsEvaluate(
      ctx: Context, rest: seq<Operand>, stack: seq<int32>, acc: int32, apply: Semantics)
    requires ArithmeticOperands(rest)
    ensures LiteralsKnown(ctx, LiteralsOperands(rest))
    ensures Exec(LowerOperands(ctx, rest), stack + [acc], apply) == Some(stack + [EvalOperands(acc, rest, apply)])
    decreases rest
  {
    OperandsHaveNoLiterals(rest);
    if rest == [] {
      assert LowerOperands(ctx, rest) == [];
    } else {
      var init, last := rest[..|rest| - 1], rest[|rest| - 1];
      assert last in rest;
      assert last.operand < last;
      OperandsHaveNoLiterals(init);
      ArithmeticHasNoLiterals(last.operand);
      var before := LowerOperands(ctx, init);
      var operand := Lower(ctx, last.operand);
      var operator := [OperationInstruction(last.operation)];
      assert LowerOperands(ctx, rest) == before + operand + operator;
      var folded := EvalOperands(acc, init, apply);
      var value := Eval(last.operand, apply);
      OperandsEvaluate(ctx, init, stack, acc, apply);
      LowerEvaluates(ctx, last.operand, stack + [folded], apply);
      ExecAppend(before, operand, stack + [acc], apply);
      ExecAppend(before + operand, operator, stack + [acc], apply);
      var pushed := stack + [folded] + [value];
      assert pushed[..|pushed| - 2] == stack;
      assert Exec(operator, pushed, apply) == Exec([], stack + [apply(last.operation, folded, value)], apply);
    }
  }

  /** The flat binary expression `1`, `+ 2`, `* 3` is `(1 + 2) * 3`: its pairs apply in the order written. */
  lemma LeftToRight(ctx: Context, apply: Semantics)
    ensures LiteralsKnown(ctx, Literals(BinaryExpression(Number(1), [Operand(Add, Number(2)), Operand(Multiply, Number(3))])))
    ensures Exec(Lower(ctx, BinaryExpression(Number(1), [Operand(Add, Number(2)), Operand(Multiply, Number(3))])), [], apply)
      == Some([apply(Multiply, apply(Add, 1, 2), 3)])
  {
    var rest := [Operand(Add, Number(2)), Operand(Multiply, Number(3))];
    var n := BinaryExpression(Number(1), rest);
    var first := rest[..1];
    assert rest[..|rest| - 1] == first && first[..0] == [];
    assert first[|first| - 1].operand == Number(2) && Arithmetic(Number(2));
    assert ArithmeticOperands(first[..0]);
    assert ArithmeticOperands(first);
    assert Arithmetic(n);
    assert EvalOperands(1, first, apply) == apply(Add, 1, 2);
    assert Eval(n, apply) == apply(Multiply, apply(Add, 1, 2), 3);
    LowerEvaluates(ctx, n, [], apply);
    assert [] + [Eval(n, apply)] == [apply(Multiply, apply(Add, 1, 2), 3)];
  }
}
