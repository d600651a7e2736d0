/**
 * src/wafer.rs: the Wafer front end.  `InstructionCollector` walks a
 * function's syntax tree and pushes stack-machine code; `parse_function` and
 * `Wafer::parse` assemble the functions and imports of a program.
 *
 * The tree is the one the pest grammar produces, as a datatype: one
 * constructor per rule `collect_inner` handles, children in the order the
 * grammar yields them.  Symbol resolution goes through `Symbols::local`,
 * `function`, `parameters` and `locals`, which src/wafer/symbols.rs does not
 * define; they are the fields of `SymbolApi`, given from outside.
 */
module Wafer {
  import opened Optional
  import opened Wasm
  import opened Values
  import opened Instructions
  import StringTable
  import Nesting

  /** The operators of `binary_operation`. */
  datatype BinaryOperation =
    | Add | Subtract | Multiply | Divide
    | Equal | NotEqual | LessThanOrEqual | LessThan | GreaterThanOrEqual | GreaterThan
    | And | Or

  /** One `operation operand` pair after the first operand of a binary expression. */
  datatype Operand = Operand(operation: BinaryOperation, operand: Node)

  /** The syntax tree of a function body. */
  datatype Node =
    | BlockExpression(items: seq<Node>)
    | BlockStatements(items: seq<Node>)
    | LetStatement(name: string, value: Node)
    | IfStatement(condition: Node, thenBlock: Node, optionalElse: Option<Node>)
    | WhileStatement(condition: Node, body: Node)
    | ExpressionStatement(expression: Node)
    | VariableAssignment(name: string, value: Node)
    | ArrayAssignment(arrayName: string, index: Node, value: Node)
    | BinaryExpression(first: Node, rest: seq<Operand>)
    | CallExpression(callee: string, arguments: seq<Node>)
    | IfExpression(condition: Node, thenBlock: Node, elseBlock: Node)
    | ArrayIndex(arrayName: string, index: Node)
    | Identifier(name: string)
    | Number(number: int32)
    | StringLiteral(text: string)
    | Eoi

  /**
   * What `collect_inner` asks of the symbol table: the type and index of a
   * local of a function, the index of a function, and a function's parameters
   * and locals.
   */
  datatype SymbolApi = SymbolApi(
    local: (string, string) -> (ValueType, nat),
    functionIndex: string -> nat,
    parameters: string -> seq<ValueType>,
    locals: string -> seq<(nat, ValueType)>)

  /** The fields of an `InstructionCollector` that stay fixed while it runs. */
  datatype Context = Context(name: string, symbols: SymbolApi, strings: StringTable.Strings)

  /** The instruction of each operator. */
  function OperationInstruction(operation: BinaryOperation): (i: Instruction)
    ensures OperationOf(i) == Some(operation)
  {
    match operation
    case Add => AddI32
    case Subtract => SubtractI32
    case Multiply => MultiplyI32
    case Divide => DivideSignedI32
    case Equal => EqualI32
    case NotEqual => NotEqualI32
    case LessThanOrEqual => LessThanOrEqualSignedI32
    case LessThan => LessThanSignedI32
    case GreaterThanOrEqual => GreaterThanOrEqualSignedI32
    case GreaterThan => GreaterThanSignedI32
    case And => AndI32
    case Or => OrI32
  }

  /** The operator an instruction performs, if it is one of the binary operators. */
  function OperationOf(i: Instruction): Option<BinaryOperation>
  {
    match i
    case AddI32 => Some(Add)
    case SubtractI32 => Some(Subtract)
    case MultiplyI32 => Some(Multiply)
    case DivideSignedI32 => Some(Divide)
    case EqualI32 => Some(Equal)
    case NotEqualI32 => Some(NotEqual)
    case LessThanOrEqualSignedI32 => Some(LessThanOrEqual)
    case LessThanSignedI32 => Some(LessThan)
    case GreaterThanOrEqualSignedI32 => Some(GreaterThanOrEqual)
    case GreaterThanSignedI32 => Some(GreaterThan)
    case AndI32 => Some(And)
    case OrI32 => Some(Or)
    case _ => None
  }

  // ---------------------------------------------------------------------
  // String literals, in the order `into_inner().flatten()` visits them
  // ---------------------------------------------------------------------

  /** The string literals of a tree, in preorder. */
  function Literals(n: Node): seq<string>
    decreases n
  {
    match n
    case BlockExpression(items) => LiteralsAll(items)
    case BlockStatements(items) => LiteralsAll(items)
    case LetStatement(_, value) => Literals(value)
    case IfStatement(condition, thenBlock, elseBlock) =>
      Literals(condition) + Literals(thenBlock) + (if elseBlock.Some? then Literals(elseBlock.value) else [])
    case WhileStatement(condition, body) => Literals(condition) + Literals(body)
    case ExpressionStatement(expression) => Literals(expression)
    case VariableAssignment(_, value) => Literals(value)
    case ArrayAssignment(_, index, value) => Literals(index) + Literals(value)
    case BinaryExpression(first, rest) => Literals(first) + LiteralsOperands(rest)
    case CallExpression(_, arguments) => LiteralsAll(arguments)
    case IfExpression(condition, thenBlock, elseBlock) =>
      Literals(condition) + Literals(thenBlock) + Literals(elseBlock)
    case ArrayIndex(_, index) => Literals(index)
    case Identifier(_) => []
    case Number(_) => []
    case StringLiteral(value) => [value]
    case Eoi => []
  }

  function LiteralsAll(items: seq<Node>): seq<string>
    decreases items
  {
    if items == [] then [] else LiteralsAll(items[..|items| - 1]) + Literals(items[|items| - 1])
  }

  function LiteralsOperands(rest: seq<Operand>): seq<string>
    decreases rest
  {
    if rest == [] then []
    else
      var last := rest[|rest| - 1];
      assert last in rest;
      assert last.operand < last;
      LiteralsOperands(rest[..|rest| - 1]) + Literals(last.operand)
  }

  /** The operands of the pairs after a binary expression's first operand, in order. */
  function OperandNodes(rest: seq<Operand>): (r: seq<Node>)
    ensures |r| == |rest| && forall i | 0 <= i < |rest| :: r[i] == rest[i].operand
  {
    if rest == [] then [] else OperandNodes(rest[..|rest| - 1]) + [rest[|rest| - 1].operand]
  }

  /** The sub-trees directly below a node, in the order the grammar yields them. */
  function Children(n: Node): (r: seq<Node>)
    ensures forall c | c in r :: c < n
  {
    match n
    case BlockExpression(items) => items
    case BlockStatements(items) => items
    case LetStatement(_, value) => [value]
    case IfStatement(condition, thenBlock, elseBlock) =>
      [condition, thenBlock] + (if elseBlock.Some? then [elseBlock.value] else [])
    case WhileStatement(condition, body) => [condition, body]
    case ExpressionStatement(expression) => [expression]
    case VariableAssignment(_, value) => [value]
    case ArrayAssignment(_, index, value) => [index, value]
    case BinaryExpression(first, rest) =>
      assert forall i | 0 <= i < |rest| :: rest[i].operand < n by {
        forall i | 0 <= i < |rest| ensures rest[i].operand < n {
          assert rest[i] in rest;
        }
      }
      [first] + OperandNodes(rest)
    case CallExpression(_, arguments) => arguments
    case IfExpression(condition, thenBlock, elseBlock) => [condition, thenBlock, elseBlock]
    case ArrayIndex(_, index) => [index]
    case _ => []
  }

  /** Every node of a tree in preorder, as `flatten` visits the pairs below a pair. */
  ghost function Preorder(n: Node): seq<Node>
    decreases n, 1
  {
    [n] + PreorderAll(Children(n), n)
  }

  /** The preorder walks of sibling trees, one after another. */
  ghost function PreorderAll(nodes: seq<Node>, parent: Node): seq<Node>
    requires forall c | c in nodes :: c < parent
    decreases parent, 0, |nodes|
  {
    if nodes == [] then []
    else
      var init, last := nodes[..|nodes| - 1], nodes[|nodes| - 1];
      assert forall c | c in init :: c in nodes;
      assert last in nodes;
      PreorderAll(init, parent) + Preorder(last)
  }

  /** The texts of the string-literal nodes among `nodes`, in order (the `filter` of strings.rs). */
  function StringTexts(nodes: seq<Node>): seq<string>
  {
    if nodes == [] then []
    else
      var last := nodes[|nodes| - 1];
      StringTexts(nodes[..|nodes| - 1]) + (if last.StringLiteral? then [last.text] else [])
  }

  lemma {:induction false} StringTextsAppend(a: seq<Node>, b: seq<Node>)
    ensures StringTexts(a + b) == StringTexts(a) + StringTexts(b)
    decreases |b|
  {
    if b != [] {
      assert (a + b)[..|a + b| - 1] == a + b[..|b| - 1];
      assert (a + b)[|a + b| - 1] == b[|b| - 1];
      StringTextsAppend(a, b[..|b| - 1]);
    } else {
      assert a + b == a;
    }
  }

  lemma {:induction false} LiteralsAllAppend(a: seq<Node>, b: seq<Node>)
    ensures LiteralsAll(a + b) == LiteralsAll(a) + LiteralsAll(b)
    decreases |b|
  {
    if b != [] {
      assert (a + b)[..|a + b| - 1] == a + b[..|b| - 1];
      assert (a + b)[|a + b| - 1] == b[|b| - 1];
      LiteralsAllAppend(a, b[..|b| - 1]);
    } else {
      assert a + b == a;
    }
  }

  lemma {:induction false} LiteralsOfOperandNodes(rest: seq<Operand>)
    ensures LiteralsAll(OperandNodes(rest)) == LiteralsOperands(rest)
    decreases |rest|
  {
    if rest != [] {
      LiteralsOfOperandNodes(rest[..|rest| - 1]);
      var nodes := OperandNodes(rest);
      assert nodes[..|nodes| - 1] == OperandNodes(rest[..|rest| - 1]);
    }
  }

  lemma LiteralsAllOfOne(x: Node)
    ensures LiteralsAll([x]) == Literals(x)
  {
    assert [x][..0] == [];
  }

  lemma LiteralsAllOfTwo(x: Node, y: Node)
    ensures LiteralsAll([x, y]) == Literals(x) + Literals(y)
  {
    assert [x, y][..1] == [x];
    LiteralsAllOfOne(x);
  }

  lemma LiteralsAllOfThree(x: Node, y: Node, z: Node)
    ensures LiteralsAll([x, y, z]) == Literals(x) + Literals(y) + Literals(z)
  {
    assert [x, y, z][..2] == [x, y];
    LiteralsAllOfTwo(x, y);
  }

  /** A node's literals are its own text, if it is a literal, and then its children's literals in order. */
  lemma LiteralsByChildren(n: Node)
    ensures Literals(n) == (if n.StringLiteral? then [n.text] else []) + LiteralsAll(Children(n))
  {
    match n
    case LetStatement(_, value) => LiteralsAllOfOne(value);
    case IfStatement(condition, thenBlock, elseBlock) =>
      if elseBlock.Some? {
        assert Children(n) == [condition, thenBlock, elseBlock.value];
        LiteralsAllOfThree(condition, thenBlock, elseBlock.value);
      } else {
        assert Children(n) == [condition, thenBlock];
        LiteralsAllOfTwo(condition, thenBlock);
      }
    case WhileStatement(condition, body) => LiteralsAllOfTwo(condition, body);
    case ExpressionStatement(expression) => LiteralsAllOfOne(expression);
    case VariableAssignment(_, value) => LiteralsAllOfOne(value);
    case ArrayAssignment(_, index, value) => LiteralsAllOfTwo(index, value);
    case BinaryExpression(first, rest) =>
      LiteralsAllAppend([first], OperandNodes(rest));
      LiteralsAllOfOne(first);
      LiteralsOfOperandNodes(rest);
    case IfExpression(condition, thenBlock, elseBlock) => LiteralsAllOfThree(condition, thenBlock, elseBlock);
    case ArrayIndex(_, index) => LiteralsAllOfOne(index);
    case _ =>
  }

  /**
   * The literals `collect_inner` and `Strings::from` see in a tree are the
   * texts of the string-literal nodes of its preorder walk, in that order.
   */
  lemma {:induction false} LiteralsInPreorder(n: Node)
    ensures Literals(n) == StringTexts(Preorder(n))
    decreases n, 1
  {
    LiteralsByChildren(n);
    LiteralsAllInPreorder(Children(n), n);
    StringTextsAppend([n], PreorderAll(Children(n), n));
    assert StringTexts([n]) == (if n.StringLiteral? then [n.text] else []) by {
      assert [n][..0] == [];
    }
  }

  /** The literals of sibling trees are the string-literal texts of their walks, in order. */
  lemma {:induction false} LiteralsAllInPreorder(nodes: seq<Node>, parent: Node)
    requires forall c | c in nodes :: c < parent
    ensures LiteralsAll(nodes) == StringTexts(PreorderAll(nodes, parent))
    decreases parent, 0, |nodes|
  {
    if nodes != [] {
      var init, last := nodes[..|nodes| - 1], nodes[|nodes| - 1];
      assert forall c | c in init :: c in nodes;
      assert last in nodes;
      LiteralsAllInPreorder(init, parent);
      LiteralsInPreorder(last);
      StringTextsAppend(PreorderAll(init, parent), Preorder(last));
    }
  }

  /** Every string literal of the tree has an offset in the string table. */
  predicate LiteralsKnown(ctx: Context, literals: seq<string>)
  {
    forall s | s in literals :: s in ctx.strings.offsets
  }

  // ---------------------------------------------------------------------
  // Lowering: the code `collect_inner` pushes for a tree
  // ---------------------------------------------------------------------

  /** The index `Symbols::local` gives a name in the function being compiled. */
  function LocalIndex(ctx: Context, name: string): nat
  {
    ctx.symbols.local(ctx.name, name).1
  }

  /** The code `collect_inner` pushes for `n`. */
  function Lower(ctx: Context, n: Node): seq<Instruction>
    requires LiteralsKnown(ctx, Literals(n))
    decreases n
  {
    match n
    case BlockExpression(items) => LowerAll(ctx, items)
    case BlockStatements(items) => LowerAll(ctx, items)
    case LetStatement(name, value) => Lower(ctx, value) + [LocalSetI32(LocalIndex(ctx, name))]
    case IfStatement(condition, thenBlock, elseBlock) =>
      Lower(ctx, condition) + [If(None)] + Lower(ctx, thenBlock)
      + (if elseBlock.Some? then [Else] + Lower(ctx, elseBlock.value) else [])
      + [End]
    case WhileStatement(condition, body) =>
      [Loop(None)] + Lower(ctx, condition) + [If(None)] + Lower(ctx, body) + [Break(1), End, End]
    case ExpressionStatement(expression) => Lower(ctx, expression) + [Drop]
    case VariableAssignment(name, value) => Lower(ctx, value) + [LocalTeeI32(LocalIndex(ctx, name))]
    case ArrayAssignment(arrayName, index, value) =>
      if arrayName == "__mem" then
        var temp := LocalIndex(ctx, "$temp");
        Lower(ctx, index) + Lower(ctx, value) + [LocalTeeI32(temp), StoreI32(2, 0), LocalGetI32(temp)]
      else
        [LocalGetI32(LocalIndex(ctx, arrayName))] + Lower(ctx, index) + Lower(ctx, value)
        + [Call(ctx.symbols.functionIndex("__writeInt32Array"))]
    case BinaryExpression(first, rest) => Lower(ctx, first) + LowerOperands(ctx, rest)
    case CallExpression(callee, arguments) =>
      if callee == "__trap" then [Unreachable]
      else LowerAll(ctx, arguments) + [Call(ctx.symbols.functionIndex(callee))]
    case IfExpression(condition, thenBlock, elseBlock) =>
      Lower(ctx, condition) + [If(Some(I32))] + Lower(ctx, thenBlock) + [Else] + Lower(ctx, elseBlock) + [End]
    case ArrayIndex(arrayName, index) =>
      if arrayName == "__mem" then Lower(ctx, index) + [LoadI32(2, 0)]
      else
        [LocalGetI32(LocalIndex(ctx, arrayName))] + Lower(ctx, index)
        + [Call(ctx.symbols.functionIndex("__readInt32Array"))]
    case Identifier(name) =>
      if name == "__heap_base" then [ConstI32(ctx.strings.Len())] else [LocalGetI32(LocalIndex(ctx, name))]
    case Number(value) => [ConstI32(value)]
    case StringLiteral(value) => [ConstI32(ctx.strings.Offset(value))]
    case Eoi => []
  }

  /** The code for a list of trees, one after the other. */
  function LowerAll(ctx: Context, items: seq<Node>): seq<Instruction>
    requires LiteralsKnown(ctx, LiteralsAll(items))
    decreases items
  {
    if items == [] then [] else LowerAll(ctx, items[..|items| - 1]) + Lower(ctx, items[|items| - 1])
  }

  /** The code for the operator-operand pairs: each operand, then its operator. */
  function LowerOperands(ctx: Context, rest: seq<Operand>): seq<Instruction>
    requires LiteralsKnown(ctx, LiteralsOperands(rest))
    decreases rest
  {
    if rest == [] then []
    else
      var last := rest[|rest| - 1];
      assert last in rest;
      assert last.operand < last;
      LowerOperands(ctx, rest[..|rest| - 1]) + Lower(ctx, last.operand) + [OperationInstruction(last.operation)]
  }

  // ---------------------------------------------------------------------
  // The collector
  // ---------------------------------------------------------------------

  /** `InstructionCollector`: the function it compiles, its tables, and the code pushed so far. */
  class InstructionCollector {
    const name: string
    const symbols: SymbolApi
    const strings: StringTable.Strings
    var instructions: seq<Instruction>

    /** `InstructionCollector::new`. */
    constructor (name: string, symbols: SymbolApi, strings: StringTable.Strings)
      ensures this.name == name && this.symbols == symbols && this.strings == strings
      ensures instructions == []
    {
      this.name := name;
      this.symbols := symbols;
      this.strings := strings;
      instructions := [];
    }

    /** The fixed fields, as the context `Lower` reads. */
    function Ctx(): Context
    {
      Context(name, symbols, strings)
    }

    /** `collect_inner`: pushes the code for `n`, one arm per rule. */
    method CollectInner(n: Node)
      requires LiteralsKnown(Ctx(), Literals(n))
      modifies this
      ensures instructions == old(instructions) + Lower(Ctx(), n)
      decreases n, 1
    {
      match n {
        case BlockExpression(items) => CollectAll(items);
        case BlockStatements(items) => CollectAll(items);
        case LetStatement(_, _) => CollectLocalWrite(n);
        case IfStatement(_, _, _) => CollectIfStatement(n);
        case WhileStatement(_, _) => CollectWhileStatement(n);
        case ExpressionStatement(_) => CollectExpressionStatement(n);
        case VariableAssignment(_, _) => CollectLocalWrite(n);
        case ArrayAssignment(_, _, _) => CollectArrayAssignment(n);
        case BinaryExpression(_, _) => CollectBinaryExpression(n);
        case CallExpression(_, _) => CollectCallExpression(n);
        case IfExpression(_, _, _) => CollectIfExpression(n);
        case ArrayIndex(_, _) => CollectArrayIndex(n);
        case Identifier(_) => CollectLeaf(n);
        case Number(_) => CollectLeaf(n);
        case StringLiteral(_) => CollectLeaf(n);
        case Eoi => CollectLeaf(n);
      }
    }

    /** The arms that push one instruction or none: identifiers, numbers, string literals and end of input. */
    method CollectLeaf(n: Node)
      requires n.Identifier? || n.Number? || n.StringLiteral? || n.Eoi?
      requires LiteralsKnown(Ctx(), Literals(n))
      modifies this
      ensures instructions == old(instructions) + Lower(Ctx(), n)
    {
      match n {
        case Identifier(name) =>
          if name == "__heap_base" {
            instructions := instructions + [ConstI32(strings.Len())];
          } else {
            var index := symbols.local(this.name, name).1;
            instructions := instructions + [LocalGetI32(index)];
          }
        case Number(value) =>
          instructions := instructions + [ConstI32(value)];
        case StringLiteral(value) =>
          var offset := strings.Offset(value);
          instructions := instructions + [ConstI32(offset)];
        case Eoi =>
      }
    }

    /** The `let_statement` and `variable_assignment_expression` arms: the value, then a set or tee of the local. */
    method CollectLocalWrite(n: Node)
      requires n.LetStatement? || n.VariableAssignment?
      requires LiteralsKnown(Ctx(), Literals(n))
      modifies this
      ensures instructions == old(instructions) + Lower(Ctx(), n)
      decreases n, 0
    {
      var index := symbols.local(this.name, n.name).1;
      CollectInner(n.value);
      if n.LetStatement? {
        instructions := instructions + [LocalSetI32(index)];
      } else {
        instructions := instructions + [LocalTeeI32(index)];
      }
    }

    /** The `while_statement` arm: `loop`, condition, `if`, body, `br 1`, `end`, `end`. */
    method CollectWhileStatement(n: Node)
      requires n.WhileStatement? && LiteralsKnown(Ctx(), Literals(n))
      modifies this
      ensures instructions == old(instructions) + Lower(Ctx(), n)
      decreases n, 0
    {
      LowerWhileStatement(Ctx(), n);
      instructions := instructions + [Loop(None)];
      CollectInner(n.condition);
      instructions := instructions + [If(None)];
      CollectInner(n.body);
      instructions := instructions + [Break(1)];
      instructions := instructions + [End];
      instructions := instructions + [End];
    }

    /** The `expression_statement` arm: the expression, then `drop`. */
    method CollectExpressionStatement(n: Node)
      requires n.ExpressionStatement? && LiteralsKnown(Ctx(), Literals(n))
      modifies this
      ensures instructions == old(instructions) + Lower(Ctx(), n)
      decreases n, 0
    {
      CollectInner(n.expression);
      instructions := instructions + [Drop];
    }

    /** The `call_expression` arm: `unreachable` for `__trap`, else the arguments and the call. */
    method CollectCallExpression(n: Node)
      requires n.CallExpression? && LiteralsKnown(Ctx(), Literals(n))
      modifies this
      ensures instructions == old(instructions) + Lower(Ctx(), n)
      decreases n, 0
    {
      if n.callee == "__trap" {
        instructions := instructions + [Unreachable];
      } else {
        var index := symbols.functionIndex(n.callee);
        CollectAll(n.arguments);
        instructions := instructions + [Call(index)];
      }
    }

    /** The `if_expression` arm: condition, `if` with result i32, then-block, `else`, else-block, `end`. */
    method CollectIfExpression(n: Node)
      requires n.IfExpression? && LiteralsKnown(Ctx(), Literals(n))
      modifies this
      ensures instructions == old(instructions) + Lower(Ctx(), n)
      decreases n, 0
    {
      LowerIfExpression(Ctx(), n);
      CollectInner(n.condition);
      instructions := instructions + [If(Some(I32))];
      CollectInner(n.thenBlock);
      instructions := instructions + [Else];
      CollectInner(n.elseBlock);
      instructions := instructions + [End];
    }

    /** The `if_statement` arm: condition, `if`, then-block, optionally `else` and else-block, `end`. */
    method CollectIfStatement(n: Node)
      requires n.IfStatement? && LiteralsKnown(Ctx(), Literals(n))
      modifies this
      ensures instructions == old(instructions) + Lower(Ctx(), n)
      decreases n, 0
    {
      LowerIfStatement(Ctx(), n);
      CollectInner(n.condition);
      instructions := instructions + [If(None)];
      CollectInner(n.thenBlock);
      if n.optionalElse.Some? {
        instructions := instructions + [Else];
        CollectInner(n.optionalElse.value);
      }
      instructions := instructions + [End];
    }

    /** The `array_assignment_expression` arm: a store to `__mem`, or a call to `__writeInt32Array`. */
    method CollectArrayAssignment(n: Node)
      requires n.ArrayAssignment? && LiteralsKnown(Ctx(), Literals(n))
      modifies this
      ensures instructions == old(instructions) + Lower(Ctx(), n)
      decreases n, 0
    {
      LowerArrayAssignment(Ctx(), n);
      if n.arrayName == "__mem" {
        CollectInner(n.index);
        CollectInner(n.value);
        var temp := symbols.local(this.name, "$temp").1;
        instructions := instructions + [LocalTeeI32(temp)];
        instructions := instructions + [StoreI32(2, 0)];
        instructions := instructions + [LocalGetI32(temp)];
      } else {
        var identIndex := symbols.local(this.name, n.arrayName).1;
        instructions := instructions + [LocalGetI32(identIndex)];
        CollectInner(n.index);
        CollectInner(n.value);
        var functionIndex := symbols.functionIndex("__writeInt32Array");
        instructions := instructions + [Call(functionIndex)];
      }
    }

    /** The `array_index` arm: a load from `__mem`, or a call to `__readInt32Array`. */
    method CollectArrayIndex(n: Node)
      requires n.ArrayIndex? && LiteralsKnown(Ctx(), Literals(n))
      modifies this
      ensures instructions == old(instructions) + Lower(Ctx(), n)
      decreases n, 0
    {
      if n.arrayName == "__mem" {
        CollectInner(n.index);
        instructions := instructions + [LoadI32(2, 0)];
      } else {
        var identIndex := symbols.local(this.name, n.arrayName).1;
        instructions := instructions + [LocalGetI32(identIndex)];
        CollectInner(n.index);
        var functionIndex := symbols.functionIndex("__readInt32Array");
        instructions := instructions + [Call(functionIndex)];
      }
    }

    /**
     * The `binary_expression` arm: the first operand, then a `while let` loop
     * that takes the pairs two at a time and pushes the operand before the
     * operator.
     */
    method CollectBinaryExpression(n: Node)
      requires n.BinaryExpression? && LiteralsKnown(Ctx(), Literals(n))
      modifies this
      ensures instructions == old(instructions) + Lower(Ctx(), n)
      decreases n, 0
    {
      var ctx := Ctx();
      var rest := n.rest;
      LowerBinaryExpression(ctx, n);
      CollectInner(n.first);
      ghost var start := instructions;
      var i := 0;
      while i < |rest|
        invariant i <= |rest|
        invariant LiteralsKnown(ctx, LiteralsOperands(rest[..i]))
        invariant instructions == start + LowerOperands(ctx, rest[..i])
      {
        LowerOperandsSnoc(ctx, rest, i);
        CollectInner(rest[i].operand);
        instructions := instructions + [OperationInstruction(rest[i].operation)];
        i := i + 1;
      }
      assert rest[..|rest|] == rest;
    }

    /** The `for pair in pair.into_inner()` loop: collects each tree in turn. */
    method CollectAll(items: seq<Node>)
      requires LiteralsKnown(Ctx(), LiteralsAll(items))
      modifies this
      ensures instructions == old(instructions) + LowerAll(Ctx(), items)
      decreases items, 0
    {
      for i := 0 to |items|
        invariant LiteralsKnown(Ctx(), LiteralsAll(items[..i]))
        invariant instructions == old(instructions) + LowerAll(Ctx(), items[..i])
      {
        assert items[..i + 1][..i] == items[..i];
        assert LiteralsKnown(Ctx(), Literals(items[i])) by {
          LiteralsAllPrefix(items, i);
        }
        CollectInner(items[i]);
      }
      assert items[..|items|] == items;
    }

    /** `collect`: the code for the body, then the `end` that closes the function. */
    method Collect(body: Node)
      requires LiteralsKnown(Ctx(), Literals(body))
      modifies this
      ensures instructions == old(instructions) + Lower(Ctx(), body) + [End]
    {
      CollectInner(body);
      instructions := instructions + [End];
    }
  }

  /** One unfolding of `Lower` for an array assignment. */
  lemma LowerArrayAssignment(ctx: Context, n: Node)
    requires n.ArrayAssignment? && LiteralsKnown(ctx, Literals(n))
    ensures LiteralsKnown(ctx, Literals(n.index)) && LiteralsKnown(ctx, Literals(n.value))
    ensures n.arrayName == "__mem" ==>
      Lower(ctx, n) == Lower(ctx, n.index) + Lower(ctx, n.value)
        + [LocalTeeI32(LocalIndex(ctx, "$temp")), StoreI32(2, 0), LocalGetI32(LocalIndex(ctx, "$temp"))]
    ensures n.arrayName != "__mem" ==>
      Lower(ctx, n) == [LocalGetI32(LocalIndex(ctx, n.arrayName))] + Lower(ctx, n.index) + Lower(ctx, n.value)
        + [Call(ctx.symbols.functionIndex("__writeInt32Array"))]
  {
  }

  /** One unfolding of `Lower` for a while statement. */
  lemma LowerWhileStatement(ctx: Context, n: Node)
    requires n.WhileStatement? && LiteralsKnown(ctx, Literals(n))
    ensures LiteralsKnown(ctx, Literals(n.condition)) && LiteralsKnown(ctx, Literals(n.body))
    ensures Lower(ctx, n) == [Loop(None)] + Lower(ctx, n.condition) + [If(None)] + Lower(ctx, n.body) + [Break(1), End, End]
  {
  }

  /** One unfolding of `Lower` for an if statement. */
  lemma LowerIfStatement(ctx: Context, n: Node)
    requires n.IfStatement? && LiteralsKnown(ctx, Literals(n))
    ensures LiteralsKnown(ctx, Literals(n.condition)) && LiteralsKnown(ctx, Literals(n.thenBlock))
    ensures n.optionalElse.Some? ==> LiteralsKnown(ctx, Literals(n.optionalElse.value))
    ensures n.optionalElse.None? ==>
      Lower(ctx, n) == Lower(ctx, n.condition) + [If(None)] + Lower(ctx, n.thenBlock) + [End]
    ensures n.optionalElse.Some? ==>
      Lower(ctx, n) == Lower(ctx, n.condition) + [If(None)] + Lower(ctx, n.thenBlock)
        + [Else] + Lower(ctx, n.optionalElse.value) + [End]
  {
    if n.optionalElse.None? {
      assert Lower(ctx, n) == Lower(ctx, n.condition) + [If(None)] + Lower(ctx, n.thenBlock) + [] + [End];
    }
  }

  /** One unfolding of `Lower` for an if expression. */
  lemma LowerIfExpression(ctx: Context, n: Node)
    requires n.IfExpression? && LiteralsKnown(ctx, Literals(n))
    ensures LiteralsKnown(ctx, Literals(n.condition)) && LiteralsKnown(ctx, Literals(n.thenBlock))
      && LiteralsKnown(ctx, Literals(n.elseBlock))
    ensures Lower(ctx, n) == Lower(ctx, n.condition) + [If(Some(I32))] + Lower(ctx, n.thenBlock)
      + [Else] + Lower(ctx, n.elseBlock) + [End]
  {
  }

  /** One unfolding of `Lower` for a binary expression. */
  lemma LowerBinaryExpression(ctx: Context, n: Node)
    requires n.BinaryExpression? && LiteralsKnown(ctx, Literals(n))
    ensures LiteralsKnown(ctx, Literals(n.first)) && LiteralsKnown(ctx, LiteralsOperands(n.rest))
    ensures Lower(ctx, n) == Lower(ctx, n.first) + LowerOperands(ctx, n.rest)
  {
  }

  /** The code for the first `i + 1` pairs extends the code for the first `i` by the next pair's. */
  lemma LowerOperandsSnoc(ctx: Context, rest: seq<Operand>, i: nat)
    requires i < |rest| && LiteralsKnown(ctx, LiteralsOperands(rest))
    ensures LiteralsKnown(ctx, LiteralsOperands(rest[..i])) && LiteralsKnown(ctx, Literals(rest[i].operand))
    ensures LiteralsKnown(ctx, LiteralsOperands(rest[..i + 1]))
    ensures LowerOperands(ctx, rest[..i + 1])
      == LowerOperands(ctx, rest[..i]) + Lower(ctx, rest[i].operand) + [OperationInstruction(rest[i].operation)]
  {
    LiteralsOperandsPrefix(rest, i);
    assert rest[..i + 1][..i] == rest[..i];
  }

  /** The literals of a prefix of a list, and of its next tree, are literals of the list. */
  lemma {:induction false} LiteralsAllPrefix(items: seq<Node>, i: nat)
    requires i < |items|
    ensures forall s | s in LiteralsAll(items[..i]) + Literals(items[i]) :: s in LiteralsAll(items)
    decreases |items|
  {
    assert items[..i + 1][..i] == items[..i];
    if i + 1 < |items| {
      var init := items[..|items| - 1];
      LiteralsAllPrefix(init, i);
      assert init[..i] == items[..i];
    } else {
      assert items[..i + 1] == items;
    }
  }

  /** The same for the operands of a binary expression. */
  lemma {:induction false} LiteralsOperandsPrefix(rest: seq<Operand>, i: nat)
    requires i < |rest|
    ensures forall s | s in LiteralsOperands(rest[..i]) + Literals(rest[i].operand) :: s in LiteralsOperands(rest)
    decreases |rest|
  {
    assert rest[..i + 1][..i] == rest[..i];
    if i + 1 < |rest| {
      var init := rest[..|rest| - 1];
      LiteralsOperandsPrefix(init, i);
      assert init[..i] == rest[..i];
    } else {
      assert rest[..i + 1] == rest;
    }
  }

  // ---------------------------------------------------------------------
  // The shape of the emitted code: blocks are properly nested
  // ---------------------------------------------------------------------

  /** Balanced code followed by instructions that open and close nothing is balanced. */
  lemma ThenFlat(code: seq<Instruction>, flat: seq<Instruction>, open: seq<Nesting.Block>)
    requires Nesting.Nest(code, open) == Some(open)
    requires forall i | i in flat :: !i.If? && !i.Loop? && !i.Else? && !i.End? && !i.Break?
    ensures Nesting.Nest(code + flat, open) == Some(open)
  {
    Nesting.NestFlat(flat, open);
    Nesting.Balanced2(code, flat, open);
  }

  /**
   * The code for any tree closes every block it opens, puts `else` only
   * inside an `if`, and branches only to blocks it is inside, whatever blocks
   * are open around it.
   */
  lemma {:induction false} LowerIsNested(ctx: Context, n: Node, open: seq<Nesting.Block>)
    requires LiteralsKnown(ctx, Literals(n))
    ensures Nesting.Nest(Lower(ctx, n), open) == Some(open)
    decreases n, 1
  {
    match n {
      case BlockExpression(items) => LowerAllIsNested(ctx, items, open);
      case BlockStatements(items) => LowerAllIsNested(ctx, items, open);
      case LetStatement(name, value) =>
        LowerIsNested(ctx, value, open);
        ThenFlat(Lower(ctx, value), [LocalSetI32(LocalIndex(ctx, name))], open);
      case IfStatement(_, _, _) => IfStatementIsNested(ctx, n, open);
      case WhileStatement(condition, body) =>
        LowerIsNested(ctx, condition, open + [Nesting.LoopBlock]);
        LowerIsNested(ctx, body, open + [Nesting.LoopBlock, Nesting.IfBlock]);
        Nesting.LoopEnclosed(Lower(ctx, condition), Lower(ctx, body), open);
      case ExpressionStatement(expression) =>
        LowerIsNested(ctx, expression, open);
        ThenFlat(Lower(ctx, expression), [Drop], open);
      case VariableAssignment(name, value) =>
        LowerIsNested(ctx, value, open);
        ThenFlat(Lower(ctx, value), [LocalTeeI32(LocalIndex(ctx, name))], open);
      case ArrayAssignment(_, _, _) => ArrayAssignmentIsNested(ctx, n, open);
      case BinaryExpression(first, rest) =>
        LowerIsNested(ctx, first, open);
        LowerOperandsIsNested(ctx, rest, open);
        Nesting.Balanced2(Lower(ctx, first), LowerOperands(ctx, rest), open);
      case CallExpression(callee, arguments) =>
        if callee == "__trap" {
          Nesting.NestFlat([Unreachable], open);
        } else {
          LowerAllIsNested(ctx, arguments, open);
          ThenFlat(LowerAll(ctx, arguments), [Call(ctx.symbols.functionIndex(callee))], open);
        }
      case IfExpression(_, _, _) => IfExpressionIsNested(ctx, n, open);
      case ArrayIndex(_, _) => ArrayIndexIsNested(ctx, n, open);
      case Identifier(_) => Nesting.NestFlat(Lower(ctx, n), open);
      case Number(_) => Nesting.NestFlat(Lower(ctx, n), open);
      case StringLiteral(_) => Nesting.NestFlat(Lower(ctx, n), open);
      case Eoi =>
    }
  }

  lemma {:induction false} IfStatementIsNested(ctx: Context, n: Node, open: seq<Nesting.Block>)
    requires n.IfStatement? && LiteralsKnown(ctx, Literals(n))
    ensures Nesting.Nest(Lower(ctx, n), open) == Some(open)
    decreases n, 0
  {
    LowerIfStatement(ctx, n);
    var c, t := Lower(ctx, n.condition), Lower(ctx, n.thenBlock);
    LowerIsNested(ctx, n.condition, open);
    LowerIsNested(ctx, n.thenBlock, open + [Nesting.IfBlock]);
    if n.optionalElse.Some? {
      var e := Lower(ctx, n.optionalElse.value);
      LowerIsNested(ctx, n.optionalElse.value, open + [Nesting.ElseBlock]);
      Nesting.IfElseEnclosed(If(None), t, e, open);
      Nesting.Balanced2(c, [If(None)] + t + [Else] + e + [End], open);
      assert Lower(ctx, n) == c + ([If(None)] + t + [Else] + e + [End]);
    } else {
      Nesting.Enclosed(If(None), t, Nesting.IfBlock, open);
      Nesting.Balanced2(c, [If(None)] + t + [End], open);
      assert Lower(ctx, n) == c + ([If(None)] + t + [End]);
    }
  }

  lemma {:induction false} IfExpressionIsNested(ctx: Context, n: Node, open: seq<Nesting.Block>)
    requires n.IfExpression? && LiteralsKnown(ctx, Literals(n))
    ensures Nesting.Nest(Lower(ctx, n), open) == Some(open)
    decreases n, 0
  {
    LowerIfExpression(ctx, n);
    var c, t, e := Lower(ctx, n.condition), Lower(ctx, n.thenBlock), Lower(ctx, n.elseBlock);
    LowerIsNested(ctx, n.condition, open);
    LowerIsNested(ctx, n.thenBlock, open + [Nesting.IfBlock]);
    LowerIsNested(ctx, n.elseBlock, open + [Nesting.ElseBlock]);
    Nesting.IfElseEnclosed(If(Some(I32)), t, e, open);
    Nesting.Balanced2(c, [If(Some(I32))] + t + [Else] + e + [End], open);
    assert Lower(ctx, n) == c + ([If(Some(I32))] + t + [Else] + e + [End]);
  }

  lemma {:induction false} ArrayAssignmentIsNested(ctx: Context, n: Node, open: seq<Nesting.Block>)
    requires n.ArrayAssignment? && LiteralsKnown(ctx, Literals(n))
    ensures Nesting.Nest(Lower(ctx, n), open) == Some(open)
    decreases n, 0
  {
    LowerArrayAssignment(ctx, n);
    var i, v := Lower(ctx, n.index), Lower(ctx, n.value);
    LowerIsNested(ctx, n.index, open);
    LowerIsNested(ctx, n.value, open);
    Nesting.Balanced2(i, v, open);
    if n.arrayName == "__mem" {
      var temp := LocalIndex(ctx, "$temp");
      ThenFlat(i + v, [LocalTeeI32(temp), StoreI32(2, 0), LocalGetI32(temp)], open);
    } else {
      var get := [LocalGetI32(LocalIndex(ctx, n.arrayName))];
      var call := [Call(ctx.symbols.functionIndex("__writeInt32Array"))];
      Nesting.NestFlat(get, open);
      Nesting.Balanced2(get, i + v, open);
      ThenFlat(get + (i + v), call, open);
      assert Lower(ctx, n) == get + (i + v) + call;
    }
  }

  lemma {:induction false} ArrayIndexIsNested(ctx: Context, n: Node, open: seq<Nesting.Block>)
    requires n.ArrayIndex? && LiteralsKnown(ctx, Literals(n))
    ensures Nesting.Nest(Lower(ctx, n), open) == Some(open)
    decreases n, 0
  {
    var i := Lower(ctx, n.index);
    LowerIsNested(ctx, n.index, open);
    if n.arrayName == "__mem" {
      ThenFlat(i, [LoadI32(2, 0)], open);
    } else {
      var get := [LocalGetI32(LocalIndex(ctx, n.arrayName))];
      Nesting.NestFlat(get, open);
      Nesting.Balanced2(get, i, open);
      ThenFlat(get + i, [Call(ctx.symbols.functionIndex("__readInt32Array"))], open);
    }
  }

  /** The same for a list of trees. */
  lemma {:induction false} LowerAllIsNested(ctx: Context, items: seq<Node>, open: seq<Nesting.Block>)
    requires LiteralsKnown(ctx, LiteralsAll(items))
    ensures Nesting.Nest(LowerAll(ctx, items), open) == Some(open)
    decreases items, 0
  {
    if items != [] {
      var init, last := items[..|items| - 1], items[|items| - 1];
      LowerAllIsNested(ctx, init, open);
      LowerIsNested(ctx, last, open);
      Nesting.Balanced2(LowerAll(ctx, init), Lower(ctx, last), open);
    }
  }

  /** The same for the operator-operand pairs of a binary expression. */
  lemma {:induction false} LowerOperandsIsNested(ctx: Context, rest: seq<Operand>, open: seq<Nesting.Block>)
    requires LiteralsKnown(ctx, LiteralsOperands(rest))
    ensures Nesting.Nest(LowerOperands(ctx, rest), open) == Some(open)
    decreases rest, 0
  {
    if rest != [] {
      var init, last := rest[..|rest| - 1], rest[|rest| - 1];
      assert last in rest;
      assert last.operand < last;
      LowerOperandsIsNested(ctx, init, open);
      LowerIsNested(ctx, last.operand, open);
      Nesting.Balanced2(LowerOperands(ctx, init), Lower(ctx, last.operand), open);
      ThenFlat(LowerOperands(ctx, init) + Lower(ctx, last.operand), [OperationInstruction(last.operation)], open);
    }
  }

  // ---------------------------------------------------------------------
  // Functions and programs
  // ---------------------------------------------------------------------

  /** A `function` rule: its name, parameter names and body. */
  datatype FunctionDefinition = FunctionDefinition(name: string, parameters: seq<string>, body: Node)

  /** The items of a `module`, in source order. */
  datatype Item =
    | ExternalFunction(externalName: string)
    | PublicFunction(definition: FunctionDefinition)
    | PrivateFunction(definition: FunctionDefinition)
    | EndOfInput

  /** `Import`: an external function and its parameter types. */
  datatype Import = Import(name: string, parameters: seq<ValueType>)

  /** `Function`: a compiled function. */
  datatype Function = Function(
    name: string,
    public: bool,
    parameters: seq<ValueType>,
    locals: seq<(nat, ValueType)>,
    instructions: seq<Instruction>)

  /** `Wafer`: the imports, the compiled functions and the string table's bytes. */
  datatype Program = Program(imports: seq<Import>, functions: seq<Function>, data: seq<byte>)

  /** The string literals of a module, in the order `Strings::from` walks them. */
  function ModuleLiterals(items: seq<Item>): seq<string>
  {
    if items == [] then []
    else
      var last := items[|items| - 1];
      ModuleLiterals(items[..|items| - 1])
      + (if last.PublicFunction? || last.PrivateFunction? then Literals(last.definition.body) else [])
  }

  /** What `parse_function` returns for a definition. */
  function CompileFunction(
    definition: FunctionDefinition, public: bool, symbols: SymbolApi, strings: StringTable.Strings): Function
    requires LiteralsKnown(Context(definition.name, symbols, strings), Literals(definition.body))
  {
    var ctx := Context(definition.name, symbols, strings);
    Function(definition.name, public, symbols.parameters(definition.name), symbols.locals(definition.name),
      Lower(ctx, definition.body) + [End])
  }

  /** The imports of a module, in order. */
  function ImportsOf(items: seq<Item>, symbols: SymbolApi): seq<Import>
  {
    if items == [] then []
    else
      var last := items[|items| - 1];
      ImportsOf(items[..|items| - 1], symbols)
      + (if last.ExternalFunction? then [Import(last.externalName, symbols.parameters(last.externalName))] else [])
  }

  /** Every literal of the module has an offset in `strings`. */
  predicate ModuleLiteralsKnown(items: seq<Item>, strings: StringTable.Strings)
  {
    forall s | s in ModuleLiterals(items) :: s in strings.offsets
  }

  /** The functions of a module, compiled in order. */
  function FunctionsOf(items: seq<Item>, symbols: SymbolApi, strings: StringTable.Strings): seq<Function>
    requires ModuleLiteralsKnown(items, strings)
  {
    if items == [] then []
    else
      var init, last := items[..|items| - 1], items[|items| - 1];
      assert ModuleLiterals(items) == ModuleLiterals(init)
        + (if last.PublicFunction? || last.PrivateFunction? then Literals(last.definition.body) else []);
      FunctionsOf(init, symbols, strings)
      + (if last.PublicFunction? || last.PrivateFunction? then
           [CompileFunction(last.definition, last.PublicFunction?, symbols, strings)]
         else [])
  }

  /** `parse_function`: collects the body of a definition into a `Function`. */
  method ParseFunction(definition: FunctionDefinition, public: bool, symbols: SymbolApi, strings: StringTable.Strings)
    returns (compiled: Function)
    requires LiteralsKnown(Context(definition.name, symbols, strings), Literals(definition.body))
    ensures compiled == CompileFunction(definition, public, symbols, strings)
  {
    var collector := new InstructionCollector(definition.name, symbols, strings);
    collector.Collect(definition.body);
    compiled := Function(definition.name, public, symbols.parameters(definition.name),
      symbols.locals(definition.name), collector.instructions);
  }

  /**
   * `Wafer::parse`, from the parsed items on: builds the string table from
   * all literals, then walks the items, pushing an import for each external
   * function and a compiled function for each public or private one.
   */
  method Parse(items: seq<Item>, symbols: SymbolApi) returns (wafer: Program)
    ensures ModuleLiteralsKnown(items, StringTable.Strings(
      StringTable.Offsets(ModuleLiterals(items)), StringTable.Layout(ModuleLiterals(items))))
    ensures wafer == Program(
      ImportsOf(items, symbols),
      FunctionsOf(items, symbols, StringTable.Strings(
        StringTable.Offsets(ModuleLiterals(items)), StringTable.Layout(ModuleLiterals(items)))),
      StringTable.Layout(ModuleLiterals(items)))
  {
    var strings := StringTable.From(ModuleLiterals(items));
    var imports: seq<Import> := [];
    var functions: seq<Function> := [];
    for i := 0 to |items|
      invariant ModuleLiteralsKnown(items[..i], strings)
      invariant imports == ImportsOf(items[..i], symbols)
      invariant functions == FunctionsOf(items[..i], symbols, strings)
    {
      assert items[..i + 1][..i] == items[..i];
      ModuleLiteralsPrefix(items, i + 1);
      match items[i] {
        case ExternalFunction(name) =>
          imports := imports + [Import(name, symbols.parameters(name))];
        case PublicFunction(definition) =>
          var compiled := ParseFunction(definition, true, symbols, strings);
          functions := functions + [compiled];
        case PrivateFunction(definition) =>
          var compiled := ParseFunction(definition, false, symbols, strings);
          functions := functions + [compiled];
        case EndOfInput =>
      }
    }
    assert items[..|items|] == items;
    wafer := Program(imports, functions, strings.IntoBytes());
  }

  /** The literals of a prefix of the items are literals of the module. */
  lemma {:induction false} ModuleLiteralsPrefix(items: seq<Item>, i: nat)
    requires i <= |items|
    ensures forall s | s in ModuleLiterals(items[..i]) :: s in ModuleLiterals(items)
    decreases |items|
  {
    if i < |items| {
      var init := items[..|items| - 1];
      ModuleLiteralsPrefix(init, i);
      assert init[..i] == items[..i];
    } else {
      assert items[..i] == items;
    }
  }

  /** Every node of a module's function bodies in preorder, item after item. */
  ghost function ModulePreorder(items: seq<Item>): seq<Node>
  {
    if items == [] then []
    else
      var last := items[|items| - 1];
      ModulePreorder(items[..|items| - 1])
      + (if last.PublicFunction? || last.PrivateFunction? then Preorder(last.definition.body) else [])
  }

  /**
   * The literals `Strings::from` walks are the texts of the string-literal
   * nodes of the module, in the order `flatten` visits them.
   */
  lemma {:induction false} ModuleLiteralsInPreorder(items: seq<Item>)
    ensures ModuleLiterals(items) == StringTexts(ModulePreorder(items))
    decreases |items|
  {
    if items != [] {
      var init, last := items[..|items| - 1], items[|items| - 1];
      ModuleLiteralsInPreorder(init);
      if last.PublicFunction? || last.PrivateFunction? {
        LiteralsInPreorder(last.definition.body);
        StringTextsAppend(ModulePreorder(init), Preorder(last.definition.body));
      } else {
        assert ModulePreorder(items) == ModulePreorder(init) + [] == ModulePreorder(init);
        assert ModuleLiterals(items) == ModuleLiterals(init) + [] == ModuleLiterals(init);
      }
    }
  }

  /** Each item contributes its literals independently, in source order. */
  lemma {:induction false} ModuleLiteralsAppend(a: seq<Item>, b: seq<Item>)
    ensures ModuleLiterals(a + b) == ModuleLiterals(a) + ModuleLiterals(b)
    decreases |b|
  {
    if b != [] {
      assert (a + b)[..|a + b| - 1] == a + b[..|b| - 1];
      assert (a + b)[|a + b| - 1] == b[|b| - 1];
      ModuleLiteralsAppend(a, b[..|b| - 1]);
    } else {
      assert a + b == a;
    }
  }

  /** Each item contributes its import independently, in source order. */
  lemma {:induction false} ImportsOfAppend(a: seq<Item>, b: seq<Item>, symbols: SymbolApi)
    ensures ImportsOf(a + b, symbols) == ImportsOf(a, symbols) + ImportsOf(b, symbols)
    decreases |b|
  {
    if b != [] {
      assert (a + b)[..|a + b| - 1] == a + b[..|b| - 1];
      assert (a + b)[|a + b| - 1] == b[|b| - 1];
      ImportsOfAppend(a, b[..|b| - 1], symbols);
    } else {
      assert a + b == a;
    }
  }

  /** Each item contributes its compiled function independently, in source order. */
  lemma {:induction false} FunctionsOfAppend(a: seq<Item>, b: seq<Item>, symbols: SymbolApi, strings: StringTable.Strings)
    requires ModuleLiteralsKnown(a + b, strings)
    ensures ModuleLiteralsKnown(a, strings) && ModuleLiteralsKnown(b, strings)
    ensures FunctionsOf(a + b, symbols, strings) == FunctionsOf(a, symbols, strings) + FunctionsOf(b, symbols, strings)
    decreases |b|
  {
    ModuleLiteralsAppend(a, b);
    if b != [] {
      var init := b[..|b| - 1];
      assert (a + b)[..|a + b| - 1] == a + init;
      assert (a + b)[|a + b| - 1] == b[|b| - 1];
      ModuleLiteralsAppend(a, init);
      ModuleLiteralsPrefix(b, |b| - 1);
      assert b[..|b| - 1] == init;
      FunctionsOfAppend(a, init, symbols, strings);
    } else {
      assert a + b == a;
    }
  }

  /**
   * The imports are exactly the external functions: every import names one,
   * with its parameters, and every external function has its import.
   */
  lemma {:induction false} ImportsOfExactly(items: seq<Item>, symbols: SymbolApi)
    ensures forall imp | imp in ImportsOf(items, symbols) ::
      ExternalFunction(imp.name) in items && imp.parameters == symbols.parameters(imp.name)
    ensures forall k | 0 <= k < |items| && items[k].ExternalFunction? ::
      Import(items[k].externalName, symbols.parameters(items[k].externalName)) in ImportsOf(items, symbols)
    decreases |items|
  {
    if items != [] {
      var init, last := items[..|items| - 1], items[|items| - 1];
      ImportsOfExactly(init, symbols);
      assert forall x | x in init :: x in items;
      forall k | 0 <= k < |items| && items[k].ExternalFunction?
        ensures Import(items[k].externalName, symbols.parameters(items[k].externalName)) in ImportsOf(items, symbols)
      {
        if k < |init| {
          assert items[k] == init[k];
        }
      }
    }
  }

  /**
   * The compiled functions are exactly the module's function definitions:
   * each definition is compiled with its visibility, and every compiled
   * function comes from one.
   */
  lemma {:induction false} FunctionsOfExactly(items: seq<Item>, symbols: SymbolApi, strings: StringTable.Strings)
    requires ModuleLiteralsKnown(items, strings)
    ensures forall k | 0 <= k < |items| && (items[k].PublicFunction? || items[k].PrivateFunction?) ::
      LiteralsKnown(Context(items[k].definition.name, symbols, strings), Literals(items[k].definition.body))
    ensures forall k | 0 <= k < |items| && (items[k].PublicFunction? || items[k].PrivateFunction?) ::
      CompileFunction(items[k].definition, items[k].PublicFunction?, symbols, strings) in FunctionsOf(items, symbols, strings)
    ensures forall f | f in FunctionsOf(items, symbols, strings) ::
      exists k | 0 <= k < |items| && (items[k].PublicFunction? || items[k].PrivateFunction?) ::
        f == CompileFunction(items[k].definition, items[k].PublicFunction?, symbols, strings)
    decreases |items|
  {
    if items != [] {
      var init, last := items[..|items| - 1], items[|items| - 1];
      ModuleLiteralsPrefix(items, |items| - 1);
      FunctionsOfExactly(init, symbols, strings);
      var isFunction := last.PublicFunction? || last.PrivateFunction?;
      assert ModuleLiterals(items) == ModuleLiterals(init) + (if isFunction then Literals(last.definition.body) else []);
      forall k | 0 <= k < |items| && (items[k].PublicFunction? || items[k].PrivateFunction?)
        ensures LiteralsKnown(Context(items[k].definition.name, symbols, strings), Literals(items[k].definition.body))
        ensures CompileFunction(items[k].definition, items[k].PublicFunction?, symbols, strings) in FunctionsOf(items, symbols, strings)
      {
        if k < |init| {
          assert items[k] == init[k];
        }
      }
      forall f | f in FunctionsOf(items, symbols, strings)
        ensures exists k | 0 <= k < |items| && (items[k].PublicFunction? || items[k].PrivateFunction?) ::
          f == CompileFunction(items[k].definition, items[k].PublicFunction?, symbols, strings)
      {
        if f in FunctionsOf(init, symbols, strings) {
          var k :| 0 <= k < |init| && (init[k].PublicFunction? || init[k].PrivateFunction?)
            && f == CompileFunction(init[k].definition, init[k].PublicFunction?, symbols, strings);
          assert items[k] == init[k];
        } else {
          assert items[|items| - 1] == last;
        }
      }
    }
  }

  /**
   * Every function `Parse` compiles ends with the `end` that closes its body,
   * and its blocks are properly nested inside the function's own block.
   */
  lemma {:induction false} CompiledFunctionsAreNested(items: seq<Item>, symbols: SymbolApi, strings: StringTable.Strings)
    requires ModuleLiteralsKnown(items, strings)
    ensures forall f | f in FunctionsOf(items, symbols, strings) ::
      |f.instructions| > 0 && f.instructions[|f.instructions| - 1] == End
      && Nesting.Nest(f.instructions, [Nesting.FunctionBlock]) == Some([])
  {
    if items != [] {
      var init, last := items[..|items| - 1], items[|items| - 1];
      ModuleLiteralsPrefix(items, |items| - 1);
      CompiledFunctionsAreNested(init, symbols, strings);
      if last.PublicFunction? || last.PrivateFunction? {
        CompiledFunctionIsNested(last.definition, last.PublicFunction?, symbols, strings);
      }
    }
  }

  /** A compiled function ends with `end` and closes exactly the function's block. */
  lemma CompiledFunctionIsNested(
    definition: FunctionDefinition, public: bool, symbols: SymbolApi, strings: StringTable.Strings)
    requires LiteralsKnown(Context(definition.name, symbols, strings), Literals(definition.body))
    ensures var f := CompileFunction(definition, public, symbols, strings);
      |f.instructions| > 0 && f.instructions[|f.instructions| - 1] == End
      && Nesting.Nest(f.instructions, [Nesting.FunctionBlock]) == Some([])
  {
    var ctx := Context(definition.name, symbols, strings);
    var body := Lower(ctx, definition.body);
    LowerIsNested(ctx, definition.body, [Nesting.FunctionBlock]);
    Nesting.NestAppend(body, [End], [Nesting.FunctionBlock]);
  }

  // ---------------------------------------------------------------------
  // The tests in wafer.rs, on the trees their sources parse to
  // ---------------------------------------------------------------------

  /**
   * A symbol table for functions with one local: every local name is at
   * index 0, `__readInt32Array` is function 1 and every other function is
   * function 0.
   */
  function TestSymbols(): SymbolApi
  {
    SymbolApi(
      (f: string, local: string) => (I32, 0),
      (callee: string) => if callee == "__readInt32Array" then 1 else 0,
      (f: string) => [],
      (f: string) => [])
  }

  /** An empty string table. */
  function NoStrings(): StringTable.Strings
  {
    StringTable.Strings(map[], [])
  }

  /** One more tree at the end of a list: its literals and its code come last. */
  lemma Snoc(ctx: Context, items: seq<Node>, x: Node)
    requires LiteralsKnown(ctx, LiteralsAll(items) + Literals(x))
    ensures LiteralsAll(items + [x]) == LiteralsAll(items) + Literals(x)
    ensures LowerAll(ctx, items + [x]) == LowerAll(ctx, items) + Lower(ctx, x)
  {
    var all := items + [x];
    assert all[..|all| - 1] == items;
    assert all[|all| - 1] == x;
  }

  /** A list of one tree: its literals and its code. */
  lemma ListOfOne(ctx: Context, a: Node)
    requires LiteralsKnown(ctx, Literals(a))
    ensures LiteralsAll([a]) == Literals(a)
    ensures LowerAll(ctx, [a]) == Lower(ctx, a)
  {
    assert LiteralsAll([]) == [] && LowerAll(ctx, []) == [];
    assert [] + Literals(a) == Literals(a);
    Snoc(ctx, [], a);
    assert [] + [a] == [a];
    assert [] + Lower(ctx, a) == Lower(ctx, a);
  }

  /** A list of two trees: their literals and code, one after the other. */
  lemma ListOfTwo(ctx: Context, a: Node, b: Node)
    requires LiteralsKnown(ctx, Literals(a) + Literals(b))
    ensures LiteralsAll([a, b]) == Literals(a) + Literals(b)
    ensures LowerAll(ctx, [a, b]) == Lower(ctx, a) + Lower(ctx, b)
  {
    assert forall s | s in Literals(a) :: s in Literals(a) + Literals(b);
    ListOfOne(ctx, a);
    Snoc(ctx, [a], b);
    assert [a] + [b] == [a, b];
  }

  /** A list of three trees: their literals and code, one after the other. */
  lemma ListOfThree(ctx: Context, a: Node, b: Node, c: Node)
    requires LiteralsKnown(ctx, Literals(a) + Literals(b) + Literals(c))
    ensures LiteralsAll([a, b, c]) == Literals(a) + Literals(b) + Literals(c)
    ensures LowerAll(ctx, [a, b, c]) == Lower(ctx, a) + Lower(ctx, b) + Lower(ctx, c)
  {
    assert forall s | s in Literals(a) + Literals(b) :: s in Literals(a) + Literals(b) + Literals(c);
    ListOfTwo(ctx, a, b);
    Snoc(ctx, [a, b], c);
    assert [a, b] + [c] == [a, b, c];
  }

  /** `let x = a`. */
  lemma LetCode(ctx: Context, x: string, a: int32)
    ensures Literals(LetStatement(x, Number(a))) == []
    ensures Lower(ctx, LetStatement(x, Number(a))) == [ConstI32(a), LocalSetI32(LocalIndex(ctx, x))]
  {
  }

  /** `x := b;`. */
  lemma AssignStatementCode(ctx: Context, x: string, b: int32)
    ensures Literals(ExpressionStatement(VariableAssignment(x, Number(b)))) == []
    ensures Lower(ctx, ExpressionStatement(VariableAssignment(x, Number(b))))
      == [ConstI32(b), LocalTeeI32(LocalIndex(ctx, x)), Drop]
  {
    var assign := VariableAssignment(x, Number(b));
    assert Literals(assign) == [];
    assert Lower(ctx, assign) == [ConstI32(b)] + [LocalTeeI32(LocalIndex(ctx, x))];
    assert Lower(ctx, ExpressionStatement(assign)) == Lower(ctx, assign) + [Drop];
  }

  /** `first op c`, for a first operand without literals whose code is `code`: that code, `c`, then the operator. */
  lemma OneOperand(ctx: Context, first: Node, code: seq<Instruction>, operation: BinaryOperation, c: int32)
    requires Literals(first) == [] && Lower(ctx, first) == code
    ensures Literals(BinaryExpression(first, [Operand(operation, Number(c))])) == []
    ensures Lower(ctx, BinaryExpression(first, [Operand(operation, Number(c))]))
      == code + [ConstI32(c), OperationInstruction(operation)]
  {
    var rest := [Operand(operation, Number(c))];
    assert rest[..0] == [] && rest[0] == Operand(operation, Number(c));
    assert LiteralsOperands(rest) == [];
    assert LowerOperands(ctx, rest) == [] + [ConstI32(c)] + [OperationInstruction(operation)];
  }

  /** `x * b`, for a local `x`. */
  lemma MultiplyCode(ctx: Context, x: string, b: int32)
    requires x != "__heap_base"
    ensures Literals(BinaryExpression(Identifier(x), [Operand(Multiply, Number(b))])) == []
    ensures Lower(ctx, BinaryExpression(Identifier(x), [Operand(Multiply, Number(b))]))
      == [LocalGetI32(LocalIndex(ctx, x)), ConstI32(b), MultiplyI32]
  {
    OneOperand(ctx, Identifier(x), [LocalGetI32(LocalIndex(ctx, x))], Multiply, b);
  }

  /** `f(a, b + c)`. */
  lemma CallCode(ctx: Context, f: string, a: int32, b: int32, c: int32)
    requires f != "__trap"
    ensures Literals(CallExpression(f, [Number(a), BinaryExpression(Number(b), [Operand(Add, Number(c))])])) == []
    ensures Lower(ctx, CallExpression(f, [Number(a), BinaryExpression(Number(b), [Operand(Add, Number(c))])]))
      == [ConstI32(a), ConstI32(b), ConstI32(c), AddI32, Call(ctx.symbols.functionIndex(f))]
  {
    OneOperand(ctx, Number(b), [ConstI32(b)], Add, c);
    var sum := BinaryExpression(Number(b), [Operand(Add, Number(c))]);
    ListOfTwo(ctx, Number(a), sum);
  }

  /** `x[b] := c;`, for an array `x` other than `__mem`. */
  lemma ArrayStoreCode(ctx: Context, x: string, b: int32, c: int32)
    requires x != "__mem"
    ensures Literals(ExpressionStatement(ArrayAssignment(x, Number(b), Number(c)))) == []
    ensures Lower(ctx, ExpressionStatement(ArrayAssignment(x, Number(b), Number(c))))
      == [LocalGetI32(LocalIndex(ctx, x)), ConstI32(b), ConstI32(c),
          Call(ctx.symbols.functionIndex("__writeInt32Array")), Drop]
  {
    var assign := ArrayAssignment(x, Number(b), Number(c));
    assert Literals(assign) == [];
    assert Lower(ctx, assign)
      == [LocalGetI32(LocalIndex(ctx, x))] + [ConstI32(b)] + [ConstI32(c)]
      + [Call(ctx.symbols.functionIndex("__writeInt32Array"))];
    assert Lower(ctx, ExpressionStatement(assign)) == Lower(ctx, assign) + [Drop];
  }

  /** `x[d]`, for an array `x` other than `__mem`. */
  lemma ArrayLoadCode(ctx: Context, x: string, d: int32)
    requires x != "__mem"
    ensures Literals(ArrayIndex(x, Number(d))) == []
    ensures Lower(ctx, ArrayIndex(x, Number(d)))
      == [LocalGetI32(LocalIndex(ctx, x)), ConstI32(d), Call(ctx.symbols.functionIndex("__readInt32Array"))]
  {
  }

  /** `__mem[a] := b`, as an expression. */
  lemma MemoryAssignCode(ctx: Context, a: int32, b: int32)
    ensures Literals(ArrayAssignment("__mem", Number(a), Number(b))) == []
    ensures Lower(ctx, ArrayAssignment("__mem", Number(a), Number(b)))
      == [ConstI32(a), ConstI32(b), LocalTeeI32(LocalIndex(ctx, "$temp")), StoreI32(2, 0),
          LocalGetI32(LocalIndex(ctx, "$temp"))]
  {
    assert Lower(ctx, Number(a)) == [ConstI32(a)];
    assert Lower(ctx, Number(b)) == [ConstI32(b)];
  }

  /** `__mem[a] := b;`. */
  lemma MemoryStoreCode(ctx: Context, a: int32, b: int32)
    ensures Literals(ExpressionStatement(ArrayAssignment("__mem", Number(a), Number(b)))) == []
    ensures Lower(ctx, ExpressionStatement(ArrayAssignment("__mem", Number(a), Number(b))))
      == [ConstI32(a), ConstI32(b), LocalTeeI32(LocalIndex(ctx, "$temp")), StoreI32(2, 0),
          LocalGetI32(LocalIndex(ctx, "$temp")), Drop]
  {
    var assign := ArrayAssignment("__mem", Number(a), Number(b));
    MemoryAssignCode(ctx, a, b);
    assert Lower(ctx, ExpressionStatement(assign)) == Lower(ctx, assign) + [Drop];
  }

  /** `__mem[c]`. */
  lemma MemoryLoadCode(ctx: Context, c: int32)
    ensures Literals(ArrayIndex("__mem", Number(c))) == []
    ensures Lower(ctx, ArrayIndex("__mem", Number(c))) == [ConstI32(c), LoadI32(2, 0)]
  {
  }

  /** `if a { b } else { c }`. */
  lemma IfExpressionCode(ctx: Context, a: int32, b: int32, c: int32)
    ensures Literals(IfExpression(Number(a), BlockExpression([Number(b)]), BlockExpression([Number(c)]))) == []
    ensures Lower(ctx, IfExpression(Number(a), BlockExpression([Number(b)]), BlockExpression([Number(c)])))
      == [ConstI32(a), If(Some(I32)), ConstI32(b), Else, ConstI32(c), End]
  {
    var n := IfExpression(Number(a), BlockExpression([Number(b)]), BlockExpression([Number(c)]));
    ListOfOne(ctx, Number(b));
    ListOfOne(ctx, Number(c));
    assert Literals(n) == [];
    LowerIfExpression(ctx, n);
  }

  /** `while a { b; }`. */
  lemma WhileCode(ctx: Context, a: int32, b: int32)
    ensures Literals(WhileStatement(Number(a), BlockStatements([ExpressionStatement(Number(b))]))) == []
    ensures Lower(ctx, WhileStatement(Number(a), BlockStatements([ExpressionStatement(Number(b))])))
      == [Loop(None), ConstI32(a), If(None), ConstI32(b), Drop, Break(1), End, End]
  {
    DiscardedNumber(ctx, b);
  }

  /** `{ n; }`: a block of one expression statement. */
  lemma DiscardedNumber(ctx: Context, n: int32)
    ensures Literals(BlockStatements([ExpressionStatement(Number(n))])) == []
    ensures Lower(ctx, BlockStatements([ExpressionStatement(Number(n))])) == [ConstI32(n), Drop]
  {
    var statement := ExpressionStatement(Number(n));
    assert Literals(statement) == [];
    assert Lower(ctx, statement) == [ConstI32(n), Drop];
    ListOfOne(ctx, statement);
  }

  /** `if c { t; }`. */
  lemma IfWithoutElse(ctx: Context, c: int32, t: int32)
    ensures Literals(IfStatement(Number(c), BlockStatements([ExpressionStatement(Number(t))]), None)) == []
    ensures Lower(ctx, IfStatement(Number(c), BlockStatements([ExpressionStatement(Number(t))]), None))
      == [ConstI32(c), If(None), ConstI32(t), Drop, End]
  {
    DiscardedNumber(ctx, t);
  }

  /** `if c { t; } else { e; }`. */
  lemma IfWithElse(ctx: Context, c: int32, t: int32, e: int32)
    ensures Literals(IfStatement(Number(c), BlockStatements([ExpressionStatement(Number(t))]),
      Some(BlockStatements([ExpressionStatement(Number(e))])))) == []
    ensures Lower(ctx, IfStatement(Number(c), BlockStatements([ExpressionStatement(Number(t))]),
      Some(BlockStatements([ExpressionStatement(Number(e))]))))
      == [ConstI32(c), If(None), ConstI32(t), Drop, Else, ConstI32(e), Drop, End]
  {
    DiscardedNumber(ctx, t);
    DiscardedNumber(ctx, e);
  }

  /** Two if statements, the second with an else block, then a number: no literals, and its code. */
  lemma IfStatementBody(ctx: Context, c1: int32, t1: int32, c2: int32, t2: int32, e2: int32, n: int32)
    ensures Literals(BlockExpression([
        IfStatement(Number(c1), BlockStatements([ExpressionStatement(Number(t1))]), None),
        IfStatement(Number(c2), BlockStatements([ExpressionStatement(Number(t2))]),
          Some(BlockStatements([ExpressionStatement(Number(e2))]))),
        Number(n)])) == []
    ensures Lower(ctx, BlockExpression([
        IfStatement(Number(c1), BlockStatements([ExpressionStatement(Number(t1))]), None),
        IfStatement(Number(c2), BlockStatements([ExpressionStatement(Number(t2))]),
          Some(BlockStatements([ExpressionStatement(Number(e2))]))),
        Number(n)]))
      == [ConstI32(c1), If(None), ConstI32(t1), Drop, End,
          ConstI32(c2), If(None), ConstI32(t2), Drop, Else, ConstI32(e2), Drop, End,
          ConstI32(n)]
  {
    var first := IfStatement(Number(c1), BlockStatements([ExpressionStatement(Number(t1))]), None);
    var second := IfStatement(Number(c2), BlockStatements([ExpressionStatement(Number(t2))]),
      Some(BlockStatements([ExpressionStatement(Number(e2))])));
    IfWithoutElse(ctx, c1, t1);
    IfWithElse(ctx, c2, t2, e2);
    assert Literals(Number(n)) == [];
    ListOfThree(ctx, first, second, Number(n));
  }

  /** `func iffy() { if 0 { 1; } if 2 { 3; } else { 4; } 5 }`. */
  method IfStatementTest() returns (compiled: Function)
    ensures compiled.instructions
      == [ConstI32(0), If(None), ConstI32(1), Drop, End,
          ConstI32(2), If(None), ConstI32(3), Drop, Else, ConstI32(4), Drop, End,
          ConstI32(5), End]
  {
    var body := BlockExpression([
      IfStatement(Number(0), BlockStatements([ExpressionStatement(Number(1))]), None),
      IfStatement(Number(2), BlockStatements([ExpressionStatement(Number(3))]),
        Some(BlockStatements([ExpressionStatement(Number(4))]))),
      Number(5)]);
    IfStatementBody(Context("iffy", TestSymbols(), NoStrings()), 0, 1, 2, 3, 4, 5);
    compiled := ParseFunction(FunctionDefinition("iffy", [], body), false, TestSymbols(), NoStrings());
  }

  /** `func letstmt() { let x = 42; x * 2 }`. */
  method LetStatementTest() returns (compiled: Function)
    ensures compiled.instructions
      == [ConstI32(42), LocalSetI32(0), LocalGetI32(0), ConstI32(2), MultiplyI32, End]
  {
    var ctx := Context("letstmt", TestSymbols(), NoStrings());
    var let_, product := LetStatement("x", Number(42)), BinaryExpression(Identifier("x"), [Operand(Multiply, Number(2))]);
    assert LocalIndex(ctx, "x") == 0;
    LetCode(ctx, "x", 42);
    MultiplyCode(ctx, "x", 2);
    ListOfTwo(ctx, let_, product);
    compiled := ParseFunction(FunctionDefinition("letstmt", [], BlockExpression([let_, product])),
      false, TestSymbols(), NoStrings());
  }

  /** `func exprstmt() { let x = 1; x := 2; 3 }`. */
  method ExpressionStatementTest() returns (compiled: Function)
    ensures compiled.instructions
      == [ConstI32(1), LocalSetI32(0), ConstI32(2), LocalTeeI32(0), Drop, ConstI32(3), End]
  {
    var ctx := Context("exprstmt", TestSymbols(), NoStrings());
    var let_, assign := LetStatement("x", Number(1)), ExpressionStatement(VariableAssignment("x", Number(2)));
    assert LocalIndex(ctx, "x") == 0;
    LetCode(ctx, "x", 1);
    AssignStatementCode(ctx, "x", 2);
    assert Literals(Number(3)) == [];
    ListOfThree(ctx, let_, assign, Number(3));
    assert Lower(ctx, BlockExpression([let_, assign, Number(3)]))
      == [ConstI32(1), LocalSetI32(0)] + [ConstI32(2), LocalTeeI32(0), Drop] + [ConstI32(3)];
    compiled := ParseFunction(FunctionDefinition("exprstmt", [], BlockExpression([let_, assign, Number(3)])),
      false, TestSymbols(), NoStrings());
  }

  /** `func caller() { add(3, 4 + 5) }`. */
  method CallTest() returns (compiled: Function)
    ensures compiled.instructions
      == [ConstI32(3), ConstI32(4), ConstI32(5), AddI32, Call(0), End]
  {
    var ctx := Context("caller", TestSymbols(), NoStrings());
    var call := CallExpression("add", [Number(3), BinaryExpression(Number(4), [Operand(Add, Number(5))])]);
    assert ctx.symbols.functionIndex("add") == 0;
    CallCode(ctx, "add", 3, 4, 5);
    ListOfOne(ctx, call);
    compiled := ParseFunction(FunctionDefinition("caller", [], BlockExpression([call])),
      false, TestSymbols(), NoStrings());
  }

  /** `func iffy() { if 0 { 1 } else { 2 } }`. */
  method IfExpressionTest() returns (compiled: Function)
    ensures compiled.instructions
      == [ConstI32(0), If(Some(I32)), ConstI32(1), Else, ConstI32(2), End, End]
  {
    var ctx := Context("iffy", TestSymbols(), NoStrings());
    var ifExpression := IfExpression(Number(0), BlockExpression([Number(1)]), BlockExpression([Number(2)]));
    IfExpressionCode(ctx, 0, 1, 2);
    ListOfOne(ctx, ifExpression);
    compiled := ParseFunction(FunctionDefinition("iffy", [], BlockExpression([ifExpression])),
      false, TestSymbols(), NoStrings());
  }

  /** `func until() { while 0 { 1; } 2 }`. */
  method WhileTest() returns (compiled: Function)
    ensures compiled.instructions
      == [Loop(None), ConstI32(0), If(None), ConstI32(1), Drop, Break(1), End, End, ConstI32(2), End]
  {
    var ctx := Context("until", TestSymbols(), NoStrings());
    var loop := WhileStatement(Number(0), BlockStatements([ExpressionStatement(Number(1))]));
    WhileCode(ctx, 0, 1);
    assert Literals(Number(2)) == [];
    ListOfTwo(ctx, loop, Number(2));
    compiled := ParseFunction(FunctionDefinition("until", [], BlockExpression([loop, Number(2)])),
      false, TestSymbols(), NoStrings());
  }

  /** `func memory() { __mem[1] := 2; __mem[3] }`. */
  method MemoryTest() returns (compiled: Function)
    ensures compiled.instructions
      == [ConstI32(1), ConstI32(2), LocalTeeI32(0), StoreI32(2, 0), LocalGetI32(0), Drop,
          ConstI32(3), LoadI32(2, 0), End]
  {
    var ctx := Context("memory", TestSymbols(), NoStrings());
    var store, load := ExpressionStatement(ArrayAssignment("__mem", Number(1), Number(2))), ArrayIndex("__mem", Number(3));
    assert LocalIndex(ctx, "$temp") == 0;
    MemoryStoreCode(ctx, 1, 2);
    MemoryLoadCode(ctx, 3);
    ListOfTwo(ctx, store, load);
    compiled := ParseFunction(FunctionDefinition("memory", [], BlockExpression([store, load])),
      false, TestSymbols(), NoStrings());
  }

  /** `let x = a; x[b] := c; x[d]`, for an array `x` other than `__mem`. */
  lemma ArrayBody(ctx: Context, x: string, a: int32, b: int32, c: int32, d: int32)
    requires x != "__mem"
    ensures Literals(BlockExpression([LetStatement(x, Number(a)),
      ExpressionStatement(ArrayAssignment(x, Number(b), Number(c))), ArrayIndex(x, Number(d))])) == []
    ensures Lower(ctx, BlockExpression([LetStatement(x, Number(a)),
        ExpressionStatement(ArrayAssignment(x, Number(b), Number(c))), ArrayIndex(x, Number(d))]))
      == [ConstI32(a), LocalSetI32(LocalIndex(ctx, x))]
        + [LocalGetI32(LocalIndex(ctx, x)), ConstI32(b), ConstI32(c), Call(ctx.symbols.functionIndex("__writeInt32Array")), Drop]
        + [LocalGetI32(LocalIndex(ctx, x)), ConstI32(d), Call(ctx.symbols.functionIndex("__readInt32Array"))]
  {
    LetCode(ctx, x, a);
    ArrayStoreCode(ctx, x, b, c);
    ArrayLoadCode(ctx, x, d);
    ListOfThree(ctx, LetStatement(x, Number(a)), ExpressionStatement(ArrayAssignment(x, Number(b), Number(c))),
      ArrayIndex(x, Number(d)));
  }

  /** `func array() { let x = 0; x[1] := 2; x[3] }`, with the two array helpers at indices 0 and 1. */
  method ArrayTest() returns (compiled: Function)
    ensures compiled.instructions
      == [ConstI32(0), LocalSetI32(0), LocalGetI32(0), ConstI32(1), ConstI32(2), Call(0), Drop,
          LocalGetI32(0), ConstI32(3), Call(1), End]
  {
    var ctx := Context("array", TestSymbols(), NoStrings());
    var body := BlockExpression([
      LetStatement("x", Number(0)),
      ExpressionStatement(ArrayAssignment("x", Number(1), Number(2))),
      ArrayIndex("x", Number(3))]);
    assert LocalIndex(ctx, "x") == 0;
    assert ctx.symbols.functionIndex("__writeInt32Array") == 0;
    assert ctx.symbols.functionIndex("__readInt32Array") == 1;
    ArrayBody(ctx, "x", 0, 1, 2, 3);
    assert Lower(ctx, body) + [End]
      == [ConstI32(0), LocalSetI32(0), LocalGetI32(0), ConstI32(1), ConstI32(2), Call(0), Drop,
          LocalGetI32(0), ConstI32(3), Call(1), End];
    compiled := ParseFunction(FunctionDefinition("array", [], body), false, TestSymbols(), NoStrings());
  }

  /** `func number() { 123 }`. */
  method NumberTest() returns (compiled: Function)
    ensures compiled.name == "number"
    ensures compiled.instructions == [ConstI32(123), End]
  {
    var ctx := Context("number", TestSymbols(), NoStrings());
    assert Literals(Number(123)) == [] && Lower(ctx, Number(123)) == [ConstI32(123)];
    ListOfOne(ctx, Number(123));
    compiled := ParseFunction(FunctionDefinition("number", [], BlockExpression([Number(123)])),
      false, TestSymbols(), NoStrings());
  }

  /** `func caller() { one() + 2 }`, with `one` at index 0. */
  method CallPlusTest() returns (compiled: Function)
    ensures compiled.instructions == [Call(0), ConstI32(2), AddI32, End]
  {
    var ctx := Context("caller", TestSymbols(), NoStrings());
    var call := CallExpression("one", []);
    assert LiteralsAll([]) == [] && LowerAll(ctx, []) == [];
    assert Literals(call) == [] && Lower(ctx, call) == [Call(0)];
    OneOperand(ctx, call, [Call(0)], Add, 2);
    var sum := BinaryExpression(call, [Operand(Add, Number(2))]);
    ListOfOne(ctx, sum);
    compiled := ParseFunction(FunctionDefinition("caller", [], BlockExpression([sum])),
      false, TestSymbols(), NoStrings());
  }

  /** The symbols of `func string() { let a = ...; let b = ...; 0 }`: `a` is local 0 and `b` local 1. */
  function StringSymbols(): SymbolApi
  {
    SymbolApi(
      (f: string, local: string) => (I32, if local == "b" then 1 else 0),
      (callee: string) => 0,
      (f: string) => [],
      (f: string) => [])
  }

  /** The string table of `"hello"` and `"world"`: the second entry starts after the 24 bytes of the first. */
  lemma HelloWorldOffsets()
    ensures StringTable.Offsets(["hello", "world"]) == map["hello" := 0, "world" := 24]
  {
    var literals := ["hello", "world"];
    assert literals[..1] == ["hello"] && ["hello"][..0] == [];
    assert StringTable.Layout(["hello"]) == StringTable.Layout([]) + StringTable.EntryAsWritten("hello");
  }

  /** `let a = "hello"; let b = "world"; 0`, with `a` and `b` at locals 0 and 1: each literal is pushed as its offset. */
  lemma HelloWorldBody(ctx: Context)
    requires ctx.strings.offsets == map["hello" := 0, "world" := 24]
    requires LocalIndex(ctx, "a") == 0 && LocalIndex(ctx, "b") == 1
    ensures Literals(BlockExpression([LetStatement("a", StringLiteral("hello")),
      LetStatement("b", StringLiteral("world")), Number(0)])) == ["hello", "world"]
    ensures LiteralsKnown(ctx, ["hello", "world"])
    ensures Lower(ctx, BlockExpression([LetStatement("a", StringLiteral("hello")),
        LetStatement("b", StringLiteral("world")), Number(0)]))
      == [ConstI32(0), LocalSetI32(0), ConstI32(24), LocalSetI32(1), ConstI32(0)]
  {
    var a, b := LetStatement("a", StringLiteral("hello")), LetStatement("b", StringLiteral("world"));
    assert Literals(a) == ["hello"] && Literals(b) == ["world"] && Literals(Number(0)) == [];
    assert ctx.strings.Offset("hello") == 0 && ctx.strings.Offset("world") == 24;
    assert Lower(ctx, a) == [ConstI32(0), LocalSetI32(0)];
    assert Lower(ctx, b) == [ConstI32(24), LocalSetI32(1)];
    assert Lower(ctx, Number(0)) == [ConstI32(0)];
    ListOfThree(ctx, a, b, Number(0));
  }

  /** `func string() { let a = "hello"; let b = "world"; 0 }`. */
  method StringTest() returns (compiled: Function)
    ensures compiled.instructions
      == [ConstI32(0), LocalSetI32(0), ConstI32(24), LocalSetI32(1), ConstI32(0), End]
  {
    var strings := StringTable.From(["hello", "world"]);
    HelloWorldOffsets();
    var ctx := Context("string", StringSymbols(), strings);
    var body := BlockExpression([LetStatement("a", StringLiteral("hello")),
      LetStatement("b", StringLiteral("world")), Number(0)]);
    HelloWorldBody(ctx);
    compiled := ParseFunction(FunctionDefinition("string", [], body), false, StringSymbols(), strings);
  }

  /** `extern func add(a, b); func a() { 0 } public func b() { 0 }`, as items. */
  function SampleItems(): seq<Item>
  {
    [ExternalFunction("add"),
     PrivateFunction(FunctionDefinition("a", [], BlockExpression([Number(0)]))),
     PublicFunction(FunctionDefinition("b", [], BlockExpression([Number(0)]))),
     EndOfInput]
  }

  /** The sample has no literals, one import, and two functions in source order, the second public. */
  lemma SampleProgram(symbols: SymbolApi, strings: StringTable.Strings)
    ensures ModuleLiterals(SampleItems()) == []
    ensures ImportsOf(SampleItems(), symbols) == [Import("add", symbols.parameters("add"))]
    ensures |FunctionsOf(SampleItems(), symbols, strings)| == 2
    ensures FunctionsOf(SampleItems(), symbols, strings)[0].name == "a"
    ensures !FunctionsOf(SampleItems(), symbols, strings)[0].public
    ensures FunctionsOf(SampleItems(), symbols, strings)[1].name == "b"
    ensures FunctionsOf(SampleItems(), symbols, strings)[1].public
  {
    var items := SampleItems();
    var body := BlockExpression([Number(0)]);
    assert Literals(body) == [] by {
      assert LiteralsAll([Number(0)]) == LiteralsAll([]) + Literals(Number(0));
    }
    assert items[..1][..0] == [] && items[..2][..1] == items[..1] && items[..3][..2] == items[..2];
    assert ModuleLiterals(items[..1]) == [];
    assert ModuleLiterals(items[..2]) == [];
    assert ModuleLiterals(items[..3]) == [];
    assert ImportsOf(items[..1], symbols) == [Import("add", symbols.parameters("add"))];
    assert ImportsOf(items[..3], symbols) == [Import("add", symbols.parameters("add"))];
    assert FunctionsOf(items[..1], symbols, strings) == [];
    var fa := CompileFunction(items[1].definition, false, symbols, strings);
    var fb := CompileFunction(items[2].definition, true, symbols, strings);
    assert FunctionsOf(items[..2], symbols, strings) == [fa];
    assert FunctionsOf(items[..3], symbols, strings) == [fa, fb];
    assert items[..3] == items[..|items| - 1];
  }

  /** `Wafer::parse` on the sample: the import, then functions `a` and `b`, only `b` public, and no data. */
  method SampleParse(symbols: SymbolApi) returns (wafer: Program)
    ensures wafer.imports == [Import("add", symbols.parameters("add"))]
    ensures |wafer.functions| == 2
    ensures wafer.functions[0].name == "a" && !wafer.functions[0].public
    ensures wafer.functions[1].name == "b" && wafer.functions[1].public
    ensures wafer.data == []
  {
    SampleProgram(symbols, StringTable.Strings(map[], []));
    wafer := Parse(SampleItems(), symbols);
  }
}
