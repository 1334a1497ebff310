/** The code generator of the compiler, its output as text and as instructions, and when running
    those instructions computes the sum that was written. */
module Codegen {

  import opened Pratt

  const U64: int := 0x1_0000_0000_0000_0000

  /** The three instructions that are generated. */
  datatype Instr = MovImm(digits: string) | MovX1X0 | AddX0X0X1

  /** The text of an instruction, as the pieces that are appended to the output. */
  function Render(i: Instr): (s: seq<string>) {
    match i
    case MovImm(n) => ["\tmov x0, #", n, "\n"]
    case MovX1X0 => ["\tmov x1, x0\n"]
    case AddX0X0X1 => ["\tadd x0, x0, x1\n"]
  }

  function RenderAll(code: seq<Instr>): (s: seq<string>) {
    if code == [] then [] else Render(code[0]) + RenderAll(code[1..])
  }

  lemma {:induction false} RenderAppend(a: seq<Instr>, b: seq<Instr>)
    ensures RenderAll(a + b) == RenderAll(a) + RenderAll(b)
    decreases |a|
  {
    if a == [] {
      assert a + b == b;
    } else {
      assert (a + b)[0] == a[0] && (a + b)[1..] == a[1..] + b;
      RenderAppend(a[1..], b);
    }
  }

  /** The generator reaches no identifier: it goes below sums only. */
  predicate Compilable(e: Expr) {
    match e
    case Num(_) => true
    case Id(_) => false
    case Bin(op, l, r) => op == '+' ==> Compilable(l) && Compilable(r)
  }

  /** The code of an expression. Operators other than + get none. */
  function Code(e: Expr): (c: seq<Instr>)
    requires Compilable(e)
  {
    match e
    case Num(n) => [MovImm(n)]
    case Bin(op, l, r) => if op == '+' then Code(l) + [MovX1X0] + Code(r) + [AddX0X0X1] else []
  }

  function CodeAll(stmts: seq<Stmt>): (c: seq<Instr>)
    requires forall k :: 0 <= k < |stmts| ==> Compilable(stmts[k].value)
  {
    if stmts == [] then [] else Code(stmts[0].value) + CodeAll(stmts[1..])
  }

  function Prologue(): (s: seq<string>) {
    [".section .text\n", ".global main\n", "main:\n", "\tstp x29, x30, [sp, #-16]!\n"]
  }

  function Epilogue(): (s: seq<string>) {
    ["\tldp x29, x30, [sp], #16\n", "\tret", "\n"]
  }

  class Assembler {
    /** The output, as the pieces appended to it. */
    var list: seq<string>

    constructor ()
      ensures list == []
    {
      list := [];
    }

    method AsmNumber(e: Expr)
      requires e.Num?
      modifies this
      ensures list == old(list) + RenderAll(Code(e))
    {
      list := list + ["\tmov x0, #"];
      list := list + [e.digits];
      list := list + ["\n"];
      RenderOne(MovImm(e.digits));
    }

    method AsmAdd(e: Expr)
      requires e.Bin? && e.op == '+' && Compilable(e)
      modifies this
      ensures list == old(list) + RenderAll(Code(e))
      decreases e, 0
    {
      AsmExpression(e.left);
      list := list + ["\tmov x1, x0\n"];
      AsmExpression(e.right);
      list := list + ["\tadd x0, x0, x1\n"];
      RenderSum(Code(e.left), Code(e.right));
    }

    method AsmExpression(e: Expr)
      requires Compilable(e)
      modifies this
      ensures list == old(list) + RenderAll(Code(e))
      decreases e, 1
    {
      match e
      case Bin(op, _, _) =>
        if op == '+' {
          AsmAdd(e);
        }
      case Num(_) => AsmNumber(e);
    }

    /** The text of a whole program. */
    method Assemble(stmts: seq<Stmt>)
      requires forall k :: 0 <= k < |stmts| ==> Compilable(stmts[k].value)
      modifies this
      ensures list == old(list) + Prologue() + RenderAll(CodeAll(stmts)) + Epilogue()
    {
      list := list + Prologue();
      AsmStatements(stmts);
      list := list + Epilogue();
    }

    method AsmStatements(stmts: seq<Stmt>)
      requires forall k :: 0 <= k < |stmts| ==> Compilable(stmts[k].value)
      modifies this
      ensures list == old(list) + RenderAll(CodeAll(stmts))
    {
      var k := 0;
      assert stmts[..0] == [];
      while k < |stmts|
        invariant 0 <= k <= |stmts| && list == old(list) + RenderAll(CodeAll(stmts[..k]))
      {
        RenderNext(stmts, k);
        AsmExpression(stmts[k].value);
        Append(old(list), RenderAll(CodeAll(stmts[..k])), RenderAll(Code(stmts[k].value)));
        k := k + 1;
      }
      assert stmts[..k] == stmts;
    }
  }

  lemma Append(a: seq<string>, b: seq<string>, c: seq<string>)
    ensures a + b + c == a + (b + c)
  {
  }

  lemma RenderNext(stmts: seq<Stmt>, k: int)
    requires 0 <= k < |stmts| && forall j :: 0 <= j < |stmts| ==> Compilable(stmts[j].value)
    ensures RenderAll(CodeAll(stmts[..k + 1])) == RenderAll(CodeAll(stmts[..k])) + RenderAll(Code(stmts[k].value))
  {
    var pre := stmts[..k];
    CodeAllSnoc(pre, stmts[k]);
    RenderAppend(CodeAll(pre), Code(stmts[k].value));
    assert stmts[..k + 1] == pre + [stmts[k]];
  }

  lemma RenderOne(i: Instr)
    ensures RenderAll([i]) == Render(i)
  {
    assert [i][1..] == [];
  }

  lemma RenderSum(a: seq<Instr>, b: seq<Instr>)
    ensures RenderAll(a + [MovX1X0] + b + [AddX0X0X1]) == RenderAll(a) + Render(MovX1X0) + RenderAll(b) +
      Render(AddX0X0X1)
  {
    RenderAppend(a + [MovX1X0] + b, [AddX0X0X1]);
    RenderAppend(a + [MovX1X0], b);
    RenderAppend(a, [MovX1X0]);
    RenderOne(MovX1X0);
    RenderOne(AddX0X0X1);
  }

  lemma {:induction false} CodeAllSnoc(stmts: seq<Stmt>, s: Stmt)
    requires (forall k :: 0 <= k < |stmts| ==> Compilable(stmts[k].value)) && Compilable(s.value)
    ensures CodeAll(stmts + [s]) == CodeAll(stmts) + Code(s.value)
    decreases |stmts|
  {
    if stmts == [] {
      assert stmts + [s] == [s] && [s][1..] == [];
    } else {
      assert (stmts + [s])[0] == stmts[0] && (stmts + [s])[1..] == stmts[1..] + [s];
      CodeAllSnoc(stmts[1..], s);
    }
  }

  // ---------- running the code ----------

  datatype Regs = Regs(x0: int, x1: int)

  function Decimal(s: string): (n: int)
    decreases |s|
  {
    if s == "" then 0 else Decimal(s[..|s| - 1]) * 10 + (s[|s| - 1] as int - '0' as int)
  }

  function Step(i: Instr, m: Regs): (m': Regs) {
    match i
    case MovImm(n) => m.(x0 := Decimal(n) % U64)
    case MovX1X0 => m.(x1 := m.x0)
    case AddX0X0X1 => m.(x0 := (m.x0 + m.x1) % U64)
  }

  function Run(code: seq<Instr>, m: Regs): (m': Regs)
    decreases |code|
  {
    if code == [] then m else Run(code[1..], Step(code[0], m))
  }

  lemma {:induction false} RunAppend(a: seq<Instr>, b: seq<Instr>, m: Regs)
    ensures Run(a + b, m) == Run(b, Run(a, m))
    decreases |a|
  {
    if a == [] {
      assert a + b == b;
    } else {
      assert (a + b)[0] == a[0] && (a + b)[1..] == a[1..] + b;
      RunAppend(a[1..], b, Step(a[0], m));
    }
  }

  lemma RunSum(a: seq<Instr>, b: seq<Instr>, m: Regs)
    ensures Run(a + [MovX1X0] + b + [AddX0X0X1], m) == Step(AddX0X0X1, Run(b, Step(MovX1X0, Run(a, m))))
  {
    RunAppend(a + [MovX1X0] + b, [AddX0X0X1], m);
    RunAppend(a + [MovX1X0], b, m);
    RunAppend(a, [MovX1X0], m);
    RunOne(MovX1X0, Run(a, m));
    RunOne(AddX0X0X1, Run(a + [MovX1X0] + b, m));
  }

  lemma RunOne(i: Instr, m: Regs)
    ensures Run([i], m) == Step(i, m)
  {
    assert [i][1..] == [];
  }

  // ---------- sums ----------

  /** Literals and + only. */
  predicate IsSum(e: Expr) {
    e.Num? || (e.Bin? && e.op == '+' && IsSum(e.left) && IsSum(e.right))
  }

  function Sum(e: Expr): (n: int)
    requires IsSum(e)
  {
    if e.Num? then Decimal(e.digits) else Sum(e.left) + Sum(e.right)
  }

  lemma {:induction false} SumCompiles(e: Expr)
    requires IsSum(e)
    ensures Compilable(e)
  {
    if e.Bin? {
      SumCompiles(e.left);
      SumCompiles(e.right);
    }
  }

  /** Every right operand is a literal: what a sum without parentheses parses to. */
  predicate LeftLeaning(e: Expr) {
    e.Num? || (e.Bin? && e.op == '+' && LeftLeaning(e.left) && e.right.Num?)
  }

  predicate Computes(e: Expr, m: Regs)
    requires IsSum(e) && Compilable(e)
  {
    Run(Code(e), m).x0 == Sum(e) % U64
  }

  lemma AddMod(a: int, b: int)
    ensures (a % U64 + b % U64) % U64 == (a + b) % U64
  {
  }

  /** What the code of a sum with a literal on the right does. */
  lemma RunLiteralRight(e: Expr, m: Regs)
    requires e.Bin? && e.op == '+' && Compilable(e) && e.right.Num?
    ensures Run(Code(e), m).x0 == (Decimal(e.right.digits) % U64 + Run(Code(e.left), m).x0) % U64
  {
    RunSum(Code(e.left), Code(e.right), m);
    RunOne(MovImm(e.right.digits), Step(MovX1X0, Run(Code(e.left), m)));
  }

  /** The code of a left-leaning sum leaves the sum in x0, whatever the registers held. */
  lemma {:induction false} LeftLeaningComputes(e: Expr, m: Regs)
    requires LeftLeaning(e)
    ensures IsSum(e) && Compilable(e) && Computes(e, m)
    decreases e
  {
    if e.Num? {
      RunOne(MovImm(e.digits), m);
    } else {
      LeftLeaningComputes(e.left, m);
      RunLiteralRight(e, m);
      AddMod(Decimal(e.right.digits), Sum(e.left));
    }
  }

  /** Trees that differ in their literals only. */
  predicate SameShape(e: Expr, f: Expr) {
    || (e.Num? && f.Num?)
    || (e.Bin? && f.Bin? && e.op == f.op && SameShape(e.left, f.left) && SameShape(e.right, f.right))
  }

  lemma {:induction false} ShapeLeans(e: Expr, f: Expr)
    requires SameShape(e, f) && LeftLeaning(e)
    ensures LeftLeaning(f)
    decreases e
  {
    if e.Bin? {
      ShapeLeans(e.left, f.left);
    }
  }

  /** The tree with its leftmost literal replaced. */
  function SetLeft(e: Expr, n: string): (f: Expr)
    requires IsSum(e)
  {
    if e.Num? then Num(n) else Bin('+', SetLeft(e.left, n), e.right)
  }

  lemma {:induction false} SetLeftShape(e: Expr, n: string)
    requires IsSum(e)
    ensures IsSum(SetLeft(e, n)) && SameShape(e, SetLeft(e, n))
    decreases e
  {
    if e.Bin? {
      SetLeftShape(e.left, n);
      SameShapeSelf(e.right);
    }
  }

  lemma {:induction false} SetLeftSum(e: Expr, n: string, k: string)
    requires IsSum(e) && IsSum(SetLeft(e, n)) && IsSum(SetLeft(e, k))
    ensures Sum(SetLeft(e, n)) - Decimal(n) == Sum(SetLeft(e, k)) - Decimal(k)
    decreases e
  {
    if e.Bin? {
      SetLeftSum(e.left, n, k);
    }
  }

  lemma {:induction false} SameShapeSelf(e: Expr)
    requires IsSum(e)
    ensures SameShape(e, e)
  {
    if e.Bin? {
      SameShapeSelf(e.left);
      SameShapeSelf(e.right);
    }
  }

  /** The code of an expression does not read the registers it starts with. */
  lemma {:induction false} FreshRegs(e: Expr, m: Regs, m': Regs)
    requires IsSum(e)
    ensures Compilable(e) && Run(Code(e), m).x0 == Run(Code(e), m').x0
    ensures e.Bin? ==> Run(Code(e), m).x1 == Run(Code(e), m').x1
    decreases e
  {
    SumCompiles(e);
    if e.Num? {
      RunOne(MovImm(e.digits), m);
      RunOne(MovImm(e.digits), m');
    } else {
      FreshRegs(e.left, m, m');
      var a, a' := Step(MovX1X0, Run(Code(e.left), m)), Step(MovX1X0, Run(Code(e.left), m'));
      RunSum(Code(e.left), Code(e.right), m);
      RunSum(Code(e.left), Code(e.right), m');
      assert a == a';
    }
  }

  /** With a sum on the right, the code forgets its left operand: the code of the right operand
      overwrites x1. */
  lemma LeftForgotten(l: Expr, l': Expr, r: Expr, m: Regs)
    requires IsSum(l) && IsSum(l') && IsSum(r) && r.Bin?
    ensures Compilable(Bin('+', l, r)) && Compilable(Bin('+', l', r))
    ensures Run(Code(Bin('+', l, r)), m).x0 == Run(Code(Bin('+', l', r)), m).x0
  {
    SumCompiles(l);
    SumCompiles(l');
    SumCompiles(r);
    RunSum(Code(l), Code(r), m);
    RunSum(Code(l'), Code(r), m);
    FreshRegs(r, Step(MovX1X0, Run(Code(l), m)), Step(MovX1X0, Run(Code(l'), m)));
  }

  /** Literals for a tree that is not left-leaning with which its code goes wrong. */
  function Breaker(e: Expr, m: Regs): (f: Expr)
    requires IsSum(e) && !LeftLeaning(e)
    decreases e
  {
    if !e.right.Num? then
      var one := Bin('+', SetLeft(e.left, "1"), e.right);
      if IsSum(one) && Compilable(one) && Computes(one, m) then Bin('+', SetLeft(e.left, "2"), e.right) else one
    else Bin('+', Breaker(e.left, m), e.right)
  }

  /** Those literals are ones that the lexer takes. */
  lemma {:induction false} BreakerPrintable(e: Expr, m: Regs)
    requires IsSum(e) && !LeftLeaning(e) && Printable(e)
    ensures Printable(Breaker(e, m))
    decreases e
  {
    if !e.right.Num? {
      SetLeftPrintable(e.left, "1");
      SetLeftPrintable(e.left, "2");
    } else {
      BreakerPrintable(e.left, m);
    }
  }

  lemma {:induction false} SetLeftPrintable(e: Expr, n: string)
    requires IsSum(e) && Printable(e) && IsNumber(n)
    ensures Printable(SetLeft(e, n))
    decreases e
  {
    if e.Bin? {
      SetLeftPrintable(e.left, n);
    }
  }

  lemma {:induction false} BreakerBreaks(e: Expr, m: Regs)
    requires IsSum(e) && !LeftLeaning(e)
    ensures var f := Breaker(e, m); SameShape(e, f) && IsSum(f) && Compilable(f) && !Computes(f, m)
    decreases e
  {
    SumCompiles(e);
    SameShapeSelf(e.right);
    if !e.right.Num? {
      TwoLeft(e, m);
    } else {
      BreakerBreaks(e.left, m);
      var f := Breaker(e.left, m);
      RunRange(f, m);
      var g := Bin('+', f, e.right);
      assert Breaker(e, m) == g && IsSum(g) && SameShape(e, g);
      assert Sum(g) == Sum(f) + Decimal(e.right.digits);
      RunLiteralRight(g, m);
      StaysWrong(Run(Code(f), m).x0, Sum(f), Decimal(e.right.digits));
    }
  }

  lemma RunRange(e: Expr, m: Regs)
    requires IsSum(e) && Compilable(e)
    ensures 0 <= Run(Code(e), m).x0 < U64
  {
    if e.Num? {
      RunOne(MovImm(e.digits), m);
    } else {
      RunSum(Code(e.left), Code(e.right), m);
    }
  }

  lemma StaysWrong(x: int, s: int, n: int)
    requires x != s % U64 && 0 <= x < U64
    ensures (n % U64 + x) % U64 != (s + n) % U64
  {
  }

  lemma TwoLeft(e: Expr, m: Regs)
    requires IsSum(e) && e.Bin? && !e.right.Num? && !LeftLeaning(e)
    ensures var f := Breaker(e, m); SameShape(e, f) && IsSum(f) && Compilable(f) && !Computes(f, m)
  {
    var a, b := SetLeft(e.left, "1"), SetLeft(e.left, "2");
    SetLeftShape(e.left, "1");
    SetLeftShape(e.left, "2");
    SameShapeSelf(e.right);
    SetLeftSum(e.left, "1", "2");
    LeftForgotten(a, b, e.right, m);
    assert Decimal("1") == 1 && Decimal("2") == 2 by {
      assert "1"[..0] == "" && "2"[..0] == "";
    }
  }

  /** A sum that program text can contain is compiled right for every choice of literals that
      program text can contain exactly when every right operand is a literal. */
  lemma CompiledRightIff(e: Expr, m: Regs)
    requires IsSum(e) && Printable(e)
    ensures LeftLeaning(e) <==>
      forall f :: SameShape(e, f) && Printable(f) && IsSum(f) && Compilable(f) ==> Computes(f, m)
  {
    if LeftLeaning(e) {
      forall f | SameShape(e, f) && Printable(f) && IsSum(f) && Compilable(f)
        ensures Computes(f, m)
      {
        ShapeLeans(e, f);
        LeftLeaningComputes(f, m);
      }
    } else {
      BreakerBreaks(e, m);
      BreakerPrintable(e, m);
    }
  }

  /** What the code of a sum leaves in x0, and, for a sum that is no literal, in x1. */
  function Left(e: Expr): (n: int)
    requires IsSum(e)
  {
    if e.Num? then Decimal(e.digits)
    else if e.right.Num? then Left(e.left) + Decimal(e.right.digits)
    else Left(e.right) + Kept(e.right)
  }

  function Kept(e: Expr): (n: int)
    requires IsSum(e) && e.Bin?
  {
    if e.right.Num? then Left(e.left) else Kept(e.right)
  }

  /** Of any sum, right or wrong: an operand on the left of a sum on the right counts for nothing,
      and what that sum kept in x1 counts twice. */
  lemma {:induction false} ComputesLeft(e: Expr, m: Regs)
    requires IsSum(e)
    ensures Compilable(e) && Run(Code(e), m).x0 == Left(e) % U64
    ensures e.Bin? ==> Run(Code(e), m).x1 == Kept(e) % U64
    decreases e
  {
    SumCompiles(e);
    if e.Num? {
      RunOne(MovImm(e.digits), m);
    } else {
      ComputesLeft(e.left, m);
      var a := Step(MovX1X0, Run(Code(e.left), m));
      ComputesLeft(e.right, a);
      RunSum(Code(e.left), Code(e.right), m);
      if e.right.Num? {
        RunOne(MovImm(e.right.digits), a);
        AddMod(Decimal(e.right.digits), Left(e.left));
      } else {
        AddMod(Left(e.right), Kept(e.right));
      }
    }
  }

  /** The tree of 1+(2+3). */
  function Nested(): (e: Expr) {
    Bin('+', Num("1"), Bin('+', Num("2"), Num("3")))
  }

  lemma NestedValues()
    ensures IsSum(Nested()) && Sum(Nested()) == 6 && Left(Nested()) == 7
  {
    OneDigit('1');
    OneDigit('2');
    OneDigit('3');
    assert Left(Nested().right) == 5 && Kept(Nested().right) == 2;
  }

  lemma NestedLexemes()
    ensures Lexemes(Nested(), LOWEST) == [Lexeme(Number, "1")] + ([Lexeme(Operator, "+")] + ([OPEN] +
      ([Lexeme(Number, "2")] + ([Lexeme(Operator, "+")] + [Lexeme(Number, "3")]) + [CLOSE])))
  {
    var r := Nested().right;
    assert Bare(r) == [Lexeme(Number, "2")] + ([Lexeme(Operator, "+")] + [Lexeme(Number, "3")]);
    assert Lexemes(r, SUM) == [OPEN] + (Bare(r) + [CLOSE]);
  }

  lemma OneDigit(c: char)
    ensures Decimal([c]) == c as int - '0' as int
  {
    assert [c][..0] == "";
  }

  /** A token of one character in front of the tokens of the rest. */
  lemma OneMore(input: string, i: int, w: Lexeme, ws: seq<Lexeme>, all: seq<Lexeme>, j: int)
    requires 0 <= i < |input| && w.text == [input[i]] && IsLexeme(w) && Apart(w, input[i + 1..])
    requires Lexes(input, i + 1, ws, j) && all == [w] + ws
    ensures Lexes(input, i, all, j)
  {
    assert input[i..i + 1] == w.text;
    LexOne(input, i, w, input[i + 1..], i + 1);
    LexesCons(input, i, w, i + 1, ws, all, j);
  }

  lemma InnerText(input: string, plus: Lexeme)
    requires |input| == 7 && input[3] == '2' && input[4] == '+' && input[5] == '3' && input[6] == ')'
    requires plus == Lexeme(Operator, "+")
    ensures Lexes(input, 3, [Lexeme(Number, "2")] + ([plus] + [Lexeme(Number, "3")]) + [CLOSE], 7)
    ensures Lex(input, 7).Missing?
  {
    var three := Lexeme(Number, "3");
    OneMore(input, 6, CLOSE, [], [CLOSE], 7);
    OneMore(input, 5, three, [CLOSE], [three] + [CLOSE], 7);
    OneMore(input, 4, plus, [three] + [CLOSE], [plus] + ([three] + [CLOSE]), 7);
    OneMore(input, 3, Lexeme(Number, "2"), [plus] + ([three] + [CLOSE]),
      [Lexeme(Number, "2")] + ([plus] + [three]) + [CLOSE], 7);
  }

  lemma NestedText(input: string)
    requires input == "1+(2+3)"
    ensures Lexes(input, 0, Lexemes(Nested(), LOWEST), 7) && Lex(input, 7).Missing?
  {
    var plus := Lexeme(Operator, "+");
    var inner := [Lexeme(Number, "2")] + ([plus] + [Lexeme(Number, "3")]) + [CLOSE];
    InnerText(input, plus);
    OneMore(input, 2, OPEN, inner, [OPEN] + inner, 7);
    OneMore(input, 1, plus, [OPEN] + inner, [plus] + ([OPEN] + inner), 7);
    NestedLexemes();
    OneMore(input, 0, Lexeme(Number, "1"), [plus] + ([OPEN] + inner), Lexemes(Nested(), LOWEST), 7);
  }

  /** Text with the tokens of 1+(2+3), in any spacing, parses to a sum of 6 whose code leaves 7. */
  lemma ParenthesesGoWrong(input: string, j: int, m: Regs)
    requires Lexes(input, 0, Lexemes(Nested(), LOWEST), j) && Lex(input, j).Missing?
    ensures var e := Nested();
      && Expression(input, 0, LOWEST) == Ok(e, j)
      && IsSum(e) && Compilable(e) && Sum(e) == 6 && Run(Code(e), m).x0 == 7 && !Computes(e, m)
  {
    NestedValues();
    RoundTrip(input, Nested(), j);
    ComputesLeft(Nested(), m);
  }

  // ---------- from text to the value in x0 ----------

  /** The tree and the tokens of a sum of literals without parentheses. */
  function LeftTree(ns: seq<string>): (e: Expr)
    requires |ns| > 0
  {
    var k := |ns| - 1;
    if k == 0 then Num(ns[0]) else Bin('+', LeftTree(ns[..k]), Num(ns[k]))
  }

  function SumLexemes(ns: seq<string>): (ws: seq<Lexeme>)
    requires |ns| > 0
  {
    var k := |ns| - 1;
    if k == 0 then [Lexeme(Number, ns[0])]
    else SumLexemes(ns[..k]) + ([Lexeme(Operator, "+")] + [Lexeme(Number, ns[k])])
  }

  function Total(ns: seq<string>): (n: int) {
    if ns == [] then 0 else Total(ns[..|ns| - 1]) + Decimal(ns[|ns| - 1])
  }

  ghost predicate AllNumbers(ns: seq<string>) {
    forall k :: 0 <= k < |ns| ==> IsNumber(ns[k])
  }

  lemma {:induction false} LeftTreeIs(ns: seq<string>)
    requires |ns| > 0 && AllNumbers(ns)
    ensures var e := LeftTree(ns); LeftLeaning(e) && IsSum(e) && Printable(e) && Sum(e) == Total(ns)
    decreases |ns|
  {
    var k := |ns| - 1;
    if k == 0 {
      assert ns[..0] == [];
    } else {
      LeftTreeIs(ns[..k]);
    }
  }

  lemma {:induction false} LeftTreeLexemes(ns: seq<string>)
    requires |ns| > 0
    ensures Lexemes(LeftTree(ns), LOWEST) == SumLexemes(ns)
    decreases |ns|
  {
    var k := |ns| - 1;
    if k > 0 {
      LeftTreeLexemes(ns[..k]);
      SumOfTwo(LeftTree(ns[..k]), ns[k]);
    }
  }

  lemma SumOfTwo(l: Expr, n: string)
    ensures Lexemes(Bin('+', l, Num(n)), LOWEST) ==
      Lexemes(l, LOWEST) + ([Lexeme(Operator, "+")] + [Lexeme(Number, n)])
  {
    assert Lexemes(Num(n), SUM) == [Lexeme(Number, n)];
  }

  /** A sum of literals without parentheses parses to the left-leaning tree. */
  lemma SumParses(input: string, ns: seq<string>, j: int)
    requires |ns| > 0 && AllNumbers(ns) && Lexes(input, 0, SumLexemes(ns), j) && Lex(input, j).Missing?
    ensures Expression(input, 0, LOWEST) == Ok(LeftTree(ns), j)
  {
    LeftTreeIs(ns);
    LeftTreeLexemes(ns);
    RoundTrip(input, LeftTree(ns), j);
  }

  datatype Line = Line(name: string, ns: seq<string>)

  ghost predicate IsLine(l: Line) {
    IsName(l.name) && |l.ns| > 0 && AllNumbers(l.ns)
  }

  ghost predicate AllLines(lines: seq<Line>) {
    forall k :: 0 <= k < |lines| ==> IsLine(lines[k])
  }

  /** The statements of a program that defines each name as a sum. */
  ghost function Program(lines: seq<Line>): (stmts: seq<Stmt>)
    requires AllLines(lines)
  {
    if lines == [] then [] else [Var(lines[0].name, LeftTree(lines[0].ns))] + Program(lines[1..])
  }

  lemma {:induction false} ProgramOk(lines: seq<Line>)
    requires AllLines(lines)
    ensures |Program(lines)| == |lines|
    ensures AllPrintable(Program(lines))
    ensures forall k :: 0 <= k < |lines| ==>
      LeftLeaning(Program(lines)[k].value) && Compilable(Program(lines)[k].value)
    decreases |lines|
  {
    if lines != [] {
      ProgramOk(lines[1..]);
      LeftTreeIs(lines[0].ns);
      SumCompiles(LeftTree(lines[0].ns));
    }
  }

  lemma {:induction false} LastValue(lines: seq<Line>, m: Regs)
    requires |lines| > 0 && AllLines(lines)
    requires forall k :: 0 <= k < |Program(lines)| ==> Compilable(Program(lines)[k].value)
    ensures Run(CodeAll(Program(lines)), m).x0 == Total(lines[|lines| - 1].ns) % U64
    decreases |lines|
  {
    var stmts, e := Program(lines), LeftTree(lines[0].ns);
    LeftTreeIs(lines[0].ns);
    SumCompiles(e);
    assert stmts[0].value == e && stmts[1..] == Program(lines[1..]);
    RunAppend(Code(e), CodeAll(stmts[1..]), m);
    if |lines| == 1 {
      assert stmts[1..] == [];
      LeftLeaningComputes(e, m);
    } else {
      LastValue(lines[1..], Run(Code(e), m));
    }
  }

  /** From text to result: parsing a program of sums, in any spacing, and running the code generated
      for what was parsed leaves the last sum, modulo 2^64, in x0, whatever the registers held. */
  lemma ProgramComputes(input: string, lines: seq<Line>, j: int, m: Regs)
    requires |lines| > 0 && AllLines(lines)
    requires Lexes(input, 0, BodyLexemes(Program(lines)), j) && Lex(input, j).Missing?
    ensures var parsed := Body(input, 0);
      && parsed.OkBody? && parsed.stmts == Program(lines)
      && (forall k :: 0 <= k < |parsed.stmts| ==> Compilable(parsed.stmts[k].value))
      && Run(CodeAll(parsed.stmts), m).x0 == Total(lines[|lines| - 1].ns) % U64
  {
    ProgramOk(lines);
    ProgramRoundTrip(input, Program(lines), j);
    LastValue(lines, m);
  }
}
