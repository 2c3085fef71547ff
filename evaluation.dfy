/** The evaluation performed by MathSolver::Solve, as functions on the solver's
    state. Every member function of the class that changes the stacks or the
    counters has a function here that gives the state it leaves behind: the
    state after a normal return (Next), or the state at the moment an error
    is raised together with that error (Thrown). The class in solver.dfy is
    proved to follow these functions step for step. */
module Evaluation {
  import opened Results
  import opened Numbers

  /** Solve refuses an input once this many counted operators have been seen. */
  const MaxOperatorsInInput := 256

  /** One constructor per way an evaluation can end without a value. */
  datatype Error =
    | DivisionByZero    // "Can't divide with zero!"
    | UnmatchedOpen     // "Mismatchin parenthesis '('!": a '(' reached the reducer
    | UnmatchedClose    // "Mismatching parenthesis!": a ')' with no '(' counted before it
    | BadSyntax         // "Bad Syntax!": two of * / % + - with no number in between
    | TooManyOperators  // "Too many operators in input!"
    | MalformedNumber   // std::stof found no number to read
    | StackUnderflow    // top() of an empty stack, undefined in the source
    | EmptyInput        // back() of an empty string, undefined in the source

  /** An operator-stack entry: the operator character and its precedence. */
  datatype Entry = Entry(op: char, precedence: int)

  /** The fields of a MathSolver that an evaluation reads and writes. The top
      of each stack is the last element of its sequence. */
  datatype State = State(
    numbers: seq<Num>,    // numberStack
    ops: seq<Entry>,      // operationStack
    operators: int,       // operatorsInInput
    parens: int,          // parenthesisOnStack
    inRow: bool)          // illegalOperationsInRow

  /** Where a step of the evaluation ends: normally, or by raising an error. */
  datatype Step = Next(s: State) | Thrown(s: State, error: Error)

  function Top(ops: seq<Entry>): Entry
    requires |ops| > 0
  {
    ops[|ops| - 1]
  }

  function Pop<T>(xs: seq<T>): seq<T>
    requires |xs| > 0
  {
    xs[..|xs| - 1]
  }

  /** The characters the scanner treats as operators; all others belong to numbers. */
  predicate IsOperator(c: char)
  {
    c == '(' || c == ')' || c == '*' || c == '/' || c == '%' || c == '+' || c == '-'
  }

  /** The binary operators, which must not follow one another. */
  predicate IsBinary(c: char)
  {
    c == '*' || c == '/' || c == '%' || c == '+' || c == '-'
  }

  /** The precedence PushToOperatorStack gives an operator: 3 for the
      multiplicative ones, 2 for the additive ones and 0 for '('. */
  function Precedence(c: char): int
  {
    if c == '*' || c == '/' || c == '%' then 3 else if c == '+' || c == '-' then 2 else 0
  }

  /** The entries the solver ever pushes: multiplicative operators at 3,
      additive ones at 2, '(' at 0, and never ')'. Spelled out rather than
      through Precedence, which keeps the many proofs that unfold it small;
      WellFormedPrecedence shows the two agree. */
  predicate WellFormedEntry(e: Entry)
  {
    ((e.op == '*' || e.op == '/' || e.op == '%') && e.precedence == 3) ||
    ((e.op == '+' || e.op == '-') && e.precedence == 2) ||
    (e.op == '(' && e.precedence == 0)
  }

  /** An entry is well formed exactly when it holds a binary operator or '('
      at that operator's precedence. */
  lemma WellFormedPrecedence(e: Entry)
    ensures WellFormedEntry(e) <==> (IsBinary(e.op) || e.op == '(') && e.precedence == Precedence(e.op)
  {
  }

  predicate WellFormed(ops: seq<Entry>)
  {
    forall i :: 0 <= i < |ops| ==> WellFormedEntry(ops[i])
  }

  function OpenCount(ops: seq<Entry>): (n: nat)
    ensures n <= |ops|
  {
    if |ops| == 0 then 0 else OpenCount(Pop(ops)) + (if Top(ops).op == '(' then 1 else 0)
  }

  /** What holds of the solver's state between the steps of a successful scan:
      well-formed entries, a parenthesis counter that covers every '(' still
      on the stack, and an operator counter below the limit. */
  predicate Consistent(s: State)
  {
    WellFormed(s.ops) && OpenCount(s.ops) <= s.parens && 0 <= s.operators < MaxOperatorsInInput
  }

  // ---------------------------------------------------------------------
  // Reducer

  /** The value of `left op right` for one operator-stack entry. */
  function Apply(op: char, left: Num, right: Num): (r: Result<Num, Error>)
    requires op == '*' || op == '/' || op == '%' || op == '+' || op == '-' || op == '('
    ensures r.Failure? <==> op == '(' || (op == '/' && right == Real(0.0))
    ensures r.Failure? ==> r.error == (if op == '(' then UnmatchedOpen else DivisionByZero)
    ensures r.Success? && left.Real? && right.Real? && op != '%' ==> r.value.Real?
    ensures op == '/' && r.Success? && r.value.Real? ==> left.Real? && right.Real? && r.value.v * right.v == left.v
    ensures op == '%' && left.Real? && right.Real? && right.v == 0.0 ==> r == Success(NaN)
  {
    match op
    case '*' => Success(Mul(left, right))
    case '/' => if right == Real(0.0) then Failure(DivisionByZero) else Success(Div(left, right))
    case '%' => Success(Fmod(left, right))
    case '-' => Success(Sub(left, right))
    case '+' => Success(Add(left, right))
    case '(' => Failure(UnmatchedOpen)
  }

  /** ResolveNextOperation followed by the push of its value: pop the right
      operand, the left operand and the operator, and push the result. With
      fewer than two operands the source reads an empty stack; the model stops
      there with StackUnderflow, after the pops that did happen. */
  function Reduce(s: State): (r: Step)
    requires |s.ops| > 0 && WellFormedEntry(Top(s.ops))
    ensures r.s.operators == s.operators && r.s.parens == s.parens && r.s.inRow == s.inRow
    ensures r.Next? <==> |s.numbers| >= 2 && Apply(Top(s.ops).op, s.numbers[|s.numbers| - 2], s.numbers[|s.numbers| - 1]).Success?
    ensures |s.numbers| < 2 ==> r == Thrown(s.(numbers := []), StackUnderflow)
    ensures |s.numbers| >= 2 ==> r.s.ops == Pop(s.ops)
    ensures |s.numbers| < 2 ==> r.s.ops == s.ops
    ensures r.Next? ==> |r.s.numbers| == |s.numbers| - 1
    ensures r.Next? ==> r.s.numbers[..|s.numbers| - 2] == s.numbers[..|s.numbers| - 2]
    ensures r.Next? ==>
      r.s.numbers[|s.numbers| - 2] == Apply(Top(s.ops).op, s.numbers[|s.numbers| - 2], s.numbers[|s.numbers| - 1]).value
  {
    var n := |s.numbers|;
    if n < 2 then Thrown(s.(numbers := []), StackUnderflow)
    else
      var popped := s.(numbers := s.numbers[..n - 2], ops := Pop(s.ops));
      match Apply(Top(s.ops).op, s.numbers[n - 2], s.numbers[n - 1])
      case Failure(e) => Thrown(popped, e)
      case Success(v) => Next(popped.(numbers := popped.numbers + [v]))
  }

  function HasOpen(ops: seq<Entry>): bool
  {
    exists i :: 0 <= i < |ops| && ops[i].op == '('
  }

  /** ResolveStack: reduce until the operator stack is empty. */
  function ResolveAll(s: State): (r: Step)
    requires WellFormed(s.ops)
    decreases |s.ops|
    ensures WellFormed(r.s.ops)
    ensures r.s.operators == s.operators && r.s.parens == s.parens && r.s.inRow == s.inRow
  {
    if |s.ops| == 0 then Next(s)
    else
      match Reduce(s)
      case Thrown(_, _) => Reduce(s)
      case Next(s1) => ResolveAll(s1)
  }

  /** What ResolveAll leaves on success: an empty operator stack and one
      operand fewer per operator, with the operands below the result kept. */
  lemma {:induction false} ResolveAllShape(s: State)
    requires WellFormed(s.ops) && ResolveAll(s).Next?
    ensures var r := ResolveAll(s).s;
      r.ops == [] && |r.numbers| + |s.ops| == |s.numbers| &&
      (|s.ops| > 0 ==> |r.numbers| > 0 && r.numbers[..|r.numbers| - 1] == s.numbers[..|r.numbers| - 1])
    decreases |s.ops|
  {
    if |s.ops| > 0 {
      var s1 := Reduce(s).s;
      ResolveAllShape(s1);
      var r := ResolveAll(s1).s;
      if |s1.ops| > 0 {
        assert s1.numbers[..|r.numbers| - 1] == s.numbers[..|r.numbers| - 1];
      }
    }
  }

  /** ResolveAll fails whenever there are no more operands than operators,
      and whenever a '(' is on the stack, since reducing a '(' always fails. */
  lemma {:induction false} ResolveAllFails(s: State)
    requires WellFormed(s.ops)
    requires (|s.ops| > 0 && |s.numbers| <= |s.ops|) || HasOpen(s.ops)
    ensures ResolveAll(s).Thrown?
    decreases |s.ops|
  {
    if Reduce(s).Next? {
      var s1 := Reduce(s).s;
      if HasOpen(s.ops) {
        var i :| 0 <= i < |s.ops| && s.ops[i].op == '(';
        assert Top(s.ops).op != '(';
        assert s1.ops[i].op == '(';
      }
      ResolveAllFails(s1);
    }
  }

  /** The number of entries at the top of ops whose precedence exceeds p. */
  function RunAbove(ops: seq<Entry>, p: int): (n: nat)
    ensures n <= |ops|
  {
    if |ops| == 0 || Top(ops).precedence <= p then 0 else 1 + RunAbove(Pop(ops), p)
  }

  /** ResolveStackUntil: reduce while the top entry's precedence exceeds p and
      the stack is not empty; if the loop stops on an entry of precedence 0
      (a '('), discard it. The source reads the top of an empty stack when it
      is called on one; the model raises StackUnderflow. */
  function ResolveUntil(s: State, p: int): (r: Step)
    requires WellFormed(s.ops)
    decreases |s.ops|
    ensures WellFormed(r.s.ops)
    ensures r.s.operators == s.operators && r.s.parens == s.parens && r.s.inRow == s.inRow
    ensures |s.ops| == 0 ==> r == Thrown(s, StackUnderflow)
    ensures |r.s.ops| <= |s.ops|
  {
    if |s.ops| == 0 then Thrown(s, StackUnderflow)
    else if Top(s.ops).precedence > p then
      match Reduce(s)
      case Thrown(_, _) => Reduce(s)
      case Next(s1) =>
        assert s.ops[..|s.ops| - 1] == s1.ops;
        if |s1.ops| == 0 then Next(s1) else ResolveUntil(s1, p)
    else if Top(s.ops).precedence == 0 then Next(s.(ops := Pop(s.ops)))
    else Next(s)
  }

  /** ResolveUntil reduces the run of entries above p at the top of the
      stack, one operand per entry. */
  lemma {:induction false} ResolveUntilCount(s: State, p: int)
    requires WellFormed(s.ops) && ResolveUntil(s, p).Next?
    ensures |ResolveUntil(s, p).s.numbers| == |s.numbers| - RunAbove(s.ops, p)
    decreases |s.ops|
  {
    if Top(s.ops).precedence > p {
      var s1 := Reduce(s).s;
      assert s.ops[..|s.ops| - 1] == s1.ops;
      if |s1.ops| > 0 {
        ResolveUntilCount(s1, p);
      }
    }
  }

  /** What ResolveUntil leaves on the operator stack: the run of entries
      above p at the top is gone, and so is the entry below it when that is
      a '('. */
  function Remaining(ops: seq<Entry>, p: int): seq<Entry>
  {
    var k := |ops| - RunAbove(ops, p);
    if k == 0 then [] else if ops[k - 1].precedence == 0 then ops[..k - 1] else ops[..k]
  }

  /** ResolveUntil leaves exactly Remaining(s.ops, p) on the operator stack. */
  lemma {:induction false} ResolveUntilShape(s: State, p: int)
    requires WellFormed(s.ops) && ResolveUntil(s, p).Next?
    ensures ResolveUntil(s, p).s.ops == Remaining(s.ops, p)
    decreases |s.ops|
  {
    if Top(s.ops).precedence > p {
      var s1 := Reduce(s).s;
      assert s1.ops == Pop(s.ops);
      if |s1.ops| > 0 {
        ResolveUntilShape(s1, p);
        RemainingPop(s.ops, p);
      }
    } else {
      assert s.ops[..|s.ops|] == s.ops;
    }
  }

  /** Popping an entry above p leaves the same remainder. */
  lemma RemainingPop(ops: seq<Entry>, p: int)
    requires |ops| > 1 && Top(ops).precedence > p
    ensures Remaining(ops, p) == Remaining(Pop(ops), p)
  {
    var k := |ops| - RunAbove(ops, p);
    if k > 0 {
      assert Pop(ops)[..k - 1] == ops[..k - 1];
      assert Pop(ops)[..k] == ops[..k];
    }
  }

  // ---------------------------------------------------------------------
  // Pushing operators and numbers

  /** Counts one more operator and raises TooManyOperators at the limit. */
  function CountOperator(s: State): (r: Step)
    ensures r.s == s.(operators := s.operators + 1)
    ensures r.Thrown? <==> s.operators + 1 >= MaxOperatorsInInput
    ensures r.Thrown? ==> r.error == TooManyOperators
  {
    var s1 := s.(operators := s.operators + 1);
    if s1.operators >= MaxOperatorsInInput then Thrown(s1, TooManyOperators) else Next(s1)
  }

  /** PushToOperatorStack for '*', '/' and '%': refuse a second operator in a
      row, set the flag and push at precedence 3 without reducing anything. */
  function PushMultiplicative(s: State, c: char): (r: Step)
    requires (c == '*' || c == '/' || c == '%') && WellFormed(s.ops)
    ensures WellFormed(r.s.ops)
  {
    if s.inRow then Thrown(s, BadSyntax)
    else
      CountOperator(s.(inRow := true, ops := s.ops + [Entry(c, 3)]))
  }

  /** PushToOperatorStack for '+' and '-': refuse a second operator in a row,
      set the flag, reduce while the top entry has precedence above 2 (only
      when the stack is not empty and its top is above 2 to begin with), then
      push at precedence 2. */
  function PushAdditive(s: State, c: char): (r: Step)
    requires (c == '+' || c == '-') && WellFormed(s.ops)
    ensures WellFormed(r.s.ops)
  {
    if s.inRow then Thrown(s, BadSyntax)
    else
      var s1 := s.(inRow := true);
      var resolved := if |s1.ops| > 0 && Top(s1.ops).precedence > 2 then ResolveUntil(s1, 2) else Next(s1);
      match resolved
      case Thrown(_, _) => resolved
      case Next(s2) =>
        CountOperator(s2.(ops := s2.ops + [Entry(c, 2)]))
  }

  /** PushToOperatorStack for ')': decrement the parenthesis counter and fail
      when it drops below zero; otherwise reduce down to the nearest '(' and
      discard it. Nothing is pushed. */
  function PushClose(s: State): (r: Step)
    requires WellFormed(s.ops)
    ensures WellFormed(r.s.ops)
  {
    var s1 := s.(parens := s.parens - 1);
    if s1.parens < 0 then Thrown(s1, UnmatchedClose)
    else
      match ResolveUntil(s1, 0)
      case Thrown(_, _) => ResolveUntil(s1, 0)
      case Next(s2) => CountOperator(s2)
  }

  /** PushToOperatorStack: push an operator by the rules of its kind. A '(' is
      always pushed at precedence 0 and is the one operator left uncounted. */
  function PushOperator(s: State, c: char): (r: Step)
    requires IsOperator(c) && WellFormed(s.ops)
    ensures WellFormed(r.s.ops)
  {
    if c == '*' || c == '/' || c == '%' then PushMultiplicative(s, c)
    else if c == '+' || c == '-' then PushAdditive(s, c)
    else if c == '(' then Next(s.(ops := s.ops + [Entry('(', 0)], parens := s.parens + 1))
    else PushClose(s)
  }

  /** A multiplicative operator is refused right after another operator;
      otherwise it sets the flag, is pushed at precedence 3 with nothing
      reduced, and is counted. */
  lemma MultiplicativeSpec(s: State, c: char)
    requires (c == '*' || c == '/' || c == '%') && WellFormed(s.ops)
    ensures var r := PushMultiplicative(s, c);
      (s.inRow ==> r == Thrown(s, BadSyntax)) &&
      (!s.inRow ==> r.s == s.(inRow := true, ops := s.ops + [Entry(c, 3)], operators := s.operators + 1)) &&
      (!s.inRow ==> (r.Thrown? <==> s.operators + 1 >= MaxOperatorsInInput))
  {
  }

  /** An additive operator is refused right after another operator;
      otherwise it sets the flag, ends on top of the stack at precedence 2
      (reducing nothing when the top was not above 2), and is counted. */
  lemma AdditiveSpec(s: State, c: char)
    requires (c == '+' || c == '-') && WellFormed(s.ops)
    ensures var r := PushAdditive(s, c);
      (s.inRow ==> r == Thrown(s, BadSyntax)) &&
      (!s.inRow ==> r.s.inRow) &&
      r.s.parens == s.parens &&
      (r.Next? ==> |r.s.ops| > 0 && Top(r.s.ops) == Entry(c, 2)) &&
      (r.Next? && (|s.ops| == 0 || Top(s.ops).precedence <= 2) ==>
        r.s.ops == s.ops + [Entry(c, 2)] && r.s.numbers == s.numbers) &&
      (r.Next? && |s.ops| > 0 && Top(s.ops).precedence > 2 ==>
        r.s.ops == Remaining(s.ops, 2) + [Entry(c, 2)]) &&
      (r.Next? ==> r.s.operators == s.operators + 1 < MaxOperatorsInInput) &&
      (!s.inRow && s.operators + 1 >= MaxOperatorsInInput ==> r.Thrown?) &&
      // when the push succeeds
      (!s.inRow && (|s.ops| == 0 || Top(s.ops).precedence <= 2) ==>
        (r.Next? <==> s.operators + 1 < MaxOperatorsInInput)) &&
      (!s.inRow && |s.ops| > 0 && Top(s.ops).precedence > 2 ==>
        (r.Next? <==> ResolveUntil(s.(inRow := true), 2).Next? && s.operators + 1 < MaxOperatorsInInput))
  {
    var s1 := s.(inRow := true);
    if !s.inRow && |s.ops| > 0 && Top(s.ops).precedence > 2 && ResolveUntil(s1, 2).Next? {
      ResolveUntilShape(s1, 2);
    }
  }

  /** A ')' decrements the parenthesis counter and is refused when no '(' is
      counted; otherwise it only shrinks the stack, keeps the flag and is
      counted. */
  lemma CloseSpec(s: State)
    requires WellFormed(s.ops)
    ensures var r := PushClose(s);
      r.s.inRow == s.inRow &&
      |r.s.ops| <= |s.ops| &&
      (s.parens <= 0 ==> r == Thrown(s.(parens := s.parens - 1), UnmatchedClose)) &&
      r.s.parens == s.parens - 1 &&
      (r.Next? ==> r.s.ops == Remaining(s.ops, 0)) &&
      (r.Next? ==> r.s.operators == s.operators + 1 < MaxOperatorsInInput) &&
      (s.operators + 1 >= MaxOperatorsInInput ==> r.Thrown?) &&
      // when the push succeeds, whatever the flag
      (s.parens > 0 ==>
        (r.Next? <==> ResolveUntil(s.(parens := s.parens - 1), 0).Next? && s.operators + 1 < MaxOperatorsInInput))
  {
    var s1 := s.(parens := s.parens - 1);
    if s1.parens >= 0 && ResolveUntil(s1, 0).Next? {
      ResolveUntilShape(s1, 0);
    }
  }

  /** PushToOperatorStack as a whole: the consecutive-operator check, the
      precedence of each kind, and the two counters. */
  lemma PushOperatorSpec(s: State, c: char)
    requires IsOperator(c) && WellFormed(s.ops)
    ensures var r := PushOperator(s, c);
      // the consecutive-operator check: only binary operators test and set the flag
      (IsBinary(c) && s.inRow ==> r == Thrown(s, BadSyntax)) &&
      (IsBinary(c) && !s.inRow ==> r.s.inRow) &&
      (!IsBinary(c) ==> r.s.inRow == s.inRow) &&
      // precedences and reduction triggers
      ((c == '*' || c == '/' || c == '%') && r.Next? ==> r.s.ops == s.ops + [Entry(c, 3)] && r.s.numbers == s.numbers) &&
      ((c == '+' || c == '-') && r.Next? ==> |r.s.ops| > 0 && Top(r.s.ops) == Entry(c, 2)) &&
      ((c == '+' || c == '-') && r.Next? && (|s.ops| == 0 || Top(s.ops).precedence <= 2) ==>
        r.s.ops == s.ops + [Entry(c, 2)] && r.s.numbers == s.numbers) &&
      ((c == '+' || c == '-') && r.Next? && |s.ops| > 0 && Top(s.ops).precedence > 2 ==>
        r.s.ops == Remaining(s.ops, 2) + [Entry(c, 2)]) &&
      (c == '(' ==> r == Next(s.(ops := s.ops + [Entry('(', 0)], parens := s.parens + 1))) &&
      (c == ')' ==> |r.s.ops| <= |s.ops|) &&
      (c == ')' && r.Next? ==> r.s.ops == Remaining(s.ops, 0)) &&
      // the parenthesis counter
      (c == ')' && s.parens <= 0 ==> r == Thrown(s.(parens := s.parens - 1), UnmatchedClose)) &&
      (r.Next? ==> r.s.parens == s.parens + (if c == '(' then 1 else if c == ')' then -1 else 0)) &&
      // the operator counter
      (r.Next? ==> r.s.operators == s.operators + (if c == '(' then 0 else 1)) &&
      (c != '(' && r.Next? ==> r.s.operators < MaxOperatorsInInput) &&
      (c != '(' && s.operators + 1 >= MaxOperatorsInInput ==> r.Thrown?) &&
      // when the push succeeds
      ((c == '*' || c == '/' || c == '%') && !s.inRow ==> (r.Next? <==> s.operators + 1 < MaxOperatorsInInput)) &&
      ((c == '+' || c == '-') && !s.inRow && (|s.ops| == 0 || Top(s.ops).precedence <= 2) ==>
        (r.Next? <==> s.operators + 1 < MaxOperatorsInInput)) &&
      ((c == '+' || c == '-') && !s.inRow && |s.ops| > 0 && Top(s.ops).precedence > 2 ==>
        (r.Next? <==> ResolveUntil(s.(inRow := true), 2).Next? && s.operators + 1 < MaxOperatorsInInput)) &&
      (c == ')' && s.parens > 0 ==>
        (r.Next? <==> ResolveUntil(s.(parens := s.parens - 1), 0).Next? && s.operators + 1 < MaxOperatorsInInput))
  {
    if c == '*' || c == '/' || c == '%' {
      MultiplicativeSpec(s, c);
    } else if c == '+' || c == '-' {
      AdditiveSpec(s, c);
    } else if c == ')' {
      CloseSpec(s);
    }
  }

  /** PushToNumberStack: push the number std::stof reads from text and clear
      the consecutive-operator flag; MalformedNumber when there is none. */
  function PushNumber(s: State, text: string): (r: Step)
    ensures r.Next? <==> ParseNumber(text).Some?
    ensures r.Thrown? ==> r == Thrown(s, MalformedNumber)
    ensures r.Next? ==> r.s == s.(numbers := s.numbers + [Real(ParseNumber(text).value)], inRow := false)
  {
    match ParseNumber(text)
    case None => Thrown(s, MalformedNumber)
    case Some(v) => Next(s.(numbers := s.numbers + [Real(v)], inRow := false))
  }

  // ---------------------------------------------------------------------
  // The scanner

  /** numStartIndex after the scanner has looked at input[..i]: one past the
      last operator among them, or 0 when there is none. */
  function NumberStart(input: string, i: nat): (start: nat)
    requires i <= |input|
    ensures start <= i
    ensures start == 0 || IsOperator(input[start - 1])
    ensures forall k :: start <= k < i ==> !IsOperator(input[k])
  {
    if i == 0 then 0 else if IsOperator(input[i - 1]) then i else NumberStart(input, i - 1)
  }

  /** The number of counted operators (all but '(') in t. */
  function CountedOperators(t: string): nat
  {
    if |t| == 0 then 0 else (if IsOperator(t[0]) && t[0] != '(' then 1 else 0) + CountedOperators(t[1..])
  }

  /** The number of '(' in t minus the number of ')'. */
  function Depth(t: string): int
  {
    if |t| == 0 then 0 else (if t[0] == '(' then 1 else if t[0] == ')' then -1 else 0) + Depth(t[1..])
  }

  /** One pass of Solve's for loop at index i. An operator first pushes the
      number that ends just before it, unless it is the first character or
      follows another operator, and is then pushed itself; other characters
      only extend the current number. */
  function ScanAt(s: State, input: string, i: nat): (r: Step)
    requires i < |input| && WellFormed(s.ops)
    ensures WellFormed(r.s.ops)
  {
    if !IsOperator(input[i]) then Next(s)
    else
      var pushed :=
        if i != 0 && !IsOperator(input[i - 1]) then PushNumber(s, input[NumberStart(input, i)..i]) else Next(s);
      match pushed
      case Thrown(_, _) => pushed
      case Next(s1) => PushOperator(s1, input[i])
  }

  /** Solve's for loop from index i to the end of the input. */
  function Scan(s: State, input: string, i: nat): (r: Step)
    requires i <= |input| && WellFormed(s.ops)
    decreases |input| - i
    ensures WellFormed(r.s.ops)
  {
    if i == |input| then Next(s)
    else
      match ScanAt(s, input, i)
      case Thrown(_, _) => ScanAt(s, input, i)
      case Next(s1) => Scan(s1, input, i + 1)
  }

  /** The text Solve hands to std::stof for the number that ends the input:
      everything from numStart to the end. */
  function TrailingText(input: string, numStart: nat): (t: string)
    requires numStart <= |input|
    ensures input[..numStart] + t == input
  {
    input[numStart..]
  }

  /** The trailing text as the source computes it: the length passed to
      substr is the character code of the last character minus numStart, and
      a negative int becomes a huge unsigned count, so substr then takes the
      rest. Character codes are taken as their Unicode values. */
  function TrailingTextAsWritten(input: string, numStart: nat): (t: string)
    requires 0 < |input| && numStart <= |input|
    ensures |t| <= |input| - numStart && t == input[numStart..numStart + |t|]
    ensures t != TrailingText(input, numStart) <==> numStart <= input[|input| - 1] as int < |input|
  {
    var count := input[|input| - 1] as int - numStart;
    if count < 0 || numStart + count >= |input| then input[numStart..] else input[numStart..numStart + count]
  }

  /** What Solve does after its for loop: push the trailing number unless the
      input ends in ')', then reduce everything. */
  function Finish(s: State, input: string): (r: Step)
    requires 0 < |input| && WellFormed(s.ops)
    ensures r.Next? ==> r.s.ops == []
  {
    var pushed :=
      if input[|input| - 1] != ')' then PushNumber(s, TrailingText(input, NumberStart(input, |input|))) else Next(s);
    match pushed
    case Thrown(_, _) => pushed
    case Next(s1) =>
      if HasOpen(s1.ops) then ResolveAllFails(s1); ResolveAll(s1)
      else if ResolveAll(s1).Next? then ResolveAllShape(s1); ResolveAll(s1)
      else ResolveAll(s1)
  }

  /** The state Solve starts from: both stacks emptied and both counters
      zeroed, while the consecutive-operator flag keeps its earlier value. */
  function Initial(inRow: bool): (s: State)
  {
    State([], [], 0, 0, inRow)
  }

  /** The whole of Solve, ending in the solver's final state. */
  function Run(inRow: bool, input: string): (r: Step)
  {
    if |input| == 0 then Thrown(Initial(inRow), EmptyInput)
    else
      match Scan(Initial(inRow), input, 0)
      case Thrown(_, _) => Scan(Initial(inRow), input, 0)
      case Next(s) => Finish(s, input)
  }

  /** The answer of Solve: the top of the operand stack once everything is
      reduced, or the error that stopped the evaluation. */
  function Evaluate(inRow: bool, input: string): (r: Result<Num, Error>)
  {
    match Run(inRow, input)
    case Thrown(_, e) => Failure(e)
    case Next(s) => if |s.numbers| == 0 then Failure(StackUnderflow) else Success(s.numbers[|s.numbers| - 1])
  }

  // ---------------------------------------------------------------------
  // Helper lemmas for the contracts above

  lemma OpenCountPush(ops: seq<Entry>, e: Entry)
    ensures OpenCount(ops + [e]) == OpenCount(ops) + (if e.op == '(' then 1 else 0)
  {
    assert Pop(ops + [e]) == ops;
  }

  lemma {:induction false} OpenCountPrefix(ops: seq<Entry>, k: nat)
    requires k <= |ops|
    ensures OpenCount(ops[..k]) <= OpenCount(ops)
    decreases |ops|
  {
    if k < |ops| {
      assert ops[..k] == Pop(ops)[..k];
      OpenCountPrefix(Pop(ops), k);
    } else {
      assert ops[..k] == ops;
    }
  }

  /** Resolving never adds a '(' to the stack. */
  lemma OpenCountResolve(s: State, p: int)
    requires WellFormed(s.ops) && ResolveUntil(s, p).Next?
    ensures OpenCount(ResolveUntil(s, p).s.ops) <= OpenCount(s.ops)
  {
    ResolveUntilShape(s, p);
    OpenCountRemaining(s.ops, p);
  }

  lemma OpenCountRemaining(ops: seq<Entry>, p: int)
    ensures OpenCount(Remaining(ops, p)) <= OpenCount(ops)
  {
    var k := |ops| - RunAbove(ops, p);
    if k == 0 {
    } else if ops[k - 1].precedence == 0 {
      OpenCountPrefix(ops, k - 1);
    } else {
      OpenCountPrefix(ops, k);
    }
  }

  /** The entries above the topmost '(' on the stack all have a positive precedence. */
  lemma {:induction false} RunAboveZero(ops: seq<Entry>)
    requires WellFormed(ops) && RunAbove(ops, 0) < |ops|
    ensures ops[|ops| - RunAbove(ops, 0) - 1].op == '('
    ensures OpenCount(ops[..|ops| - RunAbove(ops, 0) - 1]) + 1 == OpenCount(ops)
    decreases |ops|
  {
    if Top(ops).precedence > 0 {
      assert WellFormed(Pop(ops));
      RunAboveZero(Pop(ops));
      assert ops[..|ops| - RunAbove(ops, 0) - 1] == Pop(ops)[..|Pop(ops)| - RunAbove(Pop(ops), 0) - 1];
    }
  }

  /** A ')' that passes the counter check removes a '(' from the stack, or
      empties the stack when none is left. */
  lemma OpenCountClose(s: State)
    requires WellFormed(s.ops) && ResolveUntil(s, 0).Next?
    ensures OpenCount(ResolveUntil(s, 0).s.ops) + 1 == OpenCount(s.ops) || ResolveUntil(s, 0).s.ops == []
  {
    ResolveUntilShape(s, 0);
    OpenCountRemainingClose(s.ops);
  }

  /** Below the run of entries above 0 there is a '(', which is discarded. */
  lemma OpenCountRemainingClose(ops: seq<Entry>)
    requires WellFormed(ops)
    ensures OpenCount(Remaining(ops, 0)) + 1 == OpenCount(ops) || Remaining(ops, 0) == []
  {
    if RunAbove(ops, 0) < |ops| {
      RunAboveZero(ops);
    }
  }

  /** A push that raises nothing keeps a consistent state consistent: entries
      stay well formed, every '(' on the stack is still counted, and the
      operator counter is still below the limit. */
  lemma PushOperatorConsistent(s: State, c: char)
    requires IsOperator(c) && Consistent(s) && PushOperator(s, c).Next?
    ensures Consistent(PushOperator(s, c).s)
  {
    if c == '(' {
      OpenCountPush(s.ops, Entry('(', 0));
    } else if c == '*' || c == '/' || c == '%' {
      MultiplicativeSpec(s, c);
      OpenCountPush(s.ops, Entry(c, 3));
    } else if c == '+' || c == '-' {
      AdditiveConsistent(s, c);
    } else {
      CloseConsistent(s);
    }
  }

  lemma AdditiveConsistent(s: State, c: char)
    requires (c == '+' || c == '-') && Consistent(s) && PushAdditive(s, c).Next?
    ensures Consistent(PushAdditive(s, c).s)
  {
    var s1 := s.(inRow := true);
    var r := PushAdditive(s, c).s;
    AdditiveSpec(s, c);
    if |s1.ops| > 0 && Top(s1.ops).precedence > 2 {
      var s2 := ResolveUntil(s1, 2).s;
      assert ResolveUntil(s1, 2).Next?;
      assert r.ops == s2.ops + [Entry(c, 2)];
      OpenCountResolve(s1, 2);
      OpenCountPush(s2.ops, Entry(c, 2));
    } else {
      assert r.ops == s.ops + [Entry(c, 2)];
      OpenCountPush(s.ops, Entry(c, 2));
    }
  }

  lemma CloseConsistent(s: State)
    requires Consistent(s) && PushClose(s).Next?
    ensures Consistent(PushClose(s).s)
  {
    CloseSpec(s);
    OpenCountClose(s.(parens := s.parens - 1));
  }

  lemma ScanAtCounts(s: State, input: string, i: nat)
    requires i < |input| && WellFormed(s.ops) && ScanAt(s, input, i).Next?
    ensures var r := ScanAt(s, input, i).s;
      r.operators == s.operators + (if IsOperator(input[i]) && input[i] != '(' then 1 else 0) &&
      r.parens == s.parens + (if input[i] == '(' then 1 else if input[i] == ')' then -1 else 0) &&
      (Consistent(s) ==> Consistent(r))
  {
    if IsOperator(input[i]) && Consistent(s) {
      var pushed := if i != 0 && !IsOperator(input[i - 1]) then PushNumber(s, input[NumberStart(input, i)..i]) else Next(s);
      PushOperatorConsistent(pushed.s, input[i]);
    }
    if IsOperator(input[i]) {
      var pushed := if i != 0 && !IsOperator(input[i - 1]) then PushNumber(s, input[NumberStart(input, i)..i]) else Next(s);
      if pushed.Next? {
        PushOperatorSpec(pushed.s, input[i]);
      }
    }
  }

  /** After a scan from index i that raises no error, the operator counter
      has grown by the counted operators of input[i..] and the parenthesis
      counter by their depth, and a consistent state has stayed consistent. */
  lemma {:induction false} ScanCounters(s: State, input: string, i: nat)
    requires i <= |input| && WellFormed(s.ops) && Scan(s, input, i).Next?
    ensures var r := Scan(s, input, i).s;
      r.operators == s.operators + CountedOperators(input[i..]) &&
      r.parens == s.parens + Depth(input[i..]) &&
      (Consistent(s) ==> Consistent(r))
    decreases |input| - i
  {
    if i < |input| {
      var s1 := ScanAt(s, input, i).s;
      ScanAtCounts(s, input, i);
      ScanCounters(s1, input, i + 1);
      assert input[i..][1..] == input[i + 1..];
    }
  }

  /** One turn of the scanner's loop. */
  lemma ScanUnfold(s: State, input: string, i: nat)
    requires i < |input| && WellFormed(s.ops)
    ensures Scan(s, input, i) == match ScanAt(s, input, i)
      case Thrown(_, _) => ScanAt(s, input, i)
      case Next(s1) => Scan(s1, input, i + 1)
  {
  }

  /** A turn of the loop at a character that is not an operator changes nothing. */
  lemma ScanSkip(s: State, input: string, i: nat)
    requires i < |input| && WellFormed(s.ops) && !IsOperator(input[i])
    ensures Scan(s, input, i) == Scan(s, input, i + 1)
  {
  }

  /** A turn of the loop at an operator whose preceding number stof cannot
      read ends the scan with that error. */
  lemma ScanNumberThrows(s: State, input: string, i: nat)
    requires i < |input| && WellFormed(s.ops) && IsOperator(input[i]) && i != 0 && !IsOperator(input[i - 1])
    requires PushNumber(s, input[NumberStart(input, i)..i]).Thrown?
    ensures Scan(s, input, i) == PushNumber(s, input[NumberStart(input, i)..i])
  {
  }

  /** A turn of the loop at an operator, once the number before it (if any)
      has been pushed: the operator push either ends the scan with its error
      or the scan goes on from the next index. */
  lemma ScanOperatorStep(s: State, input: string, i: nat, pushed: State)
    requires i < |input| && WellFormed(s.ops) && IsOperator(input[i])
    requires if i != 0 && !IsOperator(input[i - 1])
      then PushNumber(s, input[NumberStart(input, i)..i]) == Next(pushed)
      else pushed == s
    ensures WellFormed(pushed.ops)
    ensures Scan(s, input, i) ==
      match PushOperator(pushed, input[i])
      case Thrown(_, _) => PushOperator(pushed, input[i])
      case Next(s1) => Scan(s1, input, i + 1)
  {
  }

  /** A scan that raises no error is followed by the steps after the loop. */
  lemma RunFinish(inRow: bool, input: string, s: State)
    requires 0 < |input| && WellFormed(s.ops) && Scan(Initial(inRow), input, 0) == Next(s)
    ensures Run(inRow, input) == Finish(s, input)
  {
  }

  /** An error raised during the scan is the error of the whole evaluation. */
  lemma ScanErrorEndsRun(inRow: bool, input: string, st: State, e: Error)
    requires 0 < |input| && Scan(Initial(inRow), input, 0) == Thrown(st, e)
    ensures Run(inRow, input) == Thrown(st, e) && Evaluate(inRow, input) == Failure(e)
  {
  }
}
