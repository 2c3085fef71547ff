/** Worked evaluations: the example from the program's input loop, and
    inputs that show where the solver's rules differ from textbook
    precedence parsing. Each lemma takes its input, and the states the scan
    passes through, as parameters fixed by its preconditions, so that the
    verifier follows the scan one step at a time instead of unfolding it all
    at once. */
module Examples {
  import opened Results
  import opened Numbers
  import opened Evaluation
  import opened Properties
  import opened Solver

  // ---------------------------------------------------------------------
  // "3+4*(2-1)", the example of the program's main loop

  lemma MainFirstTerm(input: string, s0: State, s1: State)
    requires |input| == 9 && input[0] == '3' && input[1] == '+' && input[2] == '4'
    requires s0 == Initial(false)
    requires s1 == State([Real(3.0)], [Entry('+', 2)], 1, 0, true)
    ensures Scan(s0, input, 0) == Scan(s1, input, 2)
  {
    assert input[0..1] == "3";
    Term(s0, input, 0, 1, 3.0, s1);
  }

  lemma MainSecondTerm(input: string, s1: State, s2: State)
    requires |input| == 9 && input[1] == '+' && input[2] == '4' && input[3] == '*' && input[4] == '('
    requires s1 == State([Real(3.0)], [Entry('+', 2)], 1, 0, true)
    requires s2 == State([Real(3.0), Real(4.0)], [Entry('+', 2), Entry('*', 3)], 2, 0, true)
    ensures Scan(s1, input, 2) == Scan(s2, input, 4)
  {
    assert input[2..3] == "4";
    Term(s1, input, 2, 3, 4.0, s2);
  }

  lemma MainOpen(input: string, s2: State, s3: State)
    requires |input| == 9 && input[3] == '*' && input[4] == '(' && input[5] == '2'
    requires s2 == State([Real(3.0), Real(4.0)], [Entry('+', 2), Entry('*', 3)], 2, 0, true)
    requires s3 == State([Real(3.0), Real(4.0)], [Entry('+', 2), Entry('*', 3), Entry('(', 0)], 2, 1, true)
    ensures Scan(s2, input, 4) == Scan(s3, input, 5)
  {
    OperatorAfterOperator(s2, input, 4, s3);
  }

  lemma MainOpenGroup(input: string, s3: State, s4: State)
    requires |input| == 9 && input[4] == '(' && input[5] == '2' && input[6] == '-' && input[7] == '1'
    requires s3 == State([Real(3.0), Real(4.0)], [Entry('+', 2), Entry('*', 3), Entry('(', 0)], 2, 1, true)
    requires s4 == State([Real(3.0), Real(4.0), Real(2.0)], [Entry('+', 2), Entry('*', 3), Entry('(', 0), Entry('-', 2)], 3, 1, true)
    ensures Scan(s3, input, 5) == Scan(s4, input, 7)
  {
    assert input[5..6] == "2";
    Term(s3, input, 5, 6, 2.0, s4);
  }

  lemma MainCloseGroup(input: string, s4: State, s5: State)
    requires |input| == 9 && input[6] == '-' && input[7] == '1' && input[8] == ')'
    requires s4 == State([Real(3.0), Real(4.0), Real(2.0)], [Entry('+', 2), Entry('*', 3), Entry('(', 0), Entry('-', 2)], 3, 1, true)
    requires s5 == State([Real(3.0), Real(4.0), Real(1.0)], [Entry('+', 2), Entry('*', 3)], 4, 0, false)
    ensures Scan(s4, input, 7) == Next(s5)
  {
    assert input[7..8] == "1";
    NumberStartAt(input, 7, 8);
    var pushed := s4.(numbers := s4.numbers + [Real(1.0)], inRow := false);
    assert PushNumber(s4, input[7..8]) == Next(pushed);
    MainClose(pushed, s5);
    Term(s4, input, 7, 8, 1.0, s5);
  }

  /** The ')' reduces 2-1 and discards the '('. */
  lemma MainClose(s: State, s5: State)
    requires s == State([Real(3.0), Real(4.0), Real(2.0), Real(1.0)], [Entry('+', 2), Entry('*', 3), Entry('(', 0), Entry('-', 2)], 3, 1, false)
    requires s5 == State([Real(3.0), Real(4.0), Real(1.0)], [Entry('+', 2), Entry('*', 3)], 4, 0, false)
    ensures PushOperator(s, ')') == Next(s5)
  {
    var difference := s5.(operators := 3, ops := s.ops[..3]);
    assert Reduce(s.(parens := 0)) == Next(difference);
    assert ResolveUntil(difference, 0) == Next(s5.(operators := 3));
  }

  /** After the ')' there is no number to push: 3+4*1 is reduced. */
  lemma MainEnd(input: string, s5: State, s6: State)
    requires |input| == 9 && input[8] == ')'
    requires s5 == State([Real(3.0), Real(4.0), Real(1.0)], [Entry('+', 2), Entry('*', 3)], 4, 0, false)
    requires s6 == State([Real(7.0)], [], 4, 0, false)
    ensures Finish(s5, input) == Next(s6)
  {
    var product := s5.(numbers := [Real(3.0), Real(4.0)], ops := [Entry('+', 2)]);
    assert Reduce(s5) == Next(product);
    assert Reduce(product) == Next(s6);
    assert ResolveAll(s6) == Next(s6);
  }

  /** The example input of the program's main loop evaluates to 7. */
  lemma ExampleFromMain(input: string)
    requires input == "3+4*(2-1)"
    ensures Evaluate(false, input) == Success(Real(7.0))
  {
    MainSteps(input);
  }

  /** The turns of the scan over "3+4*(2-1)", character by character. */
  lemma MainSteps(input: string)
    requires |input| == 9 && input[0] == '3' && input[1] == '+' && input[2] == '4' && input[3] == '*' && input[4] == '('
    requires input[5] == '2' && input[6] == '-' && input[7] == '1' && input[8] == ')'
    ensures Evaluate(false, input) == Success(Real(7.0))
  {
    var s1 := State([Real(3.0)], [Entry('+', 2)], 1, 0, true);
    var s2 := State([Real(3.0), Real(4.0)], [Entry('+', 2), Entry('*', 3)], 2, 0, true);
    var s3 := State([Real(3.0), Real(4.0)], [Entry('+', 2), Entry('*', 3), Entry('(', 0)], 2, 1, true);
    var s4 := State([Real(3.0), Real(4.0), Real(2.0)], [Entry('+', 2), Entry('*', 3), Entry('(', 0), Entry('-', 2)], 3, 1, true);
    var s5 := State([Real(3.0), Real(4.0), Real(1.0)], [Entry('+', 2), Entry('*', 3)], 4, 0, false);
    MainFirstTerm(input, Initial(false), s1);
    MainSecondTerm(input, s1, s2);
    MainOpen(input, s2, s3);
    MainOpenGroup(input, s3, s4);
    MainCloseGroup(input, s4, s5);
    MainEnd(input, s5, State([Real(7.0)], [], 4, 0, false));
  }

  // ---------------------------------------------------------------------
  // "3+4*2": precedence

  lemma PrecedenceFirstTerm(input: string, s0: State, s1: State)
    requires |input| == 5 && input[0] == '3' && input[1] == '+' && input[2] == '4'
    requires s0 == Initial(false)
    requires s1 == State([Real(3.0)], [Entry('+', 2)], 1, 0, true)
    ensures Scan(s0, input, 0) == Scan(s1, input, 2)
  {
    assert input[0..1] == "3";
    Term(s0, input, 0, 1, 3.0, s1);
  }

  lemma PrecedenceSecondTerm(input: string, s1: State, s2: State)
    requires |input| == 5 && input[1] == '+' && input[2] == '4' && input[3] == '*' && input[4] == '2'
    requires s1 == State([Real(3.0)], [Entry('+', 2)], 1, 0, true)
    requires s2 == State([Real(3.0), Real(4.0)], [Entry('+', 2), Entry('*', 3)], 2, 0, true)
    ensures Scan(s1, input, 2) == Scan(s2, input, 4)
  {
    assert input[2..3] == "4";
    Term(s1, input, 2, 3, 4.0, s2);
  }

  lemma PrecedenceEnd(input: string, s2: State, s3: State)
    requires |input| == 5 && input[3] == '*' && input[4] == '2'
    requires s2 == State([Real(3.0), Real(4.0)], [Entry('+', 2), Entry('*', 3)], 2, 0, true)
    requires s3 == State([Real(11.0)], [], 2, 0, false)
    ensures Scan(s2, input, 4) == Next(s2) && Finish(s2, input) == Next(s3)
  {
    assert input[4..] == "2";
    LastNumber(s2, input, 4, 2.0);
    PrecedenceReduce(s2.(numbers := s2.numbers + [Real(2.0)], inRow := false), s3);
  }

  lemma PrecedenceReduce(s: State, s3: State)
    requires s == State([Real(3.0), Real(4.0), Real(2.0)], [Entry('+', 2), Entry('*', 3)], 2, 0, false)
    requires s3 == State([Real(11.0)], [], 2, 0, false)
    ensures ResolveAll(s) == Next(s3)
  {
    var product := s.(numbers := [Real(3.0), Real(8.0)], ops := [Entry('+', 2)]);
    assert Reduce(s) == Next(product);
    assert Reduce(product) == Next(s3);
    assert ResolveAll(s3) == Next(s3);
  }

  /** "3+4*2" evaluates to 11: the '*' is reduced before the '+'. */
  lemma PrecedenceExample(input: string)
    requires input == "3+4*2"
    ensures Evaluate(false, input) == Success(Real(11.0))
  {
    var s1 := State([Real(3.0)], [Entry('+', 2)], 1, 0, true);
    var s2 := State([Real(3.0), Real(4.0)], [Entry('+', 2), Entry('*', 3)], 2, 0, true);
    PrecedenceFirstTerm(input, Initial(false), s1);
    PrecedenceSecondTerm(input, s1, s2);
    PrecedenceEnd(input, s2, State([Real(11.0)], [], 2, 0, false));
  }

  // ---------------------------------------------------------------------
  // "10/2-3": a reduction that empties the operator stack

  lemma QuotientTerm(input: string, s0: State, s1: State)
    requires |input| == 6 && input[0] == '1' && input[1] == '0' && input[2] == '/' && input[3] == '2'
    requires s0 == Initial(false)
    requires s1 == State([Real(10.0)], [Entry('/', 3)], 1, 0, true)
    ensures Scan(s0, input, 0) == Scan(s1, input, 3)
  {
    assert input[0..2] == "10";
    TwoDigitNumber();
    var pushed := s0.(numbers := [Real(10.0)], inRow := false);
    assert PushNumber(s0, input[0..2]) == Next(pushed);
    Term(s0, input, 0, 2, 10.0, s1);
  }

  /** A number of two digits. */
  lemma TwoDigitNumber()
    ensures ParseNumber("10") == Some(10.0)
  {
    ParseDecimal(10);
    assert Decimal(10) == "10";
  }

  lemma QuotientDifference(input: string, s1: State, s2: State)
    requires |input| == 6 && input[2] == '/' && input[3] == '2' && input[4] == '-' && input[5] == '3'
    requires s1 == State([Real(10.0)], [Entry('/', 3)], 1, 0, true)
    requires s2 == State([Real(5.0)], [Entry('-', 2)], 2, 0, true)
    ensures Scan(s1, input, 3) == Scan(s2, input, 5)
  {
    assert input[3..4] == "2";
    NumberStartAt(input, 3, 4);
    var pushed := s1.(numbers := s1.numbers + [Real(2.0)], inRow := false);
    assert PushNumber(s1, input[3..4]) == Next(pushed);
    QuotientMinus(pushed, s2);
    Term(s1, input, 3, 4, 2.0, s2);
  }

  /** The '-' reduces 10/2, which empties the stack, and is pushed. */
  lemma QuotientMinus(s: State, s2: State)
    requires s == State([Real(10.0), Real(2.0)], [Entry('/', 3)], 1, 0, false)
    requires s2 == State([Real(5.0)], [Entry('-', 2)], 2, 0, true)
    ensures PushOperator(s, '-') == Next(s2)
  {
    var s1 := s.(inRow := true);
    assert Reduce(s1) == Next(s1.(numbers := [Real(5.0)], ops := []));
    assert ResolveUntil(s1, 2) == Next(s1.(numbers := [Real(5.0)], ops := []));
  }

  lemma QuotientEnd(input: string, s2: State, s3: State)
    requires |input| == 6 && input[4] == '-' && input[5] == '3'
    requires s2 == State([Real(5.0)], [Entry('-', 2)], 2, 0, true)
    requires s3 == State([Real(2.0)], [], 2, 0, false)
    ensures Scan(s2, input, 5) == Next(s2) && Finish(s2, input) == Next(s3)
  {
    assert input[5..] == "3";
    LastNumber(s2, input, 5, 3.0);
    var s := s2.(numbers := s2.numbers + [Real(3.0)], inRow := false);
    assert Reduce(s) == Next(s3);
    assert ResolveAll(s3) == Next(s3);
  }

  /** "10/2-3" evaluates to 2: the '-' reduces 10/2, which empties the
      operator stack, and is then pushed. */
  lemma DivisionExample(input: string)
    requires input == "10/2-3"
    ensures Evaluate(false, input) == Success(Real(2.0))
  {
    var s1 := State([Real(10.0)], [Entry('/', 3)], 1, 0, true);
    var s2 := State([Real(5.0)], [Entry('-', 2)], 2, 0, true);
    QuotientTerm(input, Initial(false), s1);
    QuotientDifference(input, s1, s2);
    QuotientEnd(input, s2, State([Real(2.0)], [], 2, 0, false));
  }

  // ---------------------------------------------------------------------
  // Refused inputs

  lemma LeadingTerm(input: string, s0: State, s1: State)
    requires |input| > 2 && input[0] == '1' && input[1] == '+'
    requires s0 == Initial(false)
    requires s1 == State([Real(1.0)], [Entry('+', 2)], 1, 0, true)
    ensures Scan(s0, input, 0) == Scan(s1, input, 2)
  {
    assert input[0..1] == "1";
    Term(s0, input, 0, 1, 1.0, s1);
  }

  /** "1+*2" fails with BadSyntax at the '*'. Solve catches that error and
      returns, and the consecutive-operator flag set by the '+' stays set. */
  lemma ConsecutiveOperatorsExample(input: string)
    requires input == "1+*2"
    ensures Evaluate(false, input) == Failure(BadSyntax)
    ensures Run(false, input) == Thrown(State([Real(1.0)], [Entry('+', 2)], 1, 0, true), BadSyntax)
  {
    var s1 := State([Real(1.0)], [Entry('+', 2)], 1, 0, true);
    LeadingTerm(input, Initial(false), s1);
    ScanUnfold(s1, input, 2);
    ScanErrorEndsRun(false, input, s1, BadSyntax);
  }

  /** The ')' of "1+2)" finds no '(' to close. */
  lemma UnmatchedCloseTurn(input: string, s1: State, s2: State)
    requires |input| == 4 && input[1] == '+' && input[2] == '2' && input[3] == ')'
    requires s1 == State([Real(1.0)], [Entry('+', 2)], 1, 0, true)
    requires s2 == State([Real(1.0), Real(2.0)], [Entry('+', 2)], 1, -1, false)
    ensures Scan(s1, input, 2) == Thrown(s2, UnmatchedClose)
  {
    ScanStep(s1, input, 2, s1);
    ScanUnfold(s1, input, 3);
    NumberStartAt(input, 2, 3);
    assert input[2..3] == "2";
  }

  /** "1+2)" fails with UnmatchedClose at the ')'. */
  lemma UnmatchedCloseExample(input: string)
    requires input == "1+2)"
    ensures Evaluate(false, input) == Failure(UnmatchedClose)
  {
    var s1 := State([Real(1.0)], [Entry('+', 2)], 1, 0, true);
    var s2 := State([Real(1.0), Real(2.0)], [Entry('+', 2)], 1, -1, false);
    LeadingTerm(input, Initial(false), s1);
    UnmatchedCloseTurn(input, s1, s2);
    ScanErrorEndsRun(false, input, s2, UnmatchedClose);
  }

  // ---------------------------------------------------------------------
  // "1-2+3": operators of equal precedence are reduced from the right

  lemma SubtractionFirstTerm(input: string, s0: State, s1: State)
    requires |input| == 5 && input[0] == '1' && input[1] == '-' && input[2] == '2'
    requires s0 == Initial(false)
    requires s1 == State([Real(1.0)], [Entry('-', 2)], 1, 0, true)
    ensures Scan(s0, input, 0) == Scan(s1, input, 2)
  {
    assert input[0..1] == "1";
    Term(s0, input, 0, 1, 1.0, s1);
  }

  lemma SubtractionSecondTerm(input: string, s1: State, s2: State)
    requires |input| == 5 && input[1] == '-' && input[2] == '2' && input[3] == '+' && input[4] == '3'
    requires s1 == State([Real(1.0)], [Entry('-', 2)], 1, 0, true)
    requires s2 == State([Real(1.0), Real(2.0)], [Entry('-', 2), Entry('+', 2)], 2, 0, true)
    ensures Scan(s1, input, 2) == Scan(s2, input, 4)
  {
    assert input[2..3] == "2";
    Term(s1, input, 2, 3, 2.0, s2);
  }

  lemma SubtractionEnd(input: string, s2: State, s3: State)
    requires |input| == 5 && input[3] == '+' && input[4] == '3'
    requires s2 == State([Real(1.0), Real(2.0)], [Entry('-', 2), Entry('+', 2)], 2, 0, true)
    requires s3 == State([Real(-4.0)], [], 2, 0, false)
    ensures Scan(s2, input, 4) == Next(s2) && Finish(s2, input) == Next(s3)
  {
    assert input[4..] == "3";
    LastNumber(s2, input, 4, 3.0);
    SubtractionReduce(s2.(numbers := s2.numbers + [Real(3.0)], inRow := false), s3);
  }

  /** 2+3 is reduced first, then 1-5. */
  lemma SubtractionReduce(s: State, s3: State)
    requires s == State([Real(1.0), Real(2.0), Real(3.0)], [Entry('-', 2), Entry('+', 2)], 2, 0, false)
    requires s3 == State([Real(-4.0)], [], 2, 0, false)
    ensures ResolveAll(s) == Next(s3)
  {
    var sum := s.(numbers := [Real(1.0), Real(5.0)], ops := [Entry('-', 2)]);
    assert Reduce(s) == Next(sum);
    assert Reduce(sum) == Next(s3);
    assert ResolveAll(s3) == Next(s3);
  }

  /** "1-2+3" evaluates to 1-(2+3) = -4, not to 2: a '+' or '-' only reduces
      operators of higher precedence before it is pushed, so a chain of them
      is reduced from the right at the end. */
  lemma SubtractionChain(input: string)
    requires input == "1-2+3"
    ensures Evaluate(false, input) == Success(Real(-4.0))
  {
    var s1 := State([Real(1.0)], [Entry('-', 2)], 1, 0, true);
    var s2 := State([Real(1.0), Real(2.0)], [Entry('-', 2), Entry('+', 2)], 2, 0, true);
    SubtractionFirstTerm(input, Initial(false), s1);
    SubtractionSecondTerm(input, s1, s2);
    SubtractionEnd(input, s2, State([Real(-4.0)], [], 2, 0, false));
  }

  // ---------------------------------------------------------------------
  // "8/2/2": multiplicative operators are reduced from the right too

  lemma DivisionChainFirstTerm(input: string, s0: State, s1: State)
    requires |input| == 5 && input[0] == '8' && input[1] == '/' && input[2] == '2'
    requires s0 == Initial(false)
    requires s1 == State([Real(8.0)], [Entry('/', 3)], 1, 0, true)
    ensures Scan(s0, input, 0) == Scan(s1, input, 2)
  {
    assert input[0..1] == "8";
    Term(s0, input, 0, 1, 8.0, s1);
  }

  lemma DivisionChainSecondTerm(input: string, s1: State, s2: State)
    requires |input| == 5 && input[1] == '/' && input[2] == '2' && input[3] == '/' && input[4] == '2'
    requires s1 == State([Real(8.0)], [Entry('/', 3)], 1, 0, true)
    requires s2 == State([Real(8.0), Real(2.0)], [Entry('/', 3), Entry('/', 3)], 2, 0, true)
    ensures Scan(s1, input, 2) == Scan(s2, input, 4)
  {
    assert input[2..3] == "2";
    Term(s1, input, 2, 3, 2.0, s2);
  }

  lemma DivisionChainEnd(input: string, s2: State, s3: State)
    requires |input| == 5 && input[3] == '/' && input[4] == '2'
    requires s2 == State([Real(8.0), Real(2.0)], [Entry('/', 3), Entry('/', 3)], 2, 0, true)
    requires s3 == State([Real(8.0)], [], 2, 0, false)
    ensures Scan(s2, input, 4) == Next(s2) && Finish(s2, input) == Next(s3)
  {
    assert input[4..] == "2";
    LastNumber(s2, input, 4, 2.0);
    DivisionChainReduce(s2.(numbers := s2.numbers + [Real(2.0)], inRow := false), s3);
  }

  /** 2/2 is reduced first, then 8/1. */
  lemma DivisionChainReduce(s: State, s3: State)
    requires s == State([Real(8.0), Real(2.0), Real(2.0)], [Entry('/', 3), Entry('/', 3)], 2, 0, false)
    requires s3 == State([Real(8.0)], [], 2, 0, false)
    ensures ResolveAll(s) == Next(s3)
  {
    var quotient := s.(numbers := [Real(8.0), Real(1.0)], ops := [Entry('/', 3)]);
    assert Reduce(s) == Next(quotient);
    assert Reduce(quotient) == Next(s3);
    assert ResolveAll(s3) == Next(s3);
  }

  /** "8/2/2" evaluates to 8/(2/2) = 8, not to 2: '*', '/' and '%' are pushed
      without reducing anything, so a chain of them is also reduced from the
      right at the end. */
  lemma DivisionChain(input: string)
    requires input == "8/2/2"
    ensures Evaluate(false, input) == Success(Real(8.0))
  {
    var s1 := State([Real(8.0)], [Entry('/', 3)], 1, 0, true);
    var s2 := State([Real(8.0), Real(2.0)], [Entry('/', 3), Entry('/', 3)], 2, 0, true);
    DivisionChainFirstTerm(input, Initial(false), s1);
    DivisionChainSecondTerm(input, s1, s2);
    DivisionChainEnd(input, s2, State([Real(8.0)], [], 2, 0, false));
  }

  // ---------------------------------------------------------------------
  // "(1*2+3": a '(' is discarded by the '+' that stops on it

  lemma DiscardedOpenStart(input: string, s0: State, s1: State)
    requires |input| == 6 && input[0] == '(' && input[1] == '1'
    requires s0 == Initial(false)
    requires s1 == State([], [Entry('(', 0)], 0, 1, false)
    ensures Scan(s0, input, 0) == Scan(s1, input, 1)
  {
    ScanStep(s0, input, 0, s1);
  }

  lemma DiscardedOpenFirstTerm(input: string, s1: State, s2: State)
    requires |input| == 6 && input[0] == '(' && input[1] == '1' && input[2] == '*' && input[3] == '2'
    requires s1 == State([], [Entry('(', 0)], 0, 1, false)
    requires s2 == State([Real(1.0)], [Entry('(', 0), Entry('*', 3)], 1, 1, true)
    ensures Scan(s1, input, 1) == Scan(s2, input, 3)
  {
    assert input[1..2] == "1";
    Term(s1, input, 1, 2, 1.0, s2);
  }

  lemma DiscardedOpenSecondTerm(input: string, s2: State, s3: State)
    requires |input| == 6 && input[2] == '*' && input[3] == '2' && input[4] == '+' && input[5] == '3'
    requires s2 == State([Real(1.0)], [Entry('(', 0), Entry('*', 3)], 1, 1, true)
    requires s3 == State([Real(2.0)], [Entry('+', 2)], 2, 1, true)
    ensures Scan(s2, input, 3) == Next(s3)
  {
    ScanStep(s2, input, 3, s2);
    DiscardedOpenTurn(input, s2, s3);
    ScanStep(s2, input, 4, s3);
    ScanSkipsNumber(s3, input, 5, 6);
  }

  /** The turn of the loop at the '+': 2 is pushed, then the '+'. */
  lemma DiscardedOpenTurn(input: string, s2: State, s3: State)
    requires |input| == 6 && input[2] == '*' && input[3] == '2' && input[4] == '+'
    requires s2 == State([Real(1.0)], [Entry('(', 0), Entry('*', 3)], 1, 1, true)
    requires s3 == State([Real(2.0)], [Entry('+', 2)], 2, 1, true)
    ensures ScanAt(s2, input, 4) == Next(s3)
  {
    assert input[3..4] == "2";
    NumberStartAt(input, 3, 4);
    var pushed := s2.(numbers := s2.numbers + [Real(2.0)], inRow := false);
    assert PushNumber(s2, input[3..4]) == Next(pushed);
    DiscardedOpenPlus(pushed, s3);
  }

  /** The '+' reduces 1*2, stops on the '(' and discards it. */
  lemma DiscardedOpenPlus(s: State, s3: State)
    requires s == State([Real(1.0), Real(2.0)], [Entry('(', 0), Entry('*', 3)], 1, 1, false)
    requires s3 == State([Real(2.0)], [Entry('+', 2)], 2, 1, true)
    ensures PushOperator(s, '+') == Next(s3)
  {
    var s1 := s.(inRow := true);
    var product := s1.(numbers := [Real(2.0)], ops := [Entry('(', 0)]);
    assert Reduce(s1) == Next(product);
    assert ResolveUntil(s1, 2) == Next(product.(ops := []));
  }

  lemma DiscardedOpenEnd(input: string, s3: State, s4: State)
    requires |input| == 6 && input[4] == '+' && input[5] == '3'
    requires s3 == State([Real(2.0)], [Entry('+', 2)], 2, 1, true)
    requires s4 == State([Real(5.0)], [], 2, 1, false)
    ensures Scan(s3, input, 5) == Next(s3) && Finish(s3, input) == Next(s4)
  {
    assert input[5..] == "3";
    LastNumber(s3, input, 5, 3.0);
    var s := s3.(numbers := s3.numbers + [Real(3.0)], inRow := false);
    assert Reduce(s) == Next(s4);
    assert ResolveAll(s4) == Next(s4);
  }

  /** "(1*2+3" evaluates to 5 although its '(' is never closed: the '+'
      reduces 1*2, stops on the '(' and pops it, and the count of open
      parentheses is never looked at after the scan. */
  lemma UnclosedParenthesisAccepted(input: string)
    requires input == "(1*2+3"
    ensures Evaluate(false, input) == Success(Real(5.0))
  {
    var s1 := State([], [Entry('(', 0)], 0, 1, false);
    var s2 := State([Real(1.0)], [Entry('(', 0), Entry('*', 3)], 1, 1, true);
    var s3 := State([Real(2.0)], [Entry('+', 2)], 2, 1, true);
    DiscardedOpenStart(input, Initial(false), s1);
    DiscardedOpenFirstTerm(input, s1, s2);
    DiscardedOpenSecondTerm(input, s2, s3);
    DiscardedOpenEnd(input, s3, State([Real(5.0)], [], 2, 1, false));
  }

  // ---------------------------------------------------------------------
  // "(1+2": a '(' that is still on the stack at the end

  lemma OpenGroupStart(input: string, s0: State, s1: State)
    requires |input| == 4 && input[0] == '(' && input[1] == '1'
    requires s0 == Initial(false)
    requires s1 == State([], [Entry('(', 0)], 0, 1, false)
    ensures Scan(s0, input, 0) == Scan(s1, input, 1)
  {
    ScanStep(s0, input, 0, s1);
  }

  lemma OpenGroupTerm(input: string, s1: State, s2: State)
    requires |input| == 4 && input[0] == '(' && input[1] == '1' && input[2] == '+' && input[3] == '2'
    requires s1 == State([], [Entry('(', 0)], 0, 1, false)
    requires s2 == State([Real(1.0)], [Entry('(', 0), Entry('+', 2)], 1, 1, true)
    ensures Scan(s1, input, 1) == Scan(s2, input, 3)
  {
    assert input[1..2] == "1";
    Term(s1, input, 1, 2, 1.0, s2);
  }

  lemma OpenGroupEnd(input: string, s2: State)
    requires |input| == 4 && input[2] == '+' && input[3] == '2'
    requires s2 == State([Real(1.0)], [Entry('(', 0), Entry('+', 2)], 1, 1, true)
    ensures Scan(s2, input, 3) == Next(s2)
    ensures Finish(s2, input) == Thrown(State([], [Entry('(', 0)], 1, 1, false), StackUnderflow)
  {
    assert input[3..] == "2";
    LastNumber(s2, input, 3, 2.0);
    OpenGroupReduce(s2.(numbers := s2.numbers + [Real(2.0)], inRow := false));
  }

  lemma OpenGroupReduce(s: State)
    requires s == State([Real(1.0), Real(2.0)], [Entry('(', 0), Entry('+', 2)], 1, 1, false)
    ensures ResolveAll(s) == Thrown(State([], [Entry('(', 0)], 1, 1, false), StackUnderflow)
  {
    var sum := s.(numbers := [Real(3.0)], ops := [Entry('(', 0)]);
    assert Reduce(s) == Next(sum);
    assert ResolveAll(sum) == Reduce(sum);
  }

  /** "(1+2" fails: after 1+2 is reduced the '(' is reduced too, with one
      number left on the stack, so the second operand is missing. */
  lemma UnclosedParenthesisFails(input: string)
    requires input == "(1+2"
    ensures Evaluate(false, input) == Failure(StackUnderflow)
  {
    var s1 := State([], [Entry('(', 0)], 0, 1, false);
    var s2 := State([Real(1.0)], [Entry('(', 0), Entry('+', 2)], 1, 1, true);
    OpenGroupStart(input, Initial(false), s1);
    OpenGroupTerm(input, s1, s2);
    OpenGroupEnd(input, s2);
  }

  // ---------------------------------------------------------------------
  // The consecutive-operator flag is not reset between calls

  lemma LeadingOperatorStart(input: string, s0: State, s1: State, s2: State)
    requires |input| == 5 && input[0] == '*' && input[1] == '(' && input[2] == '1'
    requires s0 == Initial(false)
    requires s1 == State([], [Entry('*', 3)], 1, 0, true)
    requires s2 == State([], [Entry('*', 3), Entry('(', 0)], 1, 1, true)
    ensures Scan(s0, input, 0) == Scan(s2, input, 2)
  {
    ScanStep(s0, input, 0, s1);
    OperatorAfterOperator(s1, input, 1, s2);
  }

  lemma LeadingOperatorGroup(input: string, s2: State, s3: State)
    requires |input| == 5 && input[1] == '(' && input[2] == '1' && input[3] == ')' && input[4] == '2'
    requires s2 == State([], [Entry('*', 3), Entry('(', 0)], 1, 1, true)
    requires s3 == State([Real(1.0)], [Entry('*', 3)], 2, 0, false)
    ensures Scan(s2, input, 2) == Scan(s3, input, 4)
  {
    assert input[2..3] == "1";
    Term(s2, input, 2, 3, 1.0, s3);
  }

  lemma LeadingOperatorEnd(input: string, s3: State, s4: State)
    requires |input| == 5 && input[3] == ')' && input[4] == '2'
    requires s3 == State([Real(1.0)], [Entry('*', 3)], 2, 0, false)
    requires s4 == State([Real(2.0)], [], 2, 0, false)
    ensures Scan(s3, input, 4) == Next(s3) && Finish(s3, input) == Next(s4)
  {
    assert input[4..] == "2";
    LastNumber(s3, input, 4, 2.0);
    var s := s3.(numbers := s3.numbers + [Real(2.0)]);
    assert Reduce(s) == Next(s4);
    assert ResolveAll(s4) == Next(s4);
  }

  /** With the flag clear, "*(1)2" is accepted and evaluates to 1*2: the
      leading '*' takes the 1 inside the parentheses as its left operand. */
  lemma LeadingOperatorAccepted(input: string)
    requires input == "*(1)2"
    ensures Evaluate(false, input) == Success(Real(2.0))
  {
    var s2 := State([], [Entry('*', 3), Entry('(', 0)], 1, 1, true);
    var s3 := State([Real(1.0)], [Entry('*', 3)], 2, 0, false);
    LeadingOperatorStart(input, Initial(false), State([], [Entry('*', 3)], 1, 0, true), s2);
    LeadingOperatorGroup(input, s2, s3);
    LeadingOperatorEnd(input, s3, State([Real(2.0)], [], 2, 0, false));
  }

  /** With the flag left set by an earlier call, the same input is refused at
      its first character. */
  lemma LeadingOperatorRefused(input: string)
    requires input == "*(1)2"
    ensures Evaluate(true, input) == Failure(BadSyntax)
  {
    ScanUnfold(Initial(true), input, 0);
    ScanErrorEndsRun(true, input, Initial(true), BadSyntax);
  }

  // ---------------------------------------------------------------------
  // "(1)(2)*()": a call that succeeds and still leaves the flag set

  lemma GroupsOpen(input: string, s0: State, s1: State)
    requires |input| == 9 && input[0] == '('
    requires s0 == Initial(false)
    requires s1 == State([], [Entry('(', 0)], 0, 1, false)
    ensures Scan(s0, input, 0) == Scan(s1, input, 1)
  {
    ScanStep(s0, input, 0, s1);
  }

  lemma GroupsFirst(input: string, s1: State, s2: State)
    requires |input| == 9 && input[0] == '(' && input[1] == '1' && input[2] == ')'
    requires s1 == State([], [Entry('(', 0)], 0, 1, false)
    requires s2 == State([Real(1.0)], [], 1, 0, false)
    ensures Scan(s1, input, 1) == Scan(s2, input, 3)
  {
    assert input[1..2] == "1";
    Term(s1, input, 1, 2, 1.0, s2);
  }

  lemma GroupsReopen(input: string, s2: State, s3: State)
    requires |input| == 9 && input[2] == ')' && input[3] == '('
    requires s2 == State([Real(1.0)], [], 1, 0, false)
    requires s3 == State([Real(1.0)], [Entry('(', 0)], 1, 1, false)
    ensures Scan(s2, input, 3) == Scan(s3, input, 4)
  {
    OperatorAfterOperator(s2, input, 3, s3);
  }

  lemma GroupsSecond(input: string, s3: State, s4: State)
    requires |input| == 9 && input[3] == '(' && input[4] == '2' && input[5] == ')'
    requires s3 == State([Real(1.0)], [Entry('(', 0)], 1, 1, false)
    requires s4 == State([Real(1.0), Real(2.0)], [], 2, 0, false)
    ensures Scan(s3, input, 4) == Scan(s4, input, 6)
  {
    assert input[4..5] == "2";
    Term(s3, input, 4, 5, 2.0, s4);
  }

  lemma GroupsOperator(input: string, s4: State, s5: State, s6: State)
    requires |input| == 9 && input[5] == ')' && input[6] == '*' && input[7] == '('
    requires s4 == State([Real(1.0), Real(2.0)], [], 2, 0, false)
    requires s5 == State([Real(1.0), Real(2.0)], [Entry('*', 3)], 3, 0, true)
    requires s6 == State([Real(1.0), Real(2.0)], [Entry('*', 3), Entry('(', 0)], 3, 1, true)
    ensures Scan(s4, input, 6) == Scan(s6, input, 8)
  {
    OperatorAfterOperator(s4, input, 6, s5);
    OperatorAfterOperator(s5, input, 7, s6);
  }

  lemma GroupsEmpty(input: string, s6: State, s7: State)
    requires |input| == 9 && input[7] == '(' && input[8] == ')'
    requires s6 == State([Real(1.0), Real(2.0)], [Entry('*', 3), Entry('(', 0)], 3, 1, true)
    requires s7 == State([Real(1.0), Real(2.0)], [Entry('*', 3)], 4, 0, true)
    ensures Scan(s6, input, 8) == Next(s7)
  {
    OperatorAfterOperator(s6, input, 8, s7);
  }

  lemma GroupsEnd(input: string, s7: State, s8: State)
    requires |input| == 9 && input[8] == ')'
    requires s7 == State([Real(1.0), Real(2.0)], [Entry('*', 3)], 4, 0, true)
    requires s8 == State([Real(2.0)], [], 4, 0, true)
    ensures Finish(s7, input) == Next(s8)
  {
    assert Reduce(s7) == Next(s8);
  }

  lemma GroupsRun(input: string)
    requires |input| == 9 && input[0] == '(' && input[1] == '1' && input[2] == ')' && input[3] == '('
    requires input[4] == '2' && input[5] == ')' && input[6] == '*' && input[7] == '(' && input[8] == ')'
    ensures Run(false, input) == Next(State([Real(2.0)], [], 4, 0, true))
  {
    var s1 := State([], [Entry('(', 0)], 0, 1, false);
    var s2 := State([Real(1.0)], [], 1, 0, false);
    var s3 := State([Real(1.0)], [Entry('(', 0)], 1, 1, false);
    var s4 := State([Real(1.0), Real(2.0)], [], 2, 0, false);
    var s6 := State([Real(1.0), Real(2.0)], [Entry('*', 3), Entry('(', 0)], 3, 1, true);
    var s7 := State([Real(1.0), Real(2.0)], [Entry('*', 3)], 4, 0, true);
    GroupsOpen(input, Initial(false), s1);
    GroupsFirst(input, s1, s2);
    GroupsReopen(input, s2, s3);
    GroupsSecond(input, s3, s4);
    GroupsOperator(input, s4, State([Real(1.0), Real(2.0)], [Entry('*', 3)], 3, 0, true), s6);
    GroupsEmpty(input, s6, s7);
    RunFinish(false, input, s7);
    GroupsEnd(input, s7, State([Real(2.0)], [], 4, 0, true));
  }

  /** "(1)(2)*()" evaluates to 1*2 from a clear flag, yet the '*' after the
      second group sets the flag and no number follows it, so the call ends
      with the flag set: a later call refuses an input that starts with a
      binary operator, as after a failed call. */
  lemma SuccessLeavesFlagSet(input: string)
    requires input == "(1)(2)*()"
    ensures Evaluate(false, input) == Success(Real(2.0))
    ensures Run(false, input).Next? && Run(false, input).s.inRow
  {
    GroupsRun(input);
  }

  /** "1+" ends in MalformedNumber, since the text after the '+' is empty:
      std::stof throws std::invalid_argument, which no handler in Solve
      catches. */
  lemma DanglingOperator(input: string)
    requires input == "1+"
    ensures Run(false, input) == Thrown(State([Real(1.0)], [Entry('+', 2)], 1, 0, true), MalformedNumber)
  {
    var s1 := State([Real(1.0)], [Entry('+', 2)], 1, 0, true);
    assert input[0..1] == "1";
    Term(Initial(false), input, 0, 1, 1.0, s1);
    NumberStartAt(input, 2, 2);
    assert TrailingText(input, 2) == [];
  }

  /** One solver, two calls: a call whose error Solve catches after an
      operator makes the next call refuse an input that a fresh solver
      accepts. */
  method FlagLeaksBetweenCalls() returns (first: Result<Num, Error>, second: Result<Num, Error>, unaffected: Result<Num, Error>)
    ensures first == Failure(BadSyntax)
    ensures second == Failure(BadSyntax)
    ensures unaffected == Success(Real(2.0))
  {
    var refused, leading := "1+*2", "*(1)2";
    var solver := new MathSolver();
    ConsecutiveOperatorsExample(refused);
    first := solver.Solve(refused);
    LeadingOperatorRefused(leading);
    second := solver.Solve(leading);
    var other := new MathSolver();
    LeadingOperatorAccepted(leading);
    unaffected := other.Solve(leading);
  }

  // ---------------------------------------------------------------------
  // Single operations

  /** "5%3" evaluates to 2. */
  lemma ModuloExample(inRow: bool, input: string)
    requires input == "5%3"
    ensures Evaluate(inRow, input) == Success(Real(2.0))
  {
    assert Decimal(5) == "5" && Decimal(3) == "3";
    assert Decimal(5) + ['%'] + Decimal(3) == input;
    BinaryOperationEvaluates(inRow, 5, '%', 3);
    assert Trunc(5.0 / 3.0) == 1;
  }

  /** "5/0" fails with DivisionByZero. */
  lemma DivisionByZeroExample(inRow: bool, input: string)
    requires input == "5/0"
    ensures Evaluate(inRow, input) == Failure(DivisionByZero)
  {
    assert Decimal(5) == "5" && Decimal(0) == "0";
    assert Decimal(5) + ['/'] + Decimal(0) == input;
    BinaryOperationEvaluates(inRow, 5, '/', 0);
  }

  /** "5%0" is not refused: it evaluates to NaN. */
  lemma ModuloByZeroExample(inRow: bool, input: string)
    requires input == "5%0"
    ensures Evaluate(inRow, input) == Success(NaN)
  {
    assert Decimal(5) == "5" && Decimal(0) == "0";
    assert Decimal(5) + ['%'] + Decimal(0) == input;
    BinaryOperationEvaluates(inRow, 5, '%', 0);
  }

  // ---------------------------------------------------------------------
  // The length of the trailing number

  /** Twenty-three "1+" followed by ten '1's: the last number starts at 46
      and the last character '1' has code 49, so the source hands stof only
      the three characters from 46 to 48 and answers 23 + 111 = 134 rather
      than 23 + 1111111111. The length computed as written differs from the
      rest of the input exactly when numStartIndex <= input.back() <
      input.length(); a negative count wraps to the rest, and a count past
      the end is clamped. */
  lemma TrailingNumberTruncated(input: string)
    requires input == "1+1+1+1+1+1+1+1+1+1+1+1+1+1+1+1+1+1+1+1+1+1+1+" + "1111111111"
    ensures NumberStart(input, |input|) == 46
    ensures TrailingTextAsWritten(input, 46) == "111"
    ensures TrailingText(input, 46) == "1111111111"
  {
    var terms := "1+1+1+1+1+1+1+1+1+1+1+1+1+1+1+1+1+1+1+1+1+1+1+";
    assert input[45] == terms[45] == '+';
    assert input[46..] == "1111111111";
    TrailingCount(input);
  }

  lemma TrailingCount(input: string)
    requires |input| == 56 && input[45] == '+' && input[46..] == "1111111111"
    ensures NumberStart(input, |input|) == 46
    ensures TrailingTextAsWritten(input, 46) == "111"
    ensures TrailingText(input, 46) == "1111111111"
  {
    assert forall k :: 46 <= k < 56 ==> input[k] == input[46..][k - 46];
    NumberStartAt(input, 46, 56);
    assert input[55] == '1';
    assert input[46..49] == input[46..][..3];
  }
}
