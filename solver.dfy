/** The MathSolver class: an evaluator for strings of numbers, + - * / % and
    parentheses that scans the input once and reduces operators on its two
    stacks as soon as precedence allows (a variant of the Shunting-Yard
    algorithm). Each method is proved to leave exactly the state that the
    matching function of module Evaluation describes. */
module Solver {
  import opened Results
  import opened Numbers
  import opened Evaluation

  /** The state that leaves a method as its result: a normal return, or an
      error raised after the fields reached `s`. */
  function AsStep(s: State, error: Option<Error>): Step
  {
    match error
    case None => Next(s)
    case Some(e) => Thrown(s, e)
  }

  class MathSolver {
    var operatorsInInput: int
    // Tracks mismatching parentheses.
    var parenthesisOnStack: int
    // Tracks two operators in a row, such as "1+*2".
    var illegalOperationsInRow: bool
    var numberStack: seq<Num>
    // Operators with their precedences.
    var operationStack: seq<Entry>

    /** The fields as one value. */
    function Snapshot(): State
      reads this
    {
      State(numberStack, operationStack, operatorsInInput, parenthesisOnStack, illegalOperationsInRow)
    }

    constructor ()
      ensures Snapshot() == State([], [], 0, 0, false)
    {
      operatorsInInput := 0;
      parenthesisOnStack := 0;
      illegalOperationsInRow := false;
      numberStack := [];
      operationStack := [];
    }

    /** Pops the right operand, the left operand and the operator, and returns
        `left op right`; the caller pushes it. */
    method ResolveNextOperation() returns (r: Result<Num, Error>)
      requires WellFormed(operationStack) && |operationStack| > 0
      modifies this
      ensures r.Success? ==> Reduce(old(Snapshot())) == Next(Snapshot().(numbers := numberStack + [r.value]))
      ensures r.Failure? ==> Reduce(old(Snapshot())) == Thrown(Snapshot(), r.error)
    {
      if |numberStack| == 0 {
        return Failure(StackUnderflow);
      }
      var stackTop := numberStack[|numberStack| - 1];
      numberStack := numberStack[..|numberStack| - 1];

      if |numberStack| == 0 {
        return Failure(StackUnderflow);
      }
      var stackSecond := numberStack[|numberStack| - 1];
      numberStack := numberStack[..|numberStack| - 1];

      var operation := operationStack[|operationStack| - 1].op;
      operationStack := operationStack[..|operationStack| - 1];

      r := Apply(operation, stackSecond, stackTop);
    }

    /** Reduces until the operator stack is empty. */
    method ResolveStack() returns (error: Option<Error>)
      requires WellFormed(operationStack)
      modifies this
      ensures AsStep(Snapshot(), error) == ResolveAll(old(Snapshot()))
    {
      while |operationStack| > 0
        invariant WellFormed(operationStack)
        invariant ResolveAll(Snapshot()) == ResolveAll(old(Snapshot()))
        decreases |operationStack|
      {
        var r := ResolveNextOperation();
        if r.Failure? {
          return Some(r.error);
        }
        numberStack := numberStack + [r.value];
      }
      return None;
    }

    /** Reduces while the top operator's precedence exceeds `precedence`, and
        discards a '(' that the reduction stops on. */
    method ResolveStackUntil(precedence: int) returns (error: Option<Error>)
      requires WellFormed(operationStack)
      modifies this
      ensures AsStep(Snapshot(), error) == ResolveUntil(old(Snapshot()), precedence)
    {
      if |operationStack| == 0 {
        return Some(StackUnderflow);
      }
      while operationStack[|operationStack| - 1].precedence > precedence
        invariant WellFormed(operationStack) && |operationStack| > 0
        invariant ResolveUntil(Snapshot(), precedence) == ResolveUntil(old(Snapshot()), precedence)
        decreases |operationStack|
      {
        var r := ResolveNextOperation();
        if r.Failure? {
          return Some(r.error);
        }
        numberStack := numberStack + [r.value];
        if |operationStack| == 0 {
          return None;
        }
      }
      // precedence 0 means '(', which is always popped
      if operationStack[|operationStack| - 1].precedence == 0 {
        operationStack := operationStack[..|operationStack| - 1];
      }
      return None;
    }

    /** Pushes an operator with its precedence, reducing first where its kind
        asks for it, and counts it unless it is '('. */
    method PushToOperatorStack(operation: char) returns (error: Option<Error>)
      requires IsOperator(operation) && WellFormed(operationStack)
      modifies this
      ensures AsStep(Snapshot(), error) == PushOperator(old(Snapshot()), operation)
    {
      if operation == '*' || operation == '/' || operation == '%' {
        if illegalOperationsInRow {
          return Some(BadSyntax);
        }
        illegalOperationsInRow := true;
        // no reduction: these have the highest precedence
        operationStack := operationStack + [Entry(operation, 3)];
      } else if operation == '+' || operation == '-' {
        if illegalOperationsInRow {
          return Some(BadSyntax);
        }
        illegalOperationsInRow := true;
        if |operationStack| > 0 && operationStack[|operationStack| - 1].precedence > 2 {
          error := ResolveStackUntil(2);
          if error.Some? {
            return;
          }
        }
        operationStack := operationStack + [Entry(operation, 2)];
      } else if operation == '(' {
        operationStack := operationStack + [Entry(operation, 0)];
        parenthesisOnStack := parenthesisOnStack + 1;
        // only ')' is counted as an operator of the pair
        return None;
      } else {
        parenthesisOnStack := parenthesisOnStack - 1;
        if parenthesisOnStack < 0 {
          return Some(UnmatchedClose);
        }
        error := ResolveStackUntil(0);
        if error.Some? {
          return;
        }
      }
      operatorsInInput := operatorsInInput + 1;
      if operatorsInInput >= MaxOperatorsInInput {
        return Some(TooManyOperators);
      }
      return None;
    }

    /** Pushes the number std::stof reads from numStr and clears the
        consecutive-operator flag. */
    method PushToNumberStack(numStr: string) returns (error: Option<Error>)
      modifies this
      ensures AsStep(Snapshot(), error) == PushNumber(old(Snapshot()), numStr)
    {
      var parsed := ParseNumber(numStr);
      if parsed.None? {
        return Some(MalformedNumber);
      }
      numberStack := numberStack + [Real(parsed.value)];
      illegalOperationsInRow := false;
      return None;
    }

    /** Empties both stacks, one element at a time. */
    method PopStacks()
      modifies this
      ensures numberStack == [] && operationStack == []
      ensures operatorsInInput == old(operatorsInInput) && parenthesisOnStack == old(parenthesisOnStack)
      ensures illegalOperationsInRow == old(illegalOperationsInRow)
    {
      while |operationStack| > 0
        invariant operatorsInInput == old(operatorsInInput) && parenthesisOnStack == old(parenthesisOnStack)
        invariant illegalOperationsInRow == old(illegalOperationsInRow)
        decreases |operationStack|
      {
        operationStack := operationStack[..|operationStack| - 1];
      }
      while |numberStack| > 0
        invariant operationStack == []
        invariant operatorsInInput == old(operatorsInInput) && parenthesisOnStack == old(parenthesisOnStack)
        invariant illegalOperationsInRow == old(illegalOperationsInRow)
        decreases |numberStack|
      {
        numberStack := numberStack[..|numberStack| - 1];
      }
    }

    /** Evaluates input. The answer depends on nothing but the input and the
        consecutive-operator flag left by the previous call. */
    method Solve(input: string) returns (answer: Result<Num, Error>)
      modifies this
      ensures answer == Evaluate(old(illegalOperationsInRow), input)
      ensures Snapshot() == Run(old(illegalOperationsInRow), input).s
    {
      var numStartIndex := 0;
      var operatorsInRow := false;

      // Ensure that the stacks are empty before doing anything else.
      PopStacks();
      // Reset to track the operator limit correctly.
      operatorsInInput := 0;
      parenthesisOnStack := 0;
      ghost var start := Snapshot();
      assert start == Initial(old(illegalOperationsInRow));

      for i := 0 to |input|
        invariant WellFormed(operationStack)
        invariant numStartIndex == NumberStart(input, i)
        invariant operatorsInRow == (i > 0 && IsOperator(input[i - 1]))
        invariant Scan(Snapshot(), input, i) == Scan(start, input, 0)
      {
        ghost var before := Snapshot();
        if IsOperator(input[i]) {
          // The first character, or one right after an operator, ends no number.
          if i != 0 && !operatorsInRow {
            var error := PushToNumberStack(input[numStartIndex..i]);
            if error.Some? {
              ScanNumberThrows(before, input, i);
              ScanErrorEndsRun(old(illegalOperationsInRow), input, Snapshot(), error.value);
              answer := Failure(error.value);
              return;
            }
          }
          ScanOperatorStep(before, input, i, Snapshot());
          var error := PushToOperatorStack(input[i]);
          if error.Some? {
            ScanErrorEndsRun(old(illegalOperationsInRow), input, Snapshot(), error.value);
            answer := Failure(error.value);
            return;
          }
          numStartIndex := i + 1;
          operatorsInRow := true;
        } else {
          ScanSkip(before, input, i);
          operatorsInRow := false;
        }
      }

      ghost var scanned := Snapshot();
      assert Scan(start, input, 0) == Next(scanned);
      if |input| == 0 {
        return Failure(EmptyInput);
      }
      assert Run(old(illegalOperationsInRow), input) == Finish(scanned, input);
      // The number at the end of the input; after a ')' there is none.
      if input[|input| - 1] != ')' {
        var error := PushToNumberStack(TrailingText(input, numStartIndex));
        if error.Some? {
          assert Finish(scanned, input) == Thrown(Snapshot(), error.value);
          return Failure(error.value);
        }
      }
      assert Finish(scanned, input) == ResolveAll(Snapshot());

      var error := ResolveStack();
      if error.Some? {
        return Failure(error.value);
      }

      // The last number left on the stack is the answer.
      if |numberStack| == 0 {
        return Failure(StackUnderflow);
      }
      answer := Success(numberStack[|numberStack| - 1]);
    }
  }
}
