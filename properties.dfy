/** Properties of whole evaluations: what Solve accepts and refuses, and how
    its answer relates to the input. */
module Properties {
  import opened Results
  import opened Numbers
  import opened Evaluation

  /** The index of the first operator at or after i, or |input| when there is none. */
  function FirstOperator(input: string, i: nat): (k: nat)
    requires i <= |input|
    ensures i <= k <= |input|
    ensures k < |input| ==> IsOperator(input[k])
    ensures forall j :: i <= j < k ==> !IsOperator(input[j])
    decreases |input| - i
  {
    if i == |input| || IsOperator(input[i]) then i else FirstOperator(input, i + 1)
  }

  /** A turn of the loop that raises nothing moves the scan on by one. */
  lemma ScanStep(s: State, input: string, i: nat, s1: State)
    requires i < |input| && WellFormed(s.ops) && ScanAt(s, input, i) == Next(s1)
    ensures Scan(s, input, i) == Scan(s1, input, i + 1)
  {
    ScanUnfold(s, input, i);
  }

  /** A turn of the loop at an operator that ends a number: the number v is
      pushed, then the operator. */
  lemma NumberThenOperator(s: State, input: string, i: nat, v: real, s1: State)
    requires 0 < i < |input| && WellFormed(s.ops) && IsOperator(input[i]) && !IsOperator(input[i - 1])
    requires ParseNumber(input[NumberStart(input, i)..i]) == Some(v)
    requires PushOperator(s.(numbers := s.numbers + [Real(v)], inRow := false), input[i]) == Next(s1)
    ensures Scan(s, input, i) == Scan(s1, input, i + 1)
  {
    ScanUnfold(s, input, i);
  }

  /** A turn of the loop at an operator that follows another operator. */
  lemma OperatorAfterOperator(s: State, input: string, i: nat, s1: State)
    requires 0 < i < |input| && WellFormed(s.ops) && IsOperator(input[i]) && IsOperator(input[i - 1])
    requires PushOperator(s, input[i]) == Next(s1)
    ensures Scan(s, input, i) == Scan(s1, input, i + 1)
  {
    ScanUnfold(s, input, i);
  }

  /** The turns of the loop over the number input[j..i] and the operator
      after it: the characters of the number change nothing, then the number
      and the operator are pushed. */
  lemma Term(s: State, input: string, j: nat, i: nat, v: real, s1: State)
    requires j < i < |input| && WellFormed(s.ops)
    requires j == 0 || IsOperator(input[j - 1])
    requires forall k :: j <= k < i ==> !IsOperator(input[k])
    requires IsOperator(input[i]) && ParseNumber(input[j..i]) == Some(v)
    requires PushOperator(s.(numbers := s.numbers + [Real(v)], inRow := false), input[i]) == Next(s1)
    ensures Scan(s, input, j) == Scan(s1, input, i + 1)
  {
    ScanSkipsNumber(s, input, j, i);
    NumberStartAt(input, j, i);
    NumberThenOperator(s, input, i, v, s1);
  }

  /** The last number of the input, input[j..], runs to the end: the scan
      passes over it, and Finish pushes it and reduces everything. */
  lemma LastNumber(s: State, input: string, j: nat, v: real)
    requires j < |input| && WellFormed(s.ops)
    requires j == 0 || IsOperator(input[j - 1])
    requires forall k :: j <= k < |input| ==> !IsOperator(input[k])
    requires ParseNumber(input[j..]) == Some(v)
    ensures Scan(s, input, j) == Next(s)
    ensures Finish(s, input) == ResolveAll(s.(numbers := s.numbers + [Real(v)], inRow := false))
  {
    ScanSkipsNumber(s, input, j, |input|);
    NumberStartAt(input, j, |input|);
  }

  /** A number starts right after the last operator before it. */
  lemma NumberStartAt(input: string, j: nat, i: nat)
    requires j <= i <= |input|
    requires j == 0 || IsOperator(input[j - 1])
    requires forall k :: j <= k < i ==> !IsOperator(input[k])
    ensures NumberStart(input, i) == j
  {
  }

  /** Characters that are not operators leave the state alone. */
  lemma {:induction false} ScanSkipsNumber(s: State, input: string, i: nat, j: nat)
    requires i <= j <= |input| && WellFormed(s.ops)
    requires forall k :: i <= k < j ==> !IsOperator(input[k])
    ensures Scan(s, input, i) == Scan(s, input, j)
    decreases j - i
  {
    if i < j {
      ScanStep(s, input, i, s);
      ScanSkipsNumber(s, input, i + 1, j);
    }
  }

  /** The text of a number that no operator precedes starts at index 0. */
  lemma NoOperatorBefore(input: string, k: nat)
    requires k <= |input| && forall j :: 0 <= j < k ==> !IsOperator(input[j])
    ensures NumberStart(input, k) == 0
  {
  }

  // ---------------------------------------------------------------------
  // Consecutive operators

  lemma {:induction false} BinaryPairStopsScan(s: State, input: string, j: nat, i: nat)
    requires j <= i && i + 1 < |input| && WellFormed(s.ops)
    requires IsBinary(input[i]) && IsBinary(input[i + 1])
    ensures Scan(s, input, j).Thrown?
    decreases i - j
  {
    ScanUnfold(s, input, j);
    match ScanAt(s, input, j)
    case Thrown(_, _) =>
    case Next(s1) =>
      if j < i {
        BinaryPairStopsScan(s1, input, j + 1, i);
      } else {
        assert s1.inRow;
        ScanUnfold(s1, input, i + 1);
      }
  }

  /** Two of * / % + - next to each other always make the evaluation fail. */
  lemma ConsecutiveOperatorsFail(inRow: bool, input: string, i: nat)
    requires i + 1 < |input| && IsBinary(input[i]) && IsBinary(input[i + 1])
    ensures Evaluate(inRow, input).Failure?
  {
    BinaryPairStopsScan(Initial(inRow), input, 0, i);
  }

  // ---------------------------------------------------------------------
  // Parenthesis counting

  lemma {:induction false} CloseStopsScan(s: State, input: string, j: nat, i: nat)
    requires j <= i < |input| && WellFormed(s.ops) && s.parens >= 0
    requires s.parens + Depth(input[j..i + 1]) < 0
    ensures Scan(s, input, j).Thrown?
    decreases i - j
  {
    ScanUnfold(s, input, j);
    assert input[j..i + 1][1..] == input[j + 1..i + 1];
    match ScanAt(s, input, j)
    case Thrown(_, _) =>
    case Next(s1) =>
      ScanAtCounts(s, input, j);
      if j < i {
        CloseStopsScan(s1, input, j + 1, i);
      }
  }

  /** As soon as a prefix of the input closes more parentheses than it
      opens, the evaluation fails. */
  lemma UnmatchedCloseFails(inRow: bool, input: string, i: nat)
    requires i < |input| && Depth(input[..i + 1]) < 0
    ensures Evaluate(inRow, input).Failure?
  {
    assert input[0..i + 1] == input[..i + 1];
    CloseStopsScan(Initial(inRow), input, 0, i);
  }

  // ---------------------------------------------------------------------
  // The operator limit

  /** An input with 256 or more operators other than '(' is refused: at
      most 255 counted operators are accepted. */
  lemma TooManyOperatorsFail(inRow: bool, input: string)
    requires CountedOperators(input) >= MaxOperatorsInInput
    ensures Evaluate(inRow, input).Failure?
  {
    assert input[0..] == input;
    assert OpenCount([]) == 0;
    if |input| > 0 && Scan(Initial(inRow), input, 0).Next? {
      ScanCounters(Initial(inRow), input, 0);
    }
  }

  // ---------------------------------------------------------------------
  // Numbers and single operations

  /** The decimal text of a number evaluates to that number. */
  lemma NumberEvaluates(inRow: bool, n: nat)
    ensures Evaluate(inRow, Decimal(n)) == Success(Real(n as real))
  {
    var input := Decimal(n);
    var s := Initial(inRow);
    ScanSkipsNumber(s, input, 0, |input|);
    NoOperatorBefore(input, |input|);
    assert TrailingText(input, 0) == input;
    ParseDecimal(n);
  }

  /** The layout of the text `a op b`. */
  lemma BinaryText(left: string, op: char, right: string)
    requires AllDigits(left) && AllDigits(right) && |left| > 0 && |right| > 0
    ensures var input := left + [op] + right; var k := |left|;
      input[k] == op && input[0..k] == left && input[k + 1..] == right &&
      input[|input| - 1] == right[|right| - 1] &&
      (forall j :: 0 <= j < k ==> !IsOperator(input[j])) &&
      (forall j :: k < j < |input| ==> !IsOperator(input[j]))
  {
    var input := left + [op] + right;
    var k := |left|;
    assert forall j :: 0 <= j < k ==> input[j] == left[j];
    assert forall j :: k < j < |input| ==> input[j] == right[j - k - 1];
  }

  /** Scanning `a op b` pushes a and the operator, and leaves b for the end. */
  lemma BinaryScan(inRow: bool, a: nat, op: char, b: nat)
    requires IsBinary(op)
    ensures var input := Decimal(a) + [op] + Decimal(b);
      Scan(Initial(inRow), input, 0) == Next(State([Real(a as real)], [Entry(op, Precedence(op))], 1, 0, true)) &&
      NumberStart(input, |input|) == |Decimal(a)| + 1
  {
    var left, right := Decimal(a), Decimal(b);
    var input := left + [op] + right;
    var k := |left|;
    BinaryText(left, op, right);
    var s0 := Initial(inRow);
    ScanSkipsNumber(s0, input, 0, k);
    var s2 := State([Real(a as real)], [Entry(op, Precedence(op))], 1, 0, true);
    NoOperatorBefore(input, k);
    FirstOperand(s0, input, k, a, op, s2);
    ScanStep(s0, input, k, s2);
    ScanSkipsNumber(s2, input, k + 1, |input|);
  }

  /** The turn of the loop at the operator of `a op b`. */
  lemma FirstOperand(s0: State, input: string, k: nat, a: nat, op: char, s2: State)
    requires IsBinary(op) && s0 == Initial(s0.inRow)
    requires k < |input| && input[k] == op && 0 < k && !IsOperator(input[k - 1])
    requires NumberStart(input, k) == 0 && input[0..k] == Decimal(a)
    requires s2 == State([Real(a as real)], [Entry(op, Precedence(op))], 1, 0, true)
    ensures ScanAt(s0, input, k) == Next(s2)
  {
    ParseDecimal(a);
    var s1 := State([Real(a as real)], [], 0, 0, false);
    assert PushNumber(s0, Decimal(a)) == Next(s1);
    assert PushOperator(s1, op) == Next(s2);
  }

  /** A single operation between two decimal numbers evaluates to `a op b`,
      however long the numbers are and whatever the flag left by an earlier
      call: the number before the operator clears it. */
  lemma BinaryOperationEvaluates(inRow: bool, a: nat, op: char, b: nat)
    requires IsBinary(op)
    ensures Evaluate(inRow, Decimal(a) + [op] + Decimal(b)) == Apply(op, Real(a as real), Real(b as real))
  {
    var left, right := Decimal(a), Decimal(b);
    var input := left + [op] + right;
    var k := |left|;
    BinaryScan(inRow, a, op, b);
    BinaryText(left, op, right);
    var s2 := State([Real(a as real)], [Entry(op, Precedence(op))], 1, 0, true);
    ParseDecimal(b);
    LastNumber(s2, input, k + 1, b as real);
    RunFinish(inRow, input, s2);
    ResolveOne(State([Real(a as real), Real(b as real)], [Entry(op, Precedence(op))], 1, 0, false));
  }

  /** With one operator on the stack, ResolveStack is one reduction. */
  lemma ResolveOne(s: State)
    requires WellFormed(s.ops) && |s.ops| == 1
    ensures ResolveAll(s) == Reduce(s)
  {
    if Reduce(s).Next? {
      assert Reduce(s).s.ops == [];
    }
  }

  // ---------------------------------------------------------------------
  // The consecutive-operator flag across calls

  /** The flag that Solve does not reset can only matter for an input that
      starts with an operator: a leading number clears it or ends the
      evaluation with MalformedNumber either way. */
  lemma LeadingNumberClearsFlag(input: string)
    requires |input| > 0 && !IsOperator(input[0])
    ensures Evaluate(true, input) == Evaluate(false, input)
  {
    var k := FirstOperator(input, 0);
    var t, f := Initial(true), Initial(false);
    ScanSkipsNumber(t, input, 0, k);
    ScanSkipsNumber(f, input, 0, k);
    if k < |input| {
      FlagClearedAtOperator(input, k);
      ScanUnfold(t, input, k);
      ScanUnfold(f, input, k);
    } else {
      FlagClearedAtEnd(input);
    }
  }

  /** The turn of the loop at the first operator, after a leading number,
      does not depend on the flag, unless that number is malformed. */
  lemma FlagClearedAtOperator(input: string, k: nat)
    requires 0 < k < |input| && IsOperator(input[k])
    requires forall j :: 0 <= j < k ==> !IsOperator(input[j])
    ensures ScanAt(Initial(true), input, k) == ScanAt(Initial(false), input, k) ||
      (ScanAt(Initial(true), input, k) == Thrown(Initial(true), MalformedNumber) &&
       ScanAt(Initial(false), input, k) == Thrown(Initial(false), MalformedNumber))
  {
    NoOperatorBefore(input, k);
    var text := input[0..k];
    if ParseNumber(text).Some? {
      var s1 := State([Real(ParseNumber(text).value)], [], 0, 0, false);
      assert PushNumber(Initial(true), text) == Next(s1) == PushNumber(Initial(false), text);
    }
  }

  /** An input without operators is one number, whatever the flag, unless
      it is malformed. */
  lemma FlagClearedAtEnd(input: string)
    requires |input| > 0 && forall j :: 0 <= j < |input| ==> !IsOperator(input[j])
    ensures Finish(Initial(true), input) == Finish(Initial(false), input) ||
      (Finish(Initial(true), input) == Thrown(Initial(true), MalformedNumber) &&
       Finish(Initial(false), input) == Thrown(Initial(false), MalformedNumber))
  {
    NoOperatorBefore(input, |input|);
    assert TrailingText(input, 0) == input;
    if ParseNumber(input).Some? {
      assert PushNumber(Initial(true), input) == PushNumber(Initial(false), input);
    }
  }
}
