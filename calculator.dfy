/**
 The input/evaluation state machine of the single-screen calculator, as
 values: the keys of the keypad, the state the view controller keeps, and
 one function per handler describing the state after that handler runs.
 The class in module Controller is proved to follow these functions, and
 the lemmas below state what the handlers promise.

 Floating-point arithmetic is not modelled: `Num` stands for the platform's
 double, and an `Arithmetic<Num>` supplies parsing, the four operations, the
 zero test of the division guard and the result formatting, all left
 uninterpreted.
 */
module Calculator {

  datatype Option<+T> = None | Some(value: T)

  /** The four operator buttons. */
  datatype Operator = Add | Sub | Mul | Div

  type DigitValue = d: int | 0 <= d <= 9

  /** One button of the keypad. */
  datatype Key = Digit(d: DigitValue) | Point | Op(op: Operator) | Equals | Clear
  {
    /** The keys whose title is handed to `appendNumber`. */
    predicate IsEntry() { Digit? || Point? }
  }

  /** A formatted result: never the empty string. */
  type Numeral = s: string | s != [] witness "0"

  /** The double-precision arithmetic the controller relies on, left abstract. */
  datatype Arithmetic<!Num> = Arithmetic(
    parse: string -> Option<Num>,           // Double(String), which may fail
    apply: (Operator, Num, Num) -> Num,     // + - * / on doubles
    isZero: Num -> bool,                    // the `current != 0` guard, negated
    format: Num -> Numeral                  // formatResult
  )

  /** The view controller's four fields and the text of its display label. */
  datatype State = State(
    currentNumber: string,
    previousNumber: string,
    currentOperation: Option<Operator>,
    isTyping: bool,
    display: string
  )

  // ---------------------------------------------------------------------------
  // Button titles

  const DigitChars: string := "0123456789"

  /** The title of the button for key `k`. */
  function Title(k: Key): string
  {
    match k
    case Digit(d) => [DigitChars[d]]
    case Point => "."
    case Op(Add) => "+"
    case Op(Sub) => "-"
    case Op(Mul) => "x"
    case Op(Div) => "/"
    case Equals => "="
    case Clear => "C"
  }

  /** The key whose button carries `title`, if any. */
  function KeyOf(title: string): Option<Key>
  {
    if |title| != 1 then None
    else
      var c := title[0];
      if '0' <= c <= '9' then Some(Digit((c - '0') as int))
      else if c == '.' then Some(Point)
      else if c == '+' then Some(Op(Add))
      else if c == '-' then Some(Op(Sub))
      else if c == 'x' then Some(Op(Mul))
      else if c == '/' then Some(Op(Div))
      else if c == '=' then Some(Equals)
      else if c == 'C' then Some(Clear)
      else None
  }

  /** The grid of buttons below the display, row by row. */
  const ButtonTitles: seq<seq<string>> := [
    ["7", "8", "9", "/"],
    ["4", "5", "6", "x"],
    ["1", "2", "3", "-"],
    ["0", ".", "=", "+"]
  ]

  /** The title of the clear button in the last row. */
  const ClearTitle: string := "C"

  predicate OnKeypad(title: string)
  {
    title == ClearTitle ||
    exists row, col :: 0 <= row < |ButtonTitles| && 0 <= col < |ButtonTitles[row]| && ButtonTitles[row][col] == title
  }

  /** The titles `buttonTapped` does not dispatch to another handler by name. */
  predicate IsNamedTitle(title: string)
  {
    title in ["C", "=", "+", "-", "x", "/"]
  }

  // ---------------------------------------------------------------------------
  // The handlers, as functions of the state

  /** The state the controller starts in and `clear` returns to. */
  const Initial: State := State("0", "", None, false, "0")

  /** `clear`: every field back to its default, and the display rewritten. */
  function AfterClear(s: State): State
  {
    State("0", "", None, false, "0")
  }

  /** `appendNumber` with the title of a digit or decimal-point key. */
  function AfterAppend(s: State, k: Key): State
    requires k.IsEntry()
  {
    var t := Title(k);
    if t == "." && '.' in s.currentNumber then s
    else if !s.isTyping || s.currentNumber == "0" then
      s.(currentNumber := t, isTyping := true, display := t)
    else
      s.(currentNumber := s.currentNumber + t, display := s.currentNumber + t)
  }

  /** `calculateResult`: fold the pending operation into the entry. */
  function Evaluate<Num>(a: Arithmetic<Num>, s: State): State
  {
    match s.currentOperation
    case None => s
    case Some(op) =>
      match a.parse(s.previousNumber)
      case None => s
      case Some(previous) =>
        match a.parse(s.currentNumber)
        case None => s
        case Some(current) =>
          if op == Div && a.isZero(current) then
            // "Error" is written to the display and at once overwritten by
            // clear, so only the cleared state remains
            AfterClear(s)
          else
            var text := a.format(a.apply(op, previous, current));
            State(text, "", None, false, text)
  }

  /** `selectOperation`: fold first if typing, then remember entry and operator. */
  function AfterSelect<Num>(a: Arithmetic<Num>, s: State, op: Operator): State
  {
    var folded := if s.isTyping then Evaluate(a, s) else s;
    folded.(previousNumber := folded.currentNumber, currentOperation := Some(op), isTyping := false)
  }

  /** `buttonTapped`: dispatch one key press. */
  function Press<Num>(a: Arithmetic<Num>, s: State, k: Key): State
  {
    match k
    case Clear => AfterClear(s)
    case Equals => Evaluate(a, s)
    case Op(op) => AfterSelect(a, s, op)
    case _ => AfterAppend(s, k)
  }

  /** A sequence of key presses, one after the other. */
  function Run<Num>(a: Arithmetic<Num>, s: State, keys: seq<Key>): State
    decreases |keys|
  {
    if keys == [] then s else Run(a, Press(a, s, keys[0]), keys[1..])
  }

  // ---------------------------------------------------------------------------
  // Invariants

  /** An entry being typed: digits and at most one point, no leading zero but "0". */
  predicate WellFormedEntry(e: string)
  {
    && e != []
    && (forall i :: 0 <= i < |e| ==> e[i] in DigitChars || e[i] == '.')
    && (forall i, j :: 0 <= i < j < |e| && e[i] == '.' ==> e[j] != '.')
    && (e[0] == '0' ==> e == "0")
  }

  /** What holds of the controller between any two button presses. */
  predicate Inv(s: State)
  {
    && s.currentNumber != []
    && (s.currentOperation.None? <==> s.previousNumber == "")
    && (s.isTyping ==> WellFormedEntry(s.currentNumber))
    && s.display == s.currentNumber
  }

  // ---------------------------------------------------------------------------
  // Keypad

  /** Every key's title decodes back to that key. */
  lemma TitleRoundTrip(k: Key)
    ensures KeyOf(Title(k)) == Some(k)
  {
  }

  /** A title that decodes to a key is that key's title. */
  lemma KeyOfIsTitle(title: string)
    requires KeyOf(title).Some?
    ensures Title(KeyOf(title).value) == title
  {
  }

  /**
   Every button on the keypad carries the title of a key, and `buttonTapped`
   hands exactly the digit and decimal-point titles to `appendNumber`.
   */
  lemma KeypadTitles(title: string)
    requires OnKeypad(title)
    ensures KeyOf(title).Some?
    ensures Title(KeyOf(title).value) == title
    ensures !IsNamedTitle(title) <==> KeyOf(title).value.IsEntry()
  {
  }

  /** Conversely, every key has a button. */
  lemma EveryKeyOnKeypad(k: Key)
    ensures OnKeypad(Title(k))
  {
    match k {
      case Digit(d) =>
        var pos :=
          if d == 0 then (3, 0) else if d <= 3 then (2, d - 1)
          else if d <= 6 then (1, d - 4) else (0, d - 7);
        assert ButtonTitles[pos.0][pos.1] == Title(k);
      case Point => assert ButtonTitles[3][1] == Title(k);
      case Op(Add) => assert ButtonTitles[3][3] == Title(k);
      case Op(Sub) => assert ButtonTitles[2][3] == Title(k);
      case Op(Mul) => assert ButtonTitles[1][3] == Title(k);
      case Op(Div) => assert ButtonTitles[0][3] == Title(k);
      case Equals => assert ButtonTitles[3][2] == Title(k);
      case Clear =>
    }
  }

  // ---------------------------------------------------------------------------
  // appendNumber

  /** A decimal point when the entry already holds one changes nothing at all. */
  lemma PointWithPointIsNoOp(s: State)
    requires '.' in s.currentNumber
    ensures AfterAppend(s, Point) == s
  {
  }

  /**
   Any other digit or point replaces the entry when not typing or when the
   entry is "0", and is appended otherwise; typing is then on and the
   display shows the entry. The pending operand and operator are untouched.
   */
  lemma AppendEffect(s: State, k: Key)
    requires k.IsEntry()
    requires !(k.Point? && '.' in s.currentNumber)
    ensures var r := AfterAppend(s, k);
      && r.currentNumber == (if !s.isTyping || s.currentNumber == "0" then Title(k) else s.currentNumber + Title(k))
      && r.isTyping
      && r.display == r.currentNumber
      && r.previousNumber == s.previousNumber
      && r.currentOperation == s.currentOperation
  {
  }

  /** Typing "." on the entry "0" gives ".", not "0.". */
  lemma PointReplacesZero(s: State)
    requires s.currentNumber == "0"
    ensures AfterAppend(s, Point).currentNumber == "."
  {
  }

  /** Pressing the decimal point twice is the same as pressing it once. */
  lemma PointIdempotent<Num>(a: Arithmetic<Num>, s: State)
    ensures Press(a, Press(a, s, Point), Point) == Press(a, s, Point)
  {
  }

  /** Appending a digit or point keeps an entry well formed. */
  lemma AppendKeepsEntry(e: string, k: Key)
    requires WellFormedEntry(e) && e != "0"
    requires k.IsEntry()
    requires !(k.Point? && '.' in e)
    ensures WellFormedEntry(e + Title(k))
  {
  }

  /** A single key's title is a well-formed entry. */
  lemma TitleIsEntry(k: Key)
    requires k.IsEntry()
    ensures WellFormedEntry(Title(k))
  {
  }

  lemma AppendPreservesInv(s: State, k: Key)
    requires Inv(s)
    requires k.IsEntry()
    ensures Inv(AfterAppend(s, k))
  {
  }

  // ---------------------------------------------------------------------------
  // calculateResult

  /** With no pending operator, or an operand that does not parse, nothing changes. */
  lemma EvaluateNoOp<Num>(a: Arithmetic<Num>, s: State)
    requires s.currentOperation.None? || a.parse(s.previousNumber).None? || a.parse(s.currentNumber).None?
    ensures Evaluate(a, s) == s
  {
  }

  /**
   A successful evaluation puts the formatted result in the entry and on the
   display, drops the pending operand and operator and stops typing.
   */
  lemma EvaluateSuccess<Num>(a: Arithmetic<Num>, s: State, op: Operator, previous: Num, current: Num)
    requires s.currentOperation == Some(op)
    requires a.parse(s.previousNumber) == Some(previous) && a.parse(s.currentNumber) == Some(current)
    requires !(op == Div && a.isZero(current))
    ensures var r := Evaluate(a, s);
      && r.currentNumber == a.format(a.apply(op, previous, current))
      && r.previousNumber == ""
      && r.currentOperation.None?
      && !r.isTyping
      && r.display == r.currentNumber
  {
  }

  /** Division by a zero entry ends in exactly the cleared state, showing "0". */
  lemma EvaluateDivisionByZero<Num>(a: Arithmetic<Num>, s: State, current: Num)
    requires s.currentOperation == Some(Div)
    requires a.parse(s.previousNumber).Some? && a.parse(s.currentNumber) == Some(current)
    requires a.isZero(current)
    ensures Evaluate(a, s) == Initial
    ensures Evaluate(a, s).display == "0"
  {
  }

  lemma EvaluatePreservesInv<Num>(a: Arithmetic<Num>, s: State)
    requires Inv(s)
    ensures Inv(Evaluate(a, s))
  {
  }

  // ---------------------------------------------------------------------------
  // selectOperation

  /**
   An operator folds the pending operation only while typing, then stores the
   entry as the pending operand, records the operator and stops typing,
   leaving the entry and the display as the fold left them.
   */
  lemma SelectEffect<Num>(a: Arithmetic<Num>, s: State, op: Operator)
    ensures var folded := if s.isTyping then Evaluate(a, s) else s;
      var r := AfterSelect(a, s, op);
      && r.currentNumber == folded.currentNumber
      && r.previousNumber == folded.currentNumber
      && r.currentOperation == Some(op)
      && !r.isTyping
      && r.display == folded.display
    ensures !s.isTyping ==> AfterSelect(a, s, op).display == s.display
  {
  }

  /** Two operators in a row: the second one just replaces the first. */
  lemma OperatorTwice<Num>(a: Arithmetic<Num>, s: State, first: Operator, second: Operator)
    ensures Press(a, Press(a, s, Op(first)), Op(second)) == Press(a, s, Op(second))
  {
  }

  /** "=" right after an operator uses the entry as both operands. */
  lemma EqualsAfterOperator<Num>(a: Arithmetic<Num>, s: State, op: Operator, x: Num)
    requires a.parse(Press(a, s, Op(op)).currentNumber) == Some(x)
    requires !(op == Div && a.isZero(x))
    ensures Press(a, Press(a, s, Op(op)), Equals).currentNumber == a.format(a.apply(op, x, x))
  {
  }

  lemma SelectPreservesInv<Num>(a: Arithmetic<Num>, s: State, op: Operator)
    requires Inv(s)
    ensures Inv(AfterSelect(a, s, op))
  {
  }

  // ---------------------------------------------------------------------------
  // clear

  /** `clear` yields the initial state from any state, and twice is once. */
  lemma ClearResets<Num>(a: Arithmetic<Num>, s: State)
    ensures Press(a, s, Clear) == Initial
    ensures Press(a, s, Clear).display == "0"
    ensures Press(a, Press(a, s, Clear), Clear) == Press(a, s, Clear)
    ensures Inv(Press(a, s, Clear))
  {
  }

  // ---------------------------------------------------------------------------
  // The whole machine

  /** Every button press keeps the invariant. */
  lemma PressPreservesInv<Num>(a: Arithmetic<Num>, s: State, k: Key)
    requires Inv(s)
    ensures Inv(Press(a, s, k))
  {
  }

  /** Every sequence of presses from a state satisfying the invariant keeps it. */
  lemma {:induction false} RunPreservesInv<Num>(a: Arithmetic<Num>, s: State, keys: seq<Key>)
    requires Inv(s)
    ensures Inv(Run(a, s, keys))
    decreases |keys|
  {
    if keys != [] {
      PressPreservesInv(a, s, keys[0]);
      RunPreservesInv(a, Press(a, s, keys[0]), keys[1..]);
    }
  }

  /** The display never shows anything but the entry between presses. */
  lemma {:induction false} DisplayShowsEntry<Num>(a: Arithmetic<Num>, keys: seq<Key>)
    ensures Run(a, Initial, keys).display == Run(a, Initial, keys).currentNumber
    ensures Run(a, Initial, keys).currentNumber != []
  {
    RunPreservesInv(a, Initial, keys);
  }

  // ---------------------------------------------------------------------------
  // Sample sessions

  /** A digit, an operator, a digit and "=" show the formatted result. */
  lemma DigitOpDigitEquals<Num>(a: Arithmetic<Num>, d1: DigitValue, op: Operator, d2: DigitValue, x: Num, y: Num)
    requires a.parse(Title(Digit(d1))) == Some(x) && a.parse(Title(Digit(d2))) == Some(y)
    requires !(op == Div && a.isZero(y))
    ensures Run(a, Initial, [Digit(d1), Op(op), Digit(d2), Equals]).display == a.format(a.apply(op, x, y))
  {
    var s1 := Press(a, Initial, Digit(d1));
    var s2 := Press(a, s1, Op(op));
    var s3 := Press(a, s2, Digit(d2));
    assert s3.previousNumber == Title(Digit(d1)) && s3.currentNumber == Title(Digit(d2));
    assert Run(a, s3, [Equals]).display == a.format(a.apply(op, x, y));
    assert Run(a, s2, [Digit(d2), Equals]) == Run(a, s3, [Equals]);
    assert Run(a, s1, [Op(op), Digit(d2), Equals]) == Run(a, s2, [Digit(d2), Equals]);
  }

  /** 9 / 0 = ends cleared, showing "0"; a following 5 shows "5". */
  lemma DivideByZeroSession<Num>(a: Arithmetic<Num>, z: Num)
    requires a.parse("9").Some? && a.parse("0") == Some(z) && a.isZero(z)
    ensures Run(a, Initial, [Digit(9), Op(Div), Digit(0), Equals]) == Initial
    ensures Run(a, Initial, [Digit(9), Op(Div), Digit(0), Equals, Digit(5)]).display == "5"
  {
  }

  /** 5 + 3 + 2 =: the second "+" folds 5 + 3, and "=" adds 2 to that result. */
  lemma ChainedSession<Num>(a: Arithmetic<Num>, x: Num, y: Num, z: Num, w: Num)
    requires a.parse("5") == Some(x) && a.parse("3") == Some(y) && a.parse("2") == Some(w)
    requires a.parse(a.format(a.apply(Add, x, y))) == Some(z)
    ensures Run(a, Initial, [Digit(5), Op(Add), Digit(3), Op(Add), Digit(2), Equals]).display
         == a.format(a.apply(Add, z, w))
  {
  }

  /** ". 5 =" with no operator: "=" changes nothing and the display reads ".5". */
  lemma PointFiveEqualsSession<Num>(a: Arithmetic<Num>)
    ensures Run(a, Initial, [Point, Digit(5), Equals]).display == ".5"
  {
  }
}
