/**
 The view controller of the calculator screen: four mutable fields and the
 text of the display label, updated in place by the button handlers. Each
 handler is proved to move the state exactly as the corresponding function
 of module Calculator says, and to keep `Calculator.Inv`.
 */
module Controller {
  import opened Calculator

  class ViewController<!Num> {
    /** The double arithmetic, parsing and formatting the handlers call. */
    const arith: Arithmetic<Num>

    var currentNumber: string
    var previousNumber: string
    var currentOperation: Option<Operator>
    var isTyping: bool
    /** The text of the display label. */
    var display: string

    /** The observable state, as a value. */
    function Snapshot(): State
      reads this
    {
      State(currentNumber, previousNumber, currentOperation, isTyping, display)
    }

    ghost predicate Valid()
      reads this
    {
      Inv(Snapshot())
    }

    /** The field initialisers and the label's initial text "0". */
    constructor (arith: Arithmetic<Num>)
      ensures this.arith == arith
      ensures Snapshot() == Initial
      ensures Valid()
    {
      this.arith := arith;
      currentNumber := "0";
      previousNumber := "";
      currentOperation := None;
      isTyping := false;
      display := "0";
    }

    /** `updateDisplay`: the label shows the entry; no other field changes. */
    method UpdateDisplay()
      modifies this`display
      ensures display == currentNumber
      ensures Snapshot() == old(Snapshot()).(display := old(currentNumber))
    {
      display := currentNumber;
    }

    /** `clear`: back to the initial state from any state. */
    method Clear()
      modifies this
      ensures Snapshot() == AfterClear(old(Snapshot()))
      ensures Snapshot() == Initial
      ensures Valid()
    {
      currentNumber := "0";
      previousNumber := "";
      currentOperation := None;
      isTyping := false;
      UpdateDisplay();
    }

    /** `appendNumber` with the title of a digit or decimal-point button. */
    method AppendNumber(k: Key)
      requires k.IsEntry()
      modifies this
      ensures Snapshot() == AfterAppend(old(Snapshot()), k)
      ensures old(Valid()) ==> Valid()
    {
      var number := Title(k);
      if number == "." && '.' in currentNumber {
        return;
      }
      if !isTyping || currentNumber == "0" {
        currentNumber := number;
        isTyping := true;
      } else {
        currentNumber := currentNumber + number;
      }
      UpdateDisplay();
    }

    /** `calculateResult`: the "=" button and the fold before an operator. */
    method CalculateResult()
      modifies this
      ensures Snapshot() == Evaluate(arith, old(Snapshot()))
      ensures old(Valid()) ==> Valid()
    {
      if currentOperation.None? {
        return;
      }
      var operation := currentOperation.value;
      var previous := arith.parse(previousNumber);
      if previous.None? {
        return;
      }
      var current := arith.parse(currentNumber);
      if current.None? {
        return;
      }
      var result;
      match operation {
        case Add => result := arith.apply(Add, previous.value, current.value);
        case Sub => result := arith.apply(Sub, previous.value, current.value);
        case Mul => result := arith.apply(Mul, previous.value, current.value);
        case Div =>
          if !arith.isZero(current.value) {
            result := arith.apply(Div, previous.value, current.value);
          } else {
            display := "Error";
            Clear();
            return;
          }
      }
      currentNumber := arith.format(result);
      previousNumber := "";
      currentOperation := None;
      isTyping := false;
      UpdateDisplay();
    }

    /** `selectOperation`: an operator button. */
    method SelectOperation(operation: Operator)
      modifies this
      ensures Snapshot() == AfterSelect(arith, old(Snapshot()), operation)
      ensures old(Valid()) ==> Valid()
    {
      if isTyping {
        CalculateResult();
      }
      previousNumber := currentNumber;
      currentOperation := Some(operation);
      isTyping := false;
    }

    /** `buttonTapped`: dispatch on the button pressed. */
    method ButtonTapped(k: Key)
      modifies this
      ensures Snapshot() == Press(arith, old(Snapshot()), k)
      ensures old(Valid()) ==> Valid()
    {
      match k {
        case Clear => Clear();
        case Equals => CalculateResult();
        case Op(operation) => SelectOperation(operation);
        case _ => AppendNumber(k);
      }
    }
  }

  /**
   A client pressing 9, /, 0, = and then 5 on a fresh controller, relying on
   the handlers' contracts alone: the division by zero leaves "0" on the
   display, and the next digit starts a new entry.
   */
  method DivideByZeroThenDigit<Num>(arith: Arithmetic<Num>, z: Num) returns (afterEquals: string, afterFive: string)
    requires arith.parse("9").Some? && arith.parse("0") == Some(z) && arith.isZero(z)
    ensures afterEquals == "0"
    ensures afterFive == "5"
  {
    var c := new ViewController(arith);
    c.ButtonTapped(Digit(9));
    c.ButtonTapped(Op(Div));
    c.ButtonTapped(Digit(0));
    c.ButtonTapped(Equals);
    afterEquals := c.display;
    c.ButtonTapped(Digit(5));
    afterFive := c.display;
  }

  /**
   A client pressing any two keys on a fresh controller: the invariant the
   constructor establishes and every handler keeps means the display then
   shows the entry, which is never empty.
   */
  method TwoPresses<Num>(arith: Arithmetic<Num>, first: Key, second: Key) returns (shown: string, entry: string)
    ensures shown == entry
    ensures entry != []
  {
    var c := new ViewController(arith);
    c.ButtonTapped(first);
    c.ButtonTapped(second);
    shown, entry := c.display, c.currentNumber;
  }
}
