# Calculator state machine

A model of the input and evaluation logic of a single-screen calculator app.
The app's `ViewController` keeps four fields: `currentNumber`, `previousNumber`,
`currentOperation` and `isTyping`. It also keeps the text of its display label.
Five button handlers update them in place: `buttonTapped`, `appendNumber`,
`selectOperation`, `calculateResult` and `clear`. There is no operator
precedence: an operator pressed while typing first folds the pending operation.

The project has two modules.

- `Calculator` (`calculator.dfy`) holds the values. These are the keys of the
  keypad (`Key`), the controller's state as a value (`State`), and one function
  per handler (`AfterClear`, `AfterAppend`, `Evaluate`, `AfterSelect`, `Press`),
  plus `Run` for a sequence of presses. It also holds the invariant `Inv` and
  the lemmas that state what the handlers promise.
- `Controller` (`controller.dfy`) holds the class `ViewController`. Its fields
  are the source's fields, and its methods are the handlers. Each handler
  method ensures that the new `Snapshot()` is the matching function of the old one,
  and that it keeps `Inv`.

Double-precision arithmetic is abstract. The type parameter `Num` stands for
`Double`. The record `Arithmetic<Num>` supplies four total functions: `parse`
(the failable `Double(String)`), `apply` (`+ - * /`), `isZero` (the divisor
guard) and `format` (`formatResult`). `format` returns a non-empty string.
Everything proved holds for every choice of these functions.

Two behaviours of the code differ from what a reader of the intent might expect. The model follows the code:

- On division by zero the code writes "Error" to the label and then calls
  `clear()`, whose `updateDisplay()` writes "0" over it. So the display ends
  as "0", not "Error" (`EvaluateDivisionByZero`, `DivideByZeroSession`).
  The brief "Error" write is kept in the body of `CalculateResult` only; no
  contract pins it down, since it is overwritten within the same call.
  In fact the display always equals `currentNumber` after every handler
  (`Inv`, `DisplayShowsEntry`).
- Typing "." when the entry is "0" replaces it, so ". 5 =" shows ".5", not
  "0.5" (`PointReplacesZero`, `PointFiveEqualsSession`).

## Model

| member | source | states |
|---|---|---|
| Calculator.TitleRoundTrip | Calculator_TUIT/Calculator_TUIT/ViewController.swift:22-27 | every key's button title decodes back to that key |
| Calculator.KeyOfIsTitle | Calculator_TUIT/Calculator_TUIT/ViewController.swift:123-131 | a title that decodes to a key is exactly that key's title |
| Calculator.KeypadTitles | Calculator_TUIT/Calculator_TUIT/ViewController.swift:120-133 | every button on the grid or the "C" button decodes to a key, and the titles that fall to the `default` branch are exactly the digit and "." keys |
| Calculator.EveryKeyOnKeypad | Calculator_TUIT/Calculator_TUIT/ViewController.swift:22-27 | every key has a button in the grid or is the "C" button |
| Calculator.PointWithPointIsNoOp | Calculator_TUIT/Calculator_TUIT/ViewController.swift:136 | "." when the entry already contains "." leaves all fields and the display unchanged |
| Calculator.AppendEffect | Calculator_TUIT/Calculator_TUIT/ViewController.swift:138-144 | any other digit or ".": the entry becomes that character when not typing or when it is "0", otherwise the character is appended; typing is on, the display shows the entry, and the pending operand and operator are unchanged |
| Calculator.PointReplacesZero | Calculator_TUIT/Calculator_TUIT/ViewController.swift:136-139 | "." on the entry "0" gives ".", not "0." |
| Calculator.PointIdempotent | Calculator_TUIT/Calculator_TUIT/ViewController.swift:136-143 | pressing "." twice in a row gives the same state as pressing it once |
| Calculator.AppendKeepsEntry | Calculator_TUIT/Calculator_TUIT/ViewController.swift:142 | appending a digit, or a "." to an entry without one, keeps an entry made of digits with at most one "." and no leading zero other than "0" |
| Calculator.TitleIsEntry | Calculator_TUIT/Calculator_TUIT/ViewController.swift:139 | a single digit or "." is a well-formed entry |
| Calculator.AppendPreservesInv | Calculator_TUIT/Calculator_TUIT/ViewController.swift:135-145 | `appendNumber` keeps the invariant, including the well-formed entry while typing |
| Calculator.EvaluateNoOp | Calculator_TUIT/Calculator_TUIT/ViewController.swift:157-161 | with no pending operator, or an operand that fails to parse, "=" changes nothing, the display included |
| Calculator.EvaluateSuccess | Calculator_TUIT/Calculator_TUIT/ViewController.swift:183-187 | a successful evaluation sets the entry to the formatted result, clears the pending operand and operator, stops typing and shows the entry |
| Calculator.EvaluateDivisionByZero | Calculator_TUIT/Calculator_TUIT/ViewController.swift:172-177 | division by a zero entry ends in exactly the initial state, with display "0" |
| Calculator.EvaluatePreservesInv | Calculator_TUIT/Calculator_TUIT/ViewController.swift:156-188 | `calculateResult` keeps the invariant |
| Calculator.SelectEffect | Calculator_TUIT/Calculator_TUIT/ViewController.swift:147-154 | an operator folds only while typing, then stores the entry as the pending operand, records the operator and stops typing; the display is the one the fold left, so it is untouched when not typing |
| Calculator.OperatorTwice | Calculator_TUIT/Calculator_TUIT/ViewController.swift:148-153 | two operators in a row give the same state as the second alone |
| Calculator.EqualsAfterOperator | Calculator_TUIT/Calculator_TUIT/ViewController.swift:151-159 | "=" right after an operator uses the entry as both operands |
| Calculator.SelectPreservesInv | Calculator_TUIT/Calculator_TUIT/ViewController.swift:147-154 | `selectOperation` keeps the invariant |
| Calculator.ClearResets | Calculator_TUIT/Calculator_TUIT/ViewController.swift:190-196 | "C" from any state gives the initial state with display "0", satisfies the invariant, and a second "C" changes nothing |
| Calculator.PressPreservesInv | Calculator_TUIT/Calculator_TUIT/ViewController.swift:120-133 | every button press keeps the invariant |
| Calculator.RunPreservesInv | Calculator_TUIT/Calculator_TUIT/ViewController.swift:29-32 | every sequence of presses from a state satisfying the invariant keeps it: the entry is never empty, the operator is absent exactly when the pending operand is empty, the entry is well formed while typing, and the display equals the entry |
| Calculator.DisplayShowsEntry | Calculator_TUIT/Calculator_TUIT/ViewController.swift:202-204 | from the initial state, after any presses, the display shows the non-empty entry |
| Calculator.DigitOpDigitEquals | Calculator_TUIT/Calculator_TUIT/ViewController.swift:156-188 | a digit, an operator, a digit and "=" display the formatted result of the operation on the two parsed digits |
| Calculator.DivideByZeroSession | Calculator_TUIT/Calculator_TUIT/ViewController.swift:172-177 | 9 / 0 = ends in the initial state, and a following 5 shows "5" |
| Calculator.ChainedSession | Calculator_TUIT/Calculator_TUIT/ViewController.swift:147-154 | in 5 + 3 + 2 =, the second "+" folds 5 + 3, and "=" adds 2 to that formatted result |
| Calculator.PointFiveEqualsSession | Calculator_TUIT/Calculator_TUIT/ViewController.swift:135-161 | ". 5 =" with no operator shows ".5" |
| Controller.ViewController.constructor | Calculator_TUIT/Calculator_TUIT/ViewController.swift:29-32 | the fields start as "0", "", nil, false and the label as "0", which satisfies the invariant |
| Controller.ViewController.UpdateDisplay | Calculator_TUIT/Calculator_TUIT/ViewController.swift:202-204 | the display becomes the entry and nothing else changes |
| Controller.ViewController.Clear | Calculator_TUIT/Calculator_TUIT/ViewController.swift:190-196 | the state becomes the initial state from any state |
| Controller.ViewController.AppendNumber | Calculator_TUIT/Calculator_TUIT/ViewController.swift:135-145 | the new state is `AfterAppend` of the old one, and the invariant is kept |
| Controller.ViewController.CalculateResult | Calculator_TUIT/Calculator_TUIT/ViewController.swift:156-188 | the new state is `Evaluate` of the old one on every exit path, and the invariant is kept |
| Controller.ViewController.SelectOperation | Calculator_TUIT/Calculator_TUIT/ViewController.swift:147-154 | the new state is `AfterSelect` of the old one, and the invariant is kept |
| Controller.ViewController.ButtonTapped | Calculator_TUIT/Calculator_TUIT/ViewController.swift:120-133 | the new state is `Press` of the old one, and the invariant is kept |
| Controller.TwoPresses | Calculator_TUIT/Calculator_TUIT/ViewController.swift:202-204 | a client pressing any two keys on a fresh controller sees the display equal to the entry, which is non-empty, using only the invariant the handlers keep |
| Controller.DivideByZeroThenDigit | Calculator_TUIT/Calculator_TUIT/ViewController.swift:172-177 | a client using only the class's contracts sees "0" after 9 / 0 = and "5" after a following 5 |

## Left out

- The UIKit view building and layout (`viewDidLoad`, `setupUI`, `createRowStackView`, `createButton`, `createLastRow`): presentation only. The button titles they use are kept as `ButtonTitles` and `ClearTitle`.
- AppDelegate.swift: window and app start-up only; it is not part of this model.
- `Double` arithmetic and `Double(String)` parsing: floating point, so `parse`, `apply` and `isZero` are parameters with no properties assumed.
- The text `formatResult` produces: it depends on `truncatingRemainder`, `String(Double)` and `Int(result)`, which traps on out-of-range values. `format` is a parameter that only promises a non-empty string, so the model does not capture that trap.
- The `guard let title = sender.currentTitle` early return in `buttonTapped`: every button has a title. Titles outside the keypad, which the `default` branch would pass on to `appendNumber`, cannot occur, so `ButtonTapped` takes a `Key`.
- The `default: break` branch of the operator switch in `calculateResult` (result 0): the operator is a closed datatype, so that branch cannot be reached.
- The display text of integral and fractional results (for instance that 4 shows as "4" and 4.5 as "4.5"): `format` is abstract, so no concrete rendering is stated.
