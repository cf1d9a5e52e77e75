# Gloomhaven turn economy, in Dafny

This project models the turn-counting arithmetic of the Gloomhaven card-game
helpers (`Gloomhaven.py`). It covers the maximum number of turns a player
can play from `n` cards in hand and `m` cards in the discard pile, and the
turns lost by preventing damage or by resting early. It contains one
module, `Gloomhaven` (`gloomhaven.dfy`), with one function per Python
function and lemmas that prove their closed forms.

Modelling choices:

- Python's `x // 2` is Dafny's `x / 2`. Both round toward negative
  infinity when the divisor is positive, so they agree on every integer,
  negative ones included. This matters because the source itself passes
  negative arguments, for example `m - 2` with `m < 2`.
- Line 60, `(n-1)//2 * (n+1)//2`, groups left to right as
  `(((n-1)//2) * (n+1)) // 2`. It is modelled exactly that way.
  `MaxTurnsInitial` then proves that it equals `floor(n/2) * ceil(n/2)`
  (so the truncation loses nothing), and `MaxTurnsInitialQuarterSquare`
  proves that the value is `floor(n*n/4)`.
- The functions are total over `int`, as the Python is: no input is
  rejected and no error is raised. Boundary inputs, such as `m - 2` below
  zero, compute what the code computes. The one exception is
  `MaxTurnsRecursive`, which requires `n >= 2` because below 2 the Python
  recursion never reaches its base case.
- Facts about the code that are easy to get wrong by hand:
  - `max_turns_initial(3)` is 2 (`MaxTurnsInitialExamples`).
  - `max_turns(n, 0) == max_turns_initial(n)` holds for every integer `n`
    (`MaxTurnsClosedForm`).

## Model

| member | source | states |
|---|---|---|
| `Gloomhaven.MaxTurnsInitial` | Gloomhaven.py:55-60 | for every integer hand, the literal even/odd expression equals floor(n/2) times ceil(n/2) |
| `Gloomhaven.MaxTurnsInitialNonNegative` | Gloomhaven.py:55-60 | the turn count from an empty discard pile is never negative, negative hands included |
| `Gloomhaven.MaxTurnsInitialQuarterSquare` | Gloomhaven.py:55-60 | even hand: the square of half the hand; odd hand: ((n-1)/2)*((n+1)/2), the product the odd branch intends; both are floor(n*n/4) and non-negative |
| `Gloomhaven.MaxTurnsInitialStep` | Gloomhaven.py:55-60 | one more card in hand adds exactly n/2 turns, for every integer n |
| `Gloomhaven.MaxTurnsInitialTwoStep` | Gloomhaven.py:55-60 | two more cards add exactly k-1 turns |
| `Gloomhaven.MaxTurnsRecursive` | Gloomhaven.py:64-75 | for every n >= 2, the recursion from base case 2 (one turn) through n/2 + max_turns_recursive(n-1) returns the closed form's value, as its docstring claims |
| `Gloomhaven.MaxTurnsInitialExamples` | Gloomhaven.py:44-75 | the closed form gives 2, 4 and 6 turns for 3, 4 and 5 cards; the recursive version gives 6 for 5 cards |
| `Gloomhaven.MaxTurns` | Gloomhaven.py:79-84 | the count with a discard pile is at least the n/2 turns of the current hand |
| `Gloomhaven.MaxTurnsClosedForm` | Gloomhaven.py:79-84 | the count is n/2 + floor((n+m-1)^2/4); it is non-negative for n >= 0; with an empty discard pile it equals the closed form for the hand alone |
| `Gloomhaven.MaxTurnsDependsOnPool` | Gloomhaven.py:79-84 | apart from the hand's own n/2 turns, the count depends on hand and discard pile only through their sum |
| `Gloomhaven.MaxTurnsMonotone` | Gloomhaven.py:79-84 | one more card, in hand or in the discard pile, never lowers the count once n+m >= 0 |
| `Gloomhaven.MaxTurnsExamples` | Gloomhaven.py:79-84 | 4 cards in hand give 4 turns with no discard pile and 11 turns with 3 discarded cards |
| `Gloomhaven.TurnsLost` | Gloomhaven.py:87-96 | with an empty hand, preventing damage costs m-2 turns; otherwise losing one hand card costs 1 turn for an even hand plus (n+m-1)/2 |
| `Gloomhaven.TurnsLostEmptyHand` | Gloomhaven.py:93-105 | with an empty hand, max_turns(0,m) - max_turns(0,m-2) is the cost of both policies |
| `Gloomhaven.TurnsLostNonNegative` | Gloomhaven.py:87-96 | for n, m >= 0, with at least two discarded cards when the hand is empty, preventing damage never gains turns |
| `Gloomhaven.TurnsLostFromDiscard` | Gloomhaven.py:99-105 | losing two discarded cards costs exactly n+m-2 turns, for every pair of integers |
| `Gloomhaven.TurnsLostFromDiscardSign` | Gloomhaven.py:99-105 | the discard-pile cost is non-negative if and only if n+m >= 2; on the inputs above it is negative only at one card in hand and none discarded, where it is -1 |
| `Gloomhaven.TurnsLostPreferHandNoWorse` | Gloomhaven.py:88-105 | with a card in hand and at least two discarded, losing the hand card costs no more turns than losing two discarded cards |
| `Gloomhaven.TurnsLostEarlyRest` | Gloomhaven.py:108-118 | resting now instead of when the hand is empty costs exactly the n/2 turns the hand could still play |
| `Gloomhaven.TurnsLostEarlyRestFree` | Gloomhaven.py:108-118 | for n >= 0, resting early never gains turns, and it costs nothing if and only if at most one card is in hand |

## Left out

- The `add_doc` decorator and the docstring constants (Gloomhaven.py:12-39): they only edit `__doc__` text and compute nothing.
- `turns_plots.py`, the masking helper, the chart rendering and the image files: this is plotting and file output. The sweep's masking rule (an empty hand needs at least two discarded cards) appears only as the precondition of `TurnsLostNonNegative` and a hypothesis of `TurnsLostFromDiscardSign`.
- The `RecursionError` that `max_turns_recursive` raises for `n < 2`: a precondition `n >= 2` stands in for it.
- MaxTurnsRecursive: does not model the interpreter's recursion-depth limit. The Python uses one stack frame per card, so under CPython's default limit of 1000 frames it raises `RecursionError` from roughly n = 1000 upward. The model recurses without bound, and its contract holds for every n >= 2. The limit is a property of the interpreter, not of the arithmetic.
