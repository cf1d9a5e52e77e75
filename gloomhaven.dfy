/**
  Turn-economy arithmetic of the card game Gloomhaven.

  A player holds `n` cards in hand and `m` cards in the discard pile (cards
  that are not lost). Every turn plays two cards from hand; a long rest
  returns the discard pile to hand at the cost of one card. The functions
  below count the turns that can be played and the turns lost by various
  choices. They work on unbounded integers and, like the Python, reject no
  input, negative arguments included. The one exception is the recursive
  count, which needs at least two cards to reach its base case; it is
  modelled without the interpreter's bound on recursion depth.

  Python's floor division `//` by 2 and Dafny's Euclidean `/` by 2 agree on
  every integer, so `x // 2` is written `x / 2` throughout.
*/
module Gloomhaven {

  /** Turns playable from `n` cards in hand and an empty discard pile,
      resting only when the hand is played out. The odd branch keeps the
      source's left-to-right grouping of `//` and `*`. */
  function MaxTurnsInitial(n: int): (r: int)
    ensures r == (n / 2) * ((n + 1) / 2)
  {
    if n % 2 == 0 then
      (n / 2) * (n / 2)
    else
      QuarterTimesEvenSuccessor((n - 1) / 2);
      (((n - 1) / 2) * (n + 1)) / 2
  }

  /** The same count by recursion on the hand size; the recursion only
      reaches its base case from `n >= 2`. On that whole domain it agrees
      with the closed form. */
  function MaxTurnsRecursive(n: int): (r: int)
    requires n >= 2
    ensures r == MaxTurnsInitial(n)
    decreases n
  {
    if n == 2 then 1
    else
      MaxTurnsInitialStep(n);
      n / 2 + MaxTurnsRecursive(n - 1)
  }

  /** Turns playable from `n` cards in hand and `m` in the discard pile:
      the hand is played down, then the whole pool less one card starts over. */
  function MaxTurns(n: int, m: int): (r: int)
    ensures r >= n / 2
  {
    MaxTurnsInitialNonNegative(n + m - 1);
    n / 2 + MaxTurnsInitial(n + m - 1)
  }

  /** Turns lost by preventing damage: one card from hand when there is
      one, otherwise two cards from the discard pile. An empty hand costs
      `m - 2` turns, like the discard-pile policy; a hand card costs one
      turn for an even hand plus half the pool less one. */
  function TurnsLost(n: int, m: int): (r: int)
    ensures n == 0 ==> r == m - 2
    ensures n != 0 ==> r == (if n % 2 == 0 then 1 else 0) + (n + m - 1) / 2
  {
    if n == 0 then
      MaxTurnsInitialTwoStep(m - 1);
      MaxTurns(n, m) - MaxTurns(n, m - 2)
    else
      MaxTurnsInitialStep(n + m - 1);
      HalfParity(n);
      MaxTurns(n, m) - MaxTurns(n - 1, m)
  }

  /** Turns lost by preventing damage when the two cards always come from
      the discard pile: `n + m - 2` for every pair of integers. */
  function TurnsLostFromDiscard(n: int, m: int): (r: int)
    ensures r == n + m - 2
  {
    MaxTurnsInitialTwoStep(n + m - 1);
    MaxTurns(n, m) - MaxTurns(n, m - 2)
  }

  /** Turns lost by taking a long rest now instead of when the hand is
      empty: exactly the `n / 2` turns the hand could still play. */
  function TurnsLostEarlyRest(n: int, m: int): (r: int)
    ensures r == n / 2
  {
    MaxTurnsInitialStep(n + m - 1);
    var maxNumTurns := MaxTurns(n, m);
    var restNumTurns := MaxTurns(n + m - 1, 0);
    maxNumTurns - restNumTurns
  }

  // ---------------------------------------------------------------------
  // Arithmetic helpers

  /** `k * (2k + 2)` halves exactly, to `k * (k + 1)`. */
  lemma QuarterTimesEvenSuccessor(k: int)
    ensures (k * (2 * k + 2)) / 2 == k * (k + 1)
  {
    assert k * (2 * k + 2) == 2 * (k * (k + 1));
  }

  /** Two consecutive integers never have a negative product. */
  lemma ConsecutiveProductNonNegative(k: int)
    ensures k * (k + 1) >= 0
  {
    if k < 0 {
      assert k * (k + 1) == (-k) * (-k - 1);
    }
  }

  /** Splits `n` into its half and its parity, for the closed forms below. */
  lemma HalfParity(n: int)
    ensures n == 2 * (n / 2) + n % 2
    ensures n % 2 == 0 ==> (n + 1) / 2 == n / 2
    ensures n % 2 == 1 ==> (n + 1) / 2 == n / 2 + 1 && (n - 1) / 2 == n / 2
  {
  }

  // ---------------------------------------------------------------------
  // max_turns_initial and max_turns_recursive

  /** The turn count from an empty discard pile is never negative, for any
      integer, negative hand sizes included. */
  lemma MaxTurnsInitialNonNegative(n: int)
    ensures MaxTurnsInitial(n) >= 0
  {
    HalfParity(n);
    var k := n / 2;
    if n % 2 == 0 {
      assert MaxTurnsInitial(n) == k * k;
    } else {
      ConsecutiveProductNonNegative(k);
    }
  }

  /** The even branch is the square of half the hand, the odd branch the
      product of the two halves the source intends, and both are
      `floor(n*n / 4)`: the truncations in the odd branch lose nothing. */
  lemma MaxTurnsInitialQuarterSquare(n: int)
    ensures n % 2 == 0 ==> MaxTurnsInitial(n) == (n / 2) * (n / 2)
    ensures n % 2 == 1 ==> MaxTurnsInitial(n) == ((n - 1) / 2) * ((n + 1) / 2)
    ensures MaxTurnsInitial(n) == n * n / 4
    ensures MaxTurnsInitial(n) >= 0
  {
    HalfParity(n);
    MaxTurnsInitialNonNegative(n);
    var k := n / 2;
    if n % 2 == 0 {
      assert n * n == 4 * (k * k);
    } else {
      assert n * n == 4 * (k * (k + 1)) + 1;
    }
  }

  /** One more card in hand adds `n / 2` turns: the step the recursive
      version takes, valid for every integer. */
  lemma MaxTurnsInitialStep(n: int)
    ensures MaxTurnsInitial(n) == n / 2 + MaxTurnsInitial(n - 1)
  {
    HalfParity(n);
    HalfParity(n - 1);
    var k := n / 2;
    if n % 2 == 0 {
      assert MaxTurnsInitial(n) == k * k;
      assert MaxTurnsInitial(n - 1) == (k - 1) * k;
      assert k * k == k + (k - 1) * k;
    } else {
      assert MaxTurnsInitial(n) == k * (k + 1);
      assert MaxTurnsInitial(n - 1) == k * k;
      assert k * (k + 1) == k + k * k;
    }
  }

  /** Two more cards in the pool add `k - 1` turns. */
  lemma MaxTurnsInitialTwoStep(k: int)
    ensures MaxTurnsInitial(k) - MaxTurnsInitial(k - 2) == k - 1
  {
    MaxTurnsInitialStep(k);
    MaxTurnsInitialStep(k - 1);
    HalfParity(k);
  }

  // ---------------------------------------------------------------------
  // max_turns

  /** The turn count is `n / 2 + floor((n + m - 1)^2 / 4)`, is never
      negative for a non-negative hand, and with an empty discard pile it
      is the count from the hand alone. */
  lemma MaxTurnsClosedForm(n: int, m: int)
    ensures MaxTurns(n, m) == n / 2 + (n + m - 1) * (n + m - 1) / 4
    ensures n >= 0 ==> MaxTurns(n, m) >= 0
    ensures MaxTurns(n, 0) == MaxTurnsInitial(n)
  {
    MaxTurnsInitialQuarterSquare(n + m - 1);
    MaxTurnsInitialStep(n);
  }

  /** Moving cards between hand and discard pile changes the count only
      through the hand's own `n / 2` turns: the rest depends on `n + m`. */
  lemma MaxTurnsDependsOnPool(n: int, m: int, n': int, m': int)
    requires n + m == n' + m'
    ensures MaxTurns(n, m) - n / 2 == MaxTurns(n', m') - n' / 2
  {
  }

  /** One more card, in hand or in the discard pile, never costs a turn
      once the pool is not negative. */
  lemma MaxTurnsMonotone(n: int, m: int)
    requires n + m >= 0
    ensures MaxTurns(n, m) <= MaxTurns(n, m + 1)
    ensures MaxTurns(n, m) <= MaxTurns(n + 1, m)
  {
    MaxTurnsInitialStep(n + m);
    HalfParity(n);
  }

  // ---------------------------------------------------------------------
  // turns_lost, turns_lost_from_disc, turns_lost_early_rest

  /** With an empty hand both damage policies take two discarded cards and
      cost the same. */
  lemma TurnsLostEmptyHand(m: int)
    ensures TurnsLost(0, m) == TurnsLostFromDiscard(0, m)
  {
  }

  /** On every cell the damage chart draws (non-negative counts, and at
      least two discarded cards when the hand is empty) preventing damage
      never gains turns. */
  lemma TurnsLostNonNegative(n: int, m: int)
    requires n >= 0 && m >= 0
    requires n == 0 ==> m >= 2
    ensures TurnsLost(n, m) >= 0
  {
  }

  /** The discard-pile policy is non-negative exactly when at least two
      cards are held; on the cells the chart draws it goes negative only at
      one card in hand and none discarded, where it reports minus one turn. */
  lemma TurnsLostFromDiscardSign(n: int, m: int)
    ensures TurnsLostFromDiscard(n, m) >= 0 <==> n + m >= 2
    ensures n >= 0 && m >= 0 && (n == 0 ==> m >= 2) ==>
              (TurnsLostFromDiscard(n, m) < 0 <==> n == 1 && m == 0)
    ensures TurnsLostFromDiscard(1, 0) == -1
  {
  }

  /** With a card in hand and at least two discarded cards, losing the hand
      card is never worse than losing two discarded cards. */
  lemma TurnsLostPreferHandNoWorse(n: int, m: int)
    requires n >= 1 && m >= 2
    ensures TurnsLost(n, m) <= TurnsLostFromDiscard(n, m)
  {
  }

  /** Resting early never gains turns, and it is free exactly when at most
      one card is in hand. */
  lemma TurnsLostEarlyRestFree(n: int, m: int)
    requires n >= 0
    ensures TurnsLostEarlyRest(n, m) >= 0
    ensures TurnsLostEarlyRest(n, m) == 0 <==> n <= 1
  {
  }

  /** Concrete values of the closed form, including the odd hand of three
      cards, and of the recursive version. */
  lemma MaxTurnsInitialExamples()
    ensures MaxTurnsInitial(3) == 2 && MaxTurnsInitial(4) == 4 && MaxTurnsInitial(5) == 6
    ensures MaxTurnsRecursive(5) == 6
  {
  }

  /** Concrete values of the turn count for a hand with and without a
      discard pile. */
  lemma MaxTurnsExamples()
    ensures MaxTurns(4, 0) == 4 && MaxTurns(4, 3) == 11
  {
  }
}
