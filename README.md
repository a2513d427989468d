# Opening-hand probability calculator — Dafny model

This project models the probability engine of a Yu-Gi-Oh! deck calculator: the
React component `Calculator` in `src/components/Calculator.jsx`. The user gives:

- a deck size (40 to 60);
- a hand size (1 to 6);
- a list of card targets, each with a number of copies (1 to 3) and the least
  and most copies wanted in the opening hand.

For each card, the component adds up hypergeometric terms over the wanted range.
It then multiplies the per-card sums into a joint chance and shows it as a
percentage. The cards are treated as independent on purpose; the model keeps
that behaviour and does not replace it with the multivariate hypergeometric
distribution.

The model has six modules:

- `Combinatorics` (`combinatorics.dfy`):
  - the factorial loop and `combination`, both exact over integers;
  - Pascal's rule, the factorial formula and Vandermonde's identity.
- `Distribution` (`distribution.dfy`):
  - `hypergeometric` over exact reals;
  - its running sums over a range of success counts;
  - the facts the engine relies on: the terms add up to 1, a sub-range is at
    most 1, "at least one" equals 1 minus "none", and symmetry.
- `Normalize` (`normalize.dfy`): the clamps for deck size, hand size and
  copies. Each clamp is shown to give the nearest value in its range.
- `Products` (`products.dfy`): products of lists of reals. It shows that
  appending multiplies, concatenating multiplies, one zero factor gives zero,
  reordering changes nothing, and a product of chances is a chance.
- `Probability` (`probability.dfy`):
  - a card's chance and the joint chance;
  - the component's nested recalculation loop, proved to compute exactly the
    joint chance.
- `CalculatorState` (`calculator.dfy`):
  - the component's state as a class, with its handlers;
  - the two recomputations as an explicit `Refresh`;
  - lemmas that relate the card-list edits to the joint chance.

Probabilities are exact `real`s and counts are unbounded integers. The joint
lemmas write a product as `Times(x, y)`, a function defined as `x * y`
(`Products.TimesIs`). This keeps the solver from treating these products as
nonlinear arithmetic. The statements mean the same as with `*`.

## Model

| member | source | states |
|---|---|---|
| Combinatorics.Fact | src/components/Calculator.jsx:67-72 | n! as the loop computes it: 1 for every n <= 1, always at least 1 |
| Combinatorics.Factorial | src/components/Calculator.jsx:67-72 | the loop returns Fact(n); 1 for n <= 1 and n * Fact(n - 1) for n >= 2 |
| Combinatorics.Choose | src/components/Calculator.jsx:75-78 | reference binomial coefficient by Pascal's rule, 0 outside 0 <= r <= n |
| Combinatorics.FactSplit | src/components/Calculator.jsx:77 | the factorial formula: C(n, r) * r! * (n - r)! == n!, so the division in `combination` is exact |
| Combinatorics.Combination | src/components/Calculator.jsx:75-78 | 0 when r < 0 or r > n, at least 1 when 0 <= r <= n, and equal to the Pascal coefficient |
| Combinatorics.CombinationEdges | src/components/Calculator.jsx:75-78 | C(n, 0) == C(n, n) == 1 |
| Combinatorics.Absorption | src/components/Calculator.jsx:75-78 | r * C(n, r) == n * C(n - 1, r - 1) |
| Combinatorics.Vandermonde | src/components/Calculator.jsx:81-83 | sum over k of C(a, k) * C(m, n - k) == C(a + m, n) |
| Distribution.Hypergeometric | src/components/Calculator.jsx:81-83 | defined (positive denominator) for 0 <= n <= N; never negative; positive exactly when 0 <= k <= K and 0 <= n - k <= N - K, so 0 for k < 0, k > K or n - k > N - K |
| Distribution.UndefinedOutsideDeck | src/components/Calculator.jsx:76-82 | outside 0 <= n <= N both the denominator and the numerator of the term are 0 (the code would divide 0 by 0) |
| Distribution.RangeSum | src/components/Calculator.jsx:30-34 | the running per-card sum in increasing i; never negative, 0 over an empty range |
| Distribution.RangeSumIsCount | src/components/Calculator.jsx:30-34 | a running sum equals favourable hands over all C(N, n) hands |
| Distribution.TotalProbability | src/components/Calculator.jsx:30-34 | summed over 0..K the terms give exactly 1 |
| Distribution.RangeSumAtMostOne | src/components/Calculator.jsx:30-34 | any running sum inside 0..K is at most 1 |
| Distribution.AtLeastOne | src/components/Calculator.jsx:30-34 | the sum over 1..K is 1 minus the term for 0 |
| Distribution.SingleCopy | src/components/Calculator.jsx:81-83 | with one success card the chance of drawing it is n / N |
| Distribution.Symmetry | src/components/Calculator.jsx:81-83 | exchanging K and n leaves every term unchanged |
| Normalize.NearestUnique | src/components/Calculator.jsx:27-29 | a value of a range nearest to the input is unique, so every clamp below is determined by its range |
| Normalize.ClampDeckSize | src/components/Calculator.jsx:94-100 | below 40 gives 40, above 60 gives 60, otherwise kept; the nearest value of 40..60 |
| Normalize.ClampHandSize | src/components/Calculator.jsx:108-109 | below 1 gives 1, above 6 gives 6, otherwise kept; the nearest value of 1..6 |
| Normalize.ClampCopies | src/components/Calculator.jsx:27 | always in 1..3, keeps 1..3, the nearest value of 1..3 |
| Probability.CopiesUsed | src/components/Calculator.jsx:27 | the K the loop uses lies in 1..3: the stored copies when they are in 1..3, 1 below that range and 3 above it |
| Probability.LowestCount | src/components/Calculator.jsx:28 | the loop's start is the stored minimum when that is non-negative and 0 when it is negative |
| Probability.HighestCount | src/components/Calculator.jsx:29 | the loop's end is the stored maximum when that is at most K and K when the maximum exceeds it |
| Probability.CardProbability | src/components/Calculator.jsx:30-34 | a card's chance is at least 0, at most 1 for every deck of at least 3 cards, and exactly 0 when the clamped minimum exceeds the clamped maximum |
| Probability.CardProbabilityIsRangeSum | src/components/Calculator.jsx:27-34 | a card's chance is the sum of hypergeometric terms from the clamped minimum to the clamped maximum |
| Probability.FavourableBounds | src/components/Calculator.jsx:30-34 | between 0 and C(N, n) hands meet a card's range |
| Probability.FullRangeIsCertain | src/components/Calculator.jsx:27-34 | a card wanted from 0 (or less) up to all its copies (or more) has chance exactly 1 |
| Probability.SingleCopyCard | src/components/Calculator.jsx:27-34 | a one-copy card wanted once has chance n / N |
| Probability.Chances | src/components/Calculator.jsx:26-34 | one chance per card, in list order, element i being card i's chance |
| Probability.ChancesAppend | src/components/Calculator.jsx:26-34 | the chances of a concatenation are the concatenated chances |
| Probability.ChancesPermutation | src/components/Calculator.jsx:26-34 | reordering the cards reorders their chances |
| Probability.JointProbability | src/components/Calculator.jsx:24-37 | the joint chance is at least 0, at most 1 for every deck of at least 3 cards, and exactly 1 for an empty card list |
| Probability.JointSnoc | src/components/Calculator.jsx:36 | appending a card multiplies the joint chance by that card's chance |
| Probability.JointNonIncreasing | src/components/Calculator.jsx:36 | in a deck of at least 3 cards, one more card target never raises the joint chance |
| Probability.JointSingle | src/components/Calculator.jsx:24-36 | with one card the joint chance is that card's chance |
| Probability.JointAppend | src/components/Calculator.jsx:24-37 | the joint chance of a concatenation is the product of the two joint chances |
| Probability.JointVanishes | src/components/Calculator.jsx:30-36 | one card whose clamped minimum exceeds its clamped maximum makes the joint chance exactly 0 |
| Probability.JointOrderIndependent | src/components/Calculator.jsx:26-37 | the joint chance does not depend on the order of the cards |
| Probability.SumRange | src/components/Calculator.jsx:30-34 | the inner loop returns the running sum from min to max |
| Probability.CardStep | src/components/Calculator.jsx:27-36 | one pass of the outer loop turns the joint chance of a prefix into that of the prefix extended by one card |
| Probability.ComputeJointProbability | src/components/Calculator.jsx:21-37 | the nested loop returns exactly the joint chance of the card list |
| Products.ProductPermutation | src/components/Calculator.jsx:36 | reordering the factors of the running product does not change it |
| Products.ProductOfChances | src/components/Calculator.jsx:36 | a product of values in 0..1 lies in 0..1 |
| CalculatorState.WithField | src/components/Calculator.jsx:43-47 | the card edit sets the named field and keeps the name and the other two fields |
| CalculatorState.SpliceStart | src/components/Calculator.jsx:62 | the index `splice` uses: kept when non-negative, counted from the end when negative, 0 when before the start |
| CalculatorState.SpliceOne | src/components/Calculator.jsx:60-64 | at the splice position k (the index itself, or the length plus a negative index, floored at 0): one element fewer, the elements before k kept, the later ones shifted down by one, only the element at k gone from the multiset; the list unchanged when k is past the end |
| CalculatorState.Remaining | src/components/Calculator.jsx:15 | remaining plus hand size is the deck size |
| CalculatorState.RemainingBounds | src/components/Calculator.jsx:13-18 | for clamped sizes the remaining count lies in 34..59; 34 exactly for (40, 6) and 59 exactly for (60, 1) |
| CalculatorState.Calculator.constructor | src/components/Calculator.jsx:6-11 | the initial state: 40, 6, one Thunder Dragon (3 copies, 1 to 3), text "40", remaining 40, no percentage |
| CalculatorState.Calculator.Refresh | src/components/Calculator.jsx:13-40 | sets the remaining count to deck minus hand and the percentage to 100 times the joint chance, keeping the sizes, the cards and the text |
| CalculatorState.Calculator.HandleDeckSizeChange | src/components/Calculator.jsx:85-103 | the text is always shown; empty or unparseable text keeps the deck size; otherwise the deck size is the parsed value clamped into 40..60; nothing else changes |
| CalculatorState.Calculator.HandleHandSizeChange | src/components/Calculator.jsx:106-111 | the hand size becomes the input clamped into 1..6; nothing else changes |
| CalculatorState.Calculator.AddCard | src/components/Calculator.jsx:56-58 | appends the default card (no name, 3 copies, 1 to 3) and keeps every existing card |
| CalculatorState.Calculator.RemoveCard | src/components/Calculator.jsx:60-64 | the new list is `splice(index, 1)` of the old one; nothing else changes |
| CalculatorState.Calculator.HandleCardChange | src/components/Calculator.jsx:43-47 | only the named field of the card at index changes |
| CalculatorState.Calculator.HandleNameChange | src/components/Calculator.jsx:50-54 | only the name of the card at index changes |
| CalculatorState.PercentageBounds | src/components/Calculator.jsx:39 | for clamped sizes the percentage lies in 0..100 |
| CalculatorState.JointAfterAdd | src/components/Calculator.jsx:56-58 | adding a card multiplies the joint chance by 1 minus the chance of drawing none of 3 copies |
| CalculatorState.DefaultCardProbability | src/components/Calculator.jsx:57 | the default card's chance is 1 minus the chance of drawing none of its 3 copies |
| CalculatorState.JointAfterRemove | src/components/Calculator.jsx:60-64 | for every index whose splice position k is inside the list (negative indices counted from the end): the joint chance after the removal, times card k's chance, is the joint chance before |
| CalculatorState.NameIrrelevant | src/components/Calculator.jsx:50-54 | a card's chance does not depend on its name |
| CalculatorState.JointAfterRename | src/components/Calculator.jsx:50-54 | renaming a card leaves the joint chance unchanged |

## Left out

- React machinery is not modelled. This covers `useState`, the `useEffect` reactivity, JSX rendering, CSS and the logo. Whatever runs both effects after a change of state calls `Calculator.Refresh` in their place.
- Refresh: keeps the guard `deckSize && handSize` of the remaining-count effect. Under `Valid()` both sizes are positive, so the guard always holds.
- Floating point is not modelled. Factorials, binomial coefficients and probabilities are exact. The rounding of the factorial loop's double products (inexact from 23!; 60!, the largest the component needs, does not overflow), the rounding of each term, and the two-decimal formatting of `toFixed(2)` are out of scope. The percentage is the exact value `100 * p`.
- String parsing via `parseInt` and `isNaN` is not modelled. The handlers take already-parsed integers. The deck-size handler takes the text and an `Option<int>` for its parse, with `None` standing for `NaN`.
- The card fields hold the input text in the component and are parsed when the chance is computed. The model stores them as integers. So a cleared field, which gives `NaN`, is not modelled.
- HandleHandSizeChange: assumes numeric input. Empty input makes `parseInt` return `NaN`, which slips past both comparisons and would be stored.
- HandleCardChange, HandleNameChange: require an index into the list. For any other index the component fails with a `TypeError` on `undefined`. The UI only passes the index of a card on screen.
- HandleCardChange, HandleNameChange: their shallow copy of the list means the component also mutates the shared card object in place. The model updates one card by value, so the aliasing is not modelled.
- RemoveCard: is modelled for every integer index with the semantics of `splice`. The UI shows the remove button only when there is more than one card; that condition is presentation and is not modelled.
- Distribution.Hypergeometric: requires 0 <= n <= N. Outside that range the component divides 0 by 0 (`UndefinedOutsideDeck`). Every clamped deck size and hand size satisfies the requirement.
- The inner loop over i = min..max is its own method, `Probability.SumRange`, called from the outer loop. The statements are the component's; only the split into two methods is new.
