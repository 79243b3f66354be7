# Models of the benchmark algorithms and of the bridge

This project models two groups of code and proves what they promise.

The first group is the self-contained part of the V8 benchmark suite in
`bench/v8-bench.js`:

- the big-integer library on 28-bit digits with a sign word, from the half-word
  product up to Montgomery reduction, sliding-window powers, binary gcd and modular
  inverse: the digit algorithms are proved against integer arithmetic;
- the top-down splay tree, with its link surgery through one shared dummy node:
  proved against a finite map;
- the nboyer rewriter and tautology checker with the global substitution: proved
  sound in every model of its lemmas, and exact where it can be;
- the Earley parser with its sets as threaded lists and its two agendas: the answers
  to `parse->parsed?` are proved to be exactly the constituents of parses of the
  whole input;
- the Richards scheduler with its state bits and relinked packets: every packet is in
  exactly one place at every turn, every turn is one step of a function on plain
  values, and the benchmark's run ends.

The second group is the bridge and its protocols: the V8-to-JSON fast path on heap
graphs that may be cyclic and shared, the binary envelope of stream frames, the worker
that finds frames in chunks, the send-or-reject logic on bounded channels with
promises that settle once, the windowed launcher, and the tiling of a render job.

Mutable objects of the source are classes with the same fields, written in place; the
digit arrays, which grow on writing, are maps from index to digit, and the sets and
tables of the parser are sequences that the methods reassign.  Ghost state (the tree a
node is the root of, the lists the links stand for, the items of a parser state) ties
the fields to the values that the contracts speak of.  The send-or-reject protocol is a
state machine whose steps interleave freely.

Each file holds one module.  `Wrappers`, `JsInt`, `Congruence`, `Divisors`, `Buffers`
and `Utf8` hold what several models use: options and results, JavaScript's 32-bit
operators, congruences, common divisors, writes into arrays, and UTF-8 as in section 3
of RFC 3629.

## Where the code does not do what one might expect

- Two negative big integers of different lengths are compared the wrong way round
  (`BigIntegers.BigInteger.CompareTo`).
- The modular inverse is an inverse, but not always between 0 and the modulus
  (`InverseSteps.NotCanonical`).  How far it can be off is bounded by the bits of the two
  numbers (`InverseRange.InverseWithin`, `InverseRange.InverseWithinSmall`), and it is
  in range whenever the odd part of one of them is at most 9, as for powers of two
  (`InverseRange.InverseCanonical`, `InverseRange.PowersCanonical`).
- A parser asked about a symbol from i to an earlier j says yes if and only if the
  symbol ends some constituent of a parse at j, so the answer is right exactly when
  i <= j or the symbol ends none there (`EarleyParsers.Parsed`).
- A stream frame whose type is a name that every JavaScript object inherits, such as
  `constructor`, is written without complaint and never read back
  (`StreamEnvelope.InheritedTypeLost`).
- A stream frame whose length with its header exceeds 32 bits stops the stream
  (`Deframers.TooLongStops`).
- A batch of no messages never settles (`Launchers.NoneWithoutMessages`).
- A tile of 2^31 pixels or more is counted wrongly (`Tiles.PixelsAddUp`), so the pixel
  count of a job is right exactly when its largest tile is smaller
  (`Tiles.RenderInTiles`).
- Strings and names with unpaired surrogates do not survive the JSON fast path
  (`BridgeRoundTrip.RoundTrip`, `BridgeStrings.LossyCollides`).

## Model

| member | source | states |
|---|---|---|
| `NboyerTerms.IsTermEqual` | bench/v8-bench.js:7991-8024 | the comparison of two terms answers yes exactly for equal terms |
| `NboyerTerms.IsTermMember` | bench/v8-bench.js:8025-8037 | a term is found in a list exactly when it occurs there |
| `NboyerTerms.SubstitutionLemma` | bench/v8-bench.js:7860-7868 | evaluating a substituted term is evaluating the term under the assignment that the substitution induces, in every interpretation |
| `NboyerUnify.UnifySound` | bench/v8-bench.js:7940-7984 | success from any substitution: whatever agrees with the final one agrees with the initial one and sends the pattern to the term |
| `NboyerUnify.UnifyComplete` | bench/v8-bench.js:7940-7984 | any substitution that fixes numbers, agrees so far and sends the pattern to the term is found and still agrees afterwards |
| `NboyerUnify.UnifyDecidesInstance` | bench/v8-bench.js:7940-7984 | from the empty substitution: success if and only if the term is an instance of the pattern; the result sends pattern to term and is the most general such substitution |
| `Nboyer.Prover.OneWayUnify1` | bench/v8-bench.js:7940-7984 | the procedure on the global substitution computes the unification function, answer and global alike, also when it fails half way through the arguments |
| `Nboyer.Prover.AddLemma` | bench/v8-bench.js:8038-8070 | an equation, with a right side or without, comes first among the lemmas of its head symbol, and the lemmas of all other heads stay; anything else is reported and files nothing |
| `Nboyer.Prover.Rewrite` | bench/v8-bench.js:7909-7934 | the procedure with its global substitution and counter computes the rewriting function and counts its calls |
| `Nboyer.Prover.RewriteArgs` | bench/v8-bench.js:7935-7938 | the same for argument lists |
| `Nboyer.RewriteDeterministic` | bench/v8-bench.js:7909-7938 | what a rewrite that returns gives does not depend on how many applications it is allowed |
| `Nboyer.RewriteSound` | bench/v8-bench.js:7909-7938 | in every model of the lemmas a rewrite that returns keeps the value of the term, for all assignments |
| `Nboyer.FirstMatchExact` | bench/v8-bench.js:7909-7934 | no lemma applies to a term exactly when the term is an instance of no left side |
| `NboyerTraces.FirstMatchChoice` | bench/v8-bench.js:7917-7930 | of all lemmas of which the term is an instance the one nearest to the front is applied, under the least substitution that sends its left side to the term; without a right side it fails |
| `NboyerTraces.RewriteExact` | bench/v8-bench.js:7909-7938 | a rewrite gives a term and a count if and only if there is a trace of calls with that result and as many calls, in which each call rewrites its arguments, applies the first lemma that matches and goes on, or finds that none matches |
| `NboyerTraces.NormalCount` | bench/v8-bench.js:7909-7938 | a term in which no lemma matches anywhere stays as it is, and counts one for each of its nodes, leaves included |
| `Nboyer.RewriteNormal` | bench/v8-bench.js:7909-7938 | a rewrite that returns leaves no instance of a left side anywhere in the term |
| `Nboyer.TautologySound` | bench/v8-bench.js:7869-7907 | a yes under lists of terms held true and false is a true term in every model in which `if` branches on truth |
| `Nboyer.ProverSound` | bench/v8-bench.js:8072-8104 | a rewritten conjecture that the checker accepts is true in every model of the lemmas, under every assignment |
| `NboyerDecides.NoIsRefuted` | bench/v8-bench.js:7869-7907 | a refusal comes with a valuation that respects both lists and makes the term fail |
| `NboyerDecides.TautologypDecides` | bench/v8-bench.js:7869-7907 | on a term without `if` in conditions the checker says yes exactly when the term holds under every valuation |
| `NboyerDecides.RewriteIfArity` | bench/v8-bench.js:7909-7938 | rewriting keeps every `if` at three arguments |
| `NboyerDecides.IfOfIfMatches` | bench/v8-bench.js:7909-7934 | an `if` with an `if` as condition is always an instance of the lemma about it |
| `NboyerDecides.ProverDecides` | bench/v8-bench.js:8072-8104 | with that lemma filed, a rewrite that returns leaves a term on which the checker is an exact decision and never fails |
| `BigIntegers.BigInteger.FromInt` | bench/v8-bench.js:1893-1900 | the number is the given integer, clamped, for -1 and for values below one digit |
| `BigIntegers.BigInteger.CopyTo` | bench/v8-bench.js:1883-1890 | the copy has the same value, length, sign and digits, and copying a number to itself is harmless |
| `BigIntegers.BigInteger.Clone` | bench/v8-bench.js:2379 | a new object with the same value |
| `BigIntegers.BigInteger.Clamp` | bench/v8-bench.js:1946-1950 | removes excess digits and keeps the value |
| `BigIntegers.BigInteger.SubTo` | bench/v8-bench.js:2081-2113 | r is exactly this - a and clamped, for all signs and lengths, also when r is one or both of the operands |
| `BigIntegers.BigInteger.AddTo` | bench/v8-bench.js:2638-2671 | r is exactly this + a and clamped, for all signs and lengths, also when r is one or both of the operands |
| `BigIntegers.BigInteger.Negate` | bench/v8-bench.js:1984 | the negated value, clamped |
| `BigIntegers.BigInteger.Abs` | bench/v8-bench.js:1987 | the absolute value; the object itself when it is not negative |
| `BigIntegers.BigInteger.CompareTo` | bench/v8-bench.js:1990-2001 | the sign of this - a, except for two negative numbers of different lengths, where the answer is exactly the wrong one |
| `BigIntegers.BigInteger.IsEven` | bench/v8-bench.js:2318 | true exactly for even values |
| `BigIntegers.BigInteger.Signum` | bench/v8-bench.js:2410-2415 | the sign of the value |
| `BigIntegers.BigInteger.DLShiftTo` | bench/v8-bench.js:2022-2030 | multiplies by a power of the digit base |
| `BigIntegers.BigInteger.DRShiftTo` | bench/v8-bench.js:2033-2039 | divides by a power of the digit base, rounding down, also in place |
| `BigIntegers.BigInteger.LShiftTo` | bench/v8-bench.js:2042-2058 | multiplies by a power of two, exactly, also in place and for negative numbers |
| `BigIntegers.BigInteger.RShiftTo` | bench/v8-bench.js:2061-2078 | divides by a power of two, rounding down, also in place and for negative numbers |
| `BigMultiply.HalfWordStep` | bench/v8-bench.js:1811-1825 | one step of the half-word product is exact, and its intermediate values stay below 2^31 |
| `BigIntegers.BigInteger.Am` | bench/v8-bench.js:1811-1825 | adds x times n digits to n digits of w exactly, with the last carry returned, for x below two digits and a carry below three; with aliasing excluded nothing else changes |
| `BigIntegers.BigInteger.MultiplyTo` | bench/v8-bench.js:2118-2130 | r is exactly the product, for all signs |
| `BigIntegers.BigInteger.SquareRow` | bench/v8-bench.js:2141-2147 | one row of the square adds the digit's own square and its doubled mixed products, with the extra carry |
| `BigIntegers.BigInteger.SquareTo` | bench/v8-bench.js:2134-2151 | r is exactly the square |
| `BigIntegers.BigInteger.Mod` | bench/v8-bench.js:2208-2213 | the non-negative remainder for every sign, given the remainder of absolute values |
| `BigIntegers.LBit` | bench/v8-bench.js:2579-2588 | the index of the lowest set bit of a digit |
| `BigIntegers.BigInteger.GetLowestSetBit` | bench/v8-bench.js:2591-2597 | the exponent of two in the value for all signs, -1 exactly for zero |
| `BitWindows.NBits` | bench/v8-bench.js:2004-2012 | the bit length of a digit |
| `ModPow.BitLength` | bench/v8-bench.js:2015-2019 | the bit length of a non-negative number |
| `BigGcd.Gcd` | bench/v8-bench.js:2861-2886 | terminates for all pairs of numbers and returns their greatest common divisor |
| `BigGcd.HalveRound` | bench/v8-bench.js:2872-2883 | one round keeps the common divisors, leaves one number odd and makes the sum smaller |
| `BigGcd.ExactShift` | bench/v8-bench.js:2867-2871 | dividing by fewer bits than there are trailing zeros is exact |
| `BigGcd.LeadsHalfDifference` | bench/v8-bench.js:2875-2882 | half the difference of two odd numbers has the same common divisors |
| `NewtonInverse.NewtonStep` | bench/v8-bench.js:2247-2253 | one Newton iteration on cut operands doubles the number of correct bits |
| `NewtonInverse.InverseOfDigit` | bench/v8-bench.js:2245-2255 | -1/x modulo 2^28 for every odd digit, with the signed remainder of the language and no rounding |
| `Montgomeries.InvDigit` | bench/v8-bench.js:2242-2256 | 0 for an empty or even number, otherwise the digit r with this[0] * r congruent to -1 |
| `MontgomeryLemmas.SplitWord` | bench/v8-bench.js:2291-2293 | the word computed from halves is x[i] * mp modulo 2^28 |
| `Montgomeries.Montgomery.constructor` | bench/v8-bench.js:2259-2266 | for every odd positive modulus the constants are the split negative inverse |
| `Montgomeries.Montgomery.PropagateCarry` | bench/v8-bench.js:2297-2298 | the carry of a round moves up and stops inside the padding |
| `Montgomeries.Montgomery.Round` | bench/v8-bench.js:2290-2299 | one round adds the multiple of m that makes its digit zero, carries included |
| `Montgomeries.Montgomery.Reduce` | bench/v8-bench.js:2286-2303 | for x below m R the result x' is below m and x' R is congruent to x |
| `Montgomeries.Montgomery.Convert` | bench/v8-bench.js:2269-2275 | the residue of x R, also for negative x |
| `Montgomeries.Montgomery.Revert` | bench/v8-bench.js:2278-2283 | the number that a residue stands for, modulo m |
| `Montgomeries.Montgomery.MulTo` | bench/v8-bench.js:2309 | the product of residues stands for the product |
| `Montgomeries.Montgomery.SqrTo` | bench/v8-bench.js:2306 | the square of a residue stands for the square |
| `ModPow.Reducer.MulTo` | bench/v8-bench.js:2216-2230 | under either reduction scheme products of representatives represent products |
| `BitWindows.WindowAcross` | bench/v8-bench.js:2834-2837 | a window that straddles a digit boundary is put together from two digits |
| `ModPow.ReadWindow` | bench/v8-bench.js:2833-2837 | k bits of the exponent from any position, within a digit, across digits and below bit 0 |
| `BitWindows.WindowStripped` | bench/v8-bench.js:2839-2841 | without trailing zeros a window leaves an odd number of n bits that extends the prefix of the exponent |
| `ModPow.OddPowers` | bench/v8-bench.js:2817-2828 | the table holds exactly the odd powers below the window size |
| `ModPow.ApplyWindow` | bench/v8-bench.js:2846-2850 | n squarings with exchanged buffers and one product append a window to the exponent so far |
| `ModPow.ZeroRun` | bench/v8-bench.js:2852-2855 | each zero below a window costs one squaring and moves one bit down, over digit boundaries |
| `ModPow.SlideWindows` | bench/v8-bench.js:2830-2857 | all windows together represent the power |
| `ModPow.ModPower` | bench/v8-bench.js:2801-2858 | this^e modulo m for every e > 0, every base and every positive modulus under the scheme chosen for it, and 1 for e = 0 |
| `InverseSteps.RunKeeps` | bench/v8-bench.js:2905-2934 | the loop keeps u = a m + b x and v = c m + d x for even moduli, the congruences for odd ones |
| `InverseSteps.InverseCorrect` | bench/v8-bench.js:2900-2939 | zero exactly when x and m have a common divisor, otherwise an inverse, for all x > 0 and m > 1 |
| `InverseSteps.NotCanonical` | bench/v8-bench.js:2936-2938 | the result is not always a canonical residue: the inverse of 1748 modulo 3659 is returned as -651 |
| `InverseRange.RunNear` | bench/v8-bench.js:2907-2934 | over the whole loop the coefficients move out by at most a quarter of the modulus a round on either side, for odd and even moduli |
| `InverseRange.RoundsBounded` | bench/v8-bench.js:2907-2934 | the loop takes at most as many rounds as the product of the two numbers has bits |
| `InverseRange.InverseWithin` | bench/v8-bench.js:2900-2939 | for all x and m with x m < 2^n the result is at most (n - 5) / 4 moduli below 0 and at most (n - 3) / 4 moduli large |
| `InverseRange.InverseWithinSmall` | bench/v8-bench.js:2900-2939 | for every m and all x with an odd part below 2^n it is at most (n - 2) / 2 moduli below 0 and at most (n - 1) / 2 moduli large |
| `InverseRange.InverseCanonical` | bench/v8-bench.js:2900-2939 | the result is between 0 and m whenever the odd part of x or that of m is at most 9 |
| `InverseRange.PowersCanonical` | bench/v8-bench.js:2900-2939 | in particular for the inverse of a power of two and modulo a power of two |
| `BigInverse.OneRound` | bench/v8-bench.js:2905-2934 | one round on the six numbers in place is one round of the integer algorithm |
| `BigInverse.ModInverse` | bench/v8-bench.js:2900-2939 | the digit algorithm terminates and returns what the integer algorithm returns, for odd and for even m |
| `SplayShapes.BstAscending` | bench/v8-bench.js:10885-10895 | a tree is a search tree exactly when its in-order keys ascend |
| `SplayTrees.RotationKeeps` | bench/v8-bench.js:11064-11069 | both rotations keep nodes, order and search order |
| `SplayTrees.RotateRight` | bench/v8-bench.js:11066-11069 | the three link writes of a rotation give the rotated tree |
| `SplayTrees.LinkRight` | bench/v8-bench.js:11075-11077 | linking moves the current node with its right subtree to the right tree, on the heap |
| `SplayTrees.LinkLeft` | bench/v8-bench.js:11093-11095 | the mirror image |
| `SplayTrees.GoLeft` | bench/v8-bench.js:11060-11077 | one pass of the left branch, rotation, break and link included, keeps the state of the loop and goes down |
| `SplayTrees.GoRight` | bench/v8-bench.js:11078-11095 | the same for the right branch |
| `SplayTrees.Assemble` | bench/v8-bench.js:11101-11104 | the four final writes through the shared dummy give one tree |
| `SplayTrees.SplayNodes` | bench/v8-bench.js:11047-11106 | same nodes, same in-order sequence, still a search tree, the root is the key or its in-order neighbour, and the tree is that of the function on tree values |
| `SplayTrees.SplayTree.Splay` | bench/v8-bench.js:11047-11106 | the same for the object, with nothing to do on an empty tree |
| `SplayDepths.SplayHalvesPath` | bench/v8-bench.js:11047-11106 | what the rotations are for: every node on the search path comes to lie at half its depth plus two at most, and no node goes down by more than two levels |
| `SplayDepths.Depths` | bench/v8-bench.js:11057-11099 | the same from any state of the loop, with the lengths of the two spines against the depth reached |
| `SplayTrees.RootFound` | bench/v8-bench.js:10982-10983 | after a splay the root decides whether the map has the key, and with which value |
| `SplayTrees.SplayTree.Insert` | bench/v8-bench.js:10914-10936 | a new key enters the map and is the root; a key already there changes nothing, not even its value |
| `SplayTrees.SplayTree.Remove` | bench/v8-bench.js:10947-10968 | takes exactly this key out of the map and returns its node; an absent key is an error that leaves the map alone |
| `SplayTrees.SplayTree.Find` | bench/v8-bench.js:10978-10984 | the node of the key, at the root, exactly when the map has the key; the map stays, the tree is splayed |
| `SplayTrees.SplayTree.FindMax` | bench/v8-bench.js:10990-10999 | the last node in order of the start node's subtree or of the whole tree |
| `SplayTrees.SplayTree.FindGreatestLessThan` | bench/v8-bench.js:11006-11022 | the greatest smaller key; null exactly when all keys are at least the given one |
| `SplayTrees.Traverse` | bench/v8-bench.js:11140-11148 | the visitor sees the keys of the subtree in order, appended to what was there |
| `SplayTrees.SplayTree.ExportKeys` | bench/v8-bench.js:11028-11034 | strictly ascending, exactly the keys of the map |
| `SplayTrees.KeysAreMapKeys` | bench/v8-bench.js:11028-11034 | the in-order keys of a search tree are the keys of its map, each once |
| `SplayRuns.Benchmark.InsertNewNode` | bench/v8-bench.js:10825-10834 | the first draw that is no key yet enters the map |
| `SplayRuns.Benchmark.Replace` | bench/v8-bench.js:10868-10873 | a new key comes, and the greatest key below it goes; without one the new key goes itself |
| `SplayRuns.Benchmark.Setup` | bench/v8-bench.js:10838-10841 | the tree gets its configured size, unless the draws bring fewer new values than that |
| `SplayRuns.Benchmark.Run` | bench/v8-bench.js:10866-10874 | such replacements one after the other; the size stays, and as many new values among the draws as replacements suffice |
| `SplayRuns.Benchmark.TearDown` | bench/v8-bench.js:10844-10863 | the final check fails exactly on a wrong size; it never finds unsorted keys |
| `SplayRuns.BenchmarkPasses` | bench/v8-bench.js:10838-10874 | if the draws have as many different values as there are insertions, set-up, run and final check end without an error; whatever the draws, the final check never fails |
| `EarleyTables.Ind` | bench/v8-bench.js:8141-8155 | an index of the symbol, or none exactly when it is absent |
| `EarleyTables.CollectSymbols` | bench/v8-bench.js:8156-8182 | every symbol of the grammar once, the head of the first entry first |
| `EarleyTables.CountConfs` | bench/v8-bench.js:8184-8207 | as many configurations as the numbering needs |
| `EarleyTables.AddRule` | bench/v8-bench.js:8243-8261 | the four tables stay exact for one more rule |
| `EarleyTables.MakeTables` | bench/v8-bench.js:8156-8268 | starters, enders, predictors and steps say exactly which configurations start, complete and await a symbol |
| `EarleySets.AdjoinOk` | bench/v8-bench.js:8369-8372 | adding a member keeps both threaded lists well formed and acyclic |
| `EarleySets.MergeOk` | bench/v8-bench.js:8366-8368 | merging joins the list of new members to the other one |
| `EarleySets.State.GetSet` | bench/v8-bench.js:8361-8365 | a missing set is created empty; items stay |
| `EarleySets.State.Adjoin` | bench/v8-bench.js:8369-8372 | one more item, and the configuration is on the agenda |
| `EarleySets.State.AdjoinAbsent` | bench/v8-bench.js:8385-8388 | the test before an addition: the item is there afterwards, once |
| `EarleySets.State.TakeNext` | bench/v8-bench.js:8446-8453 | takes a configuration with new members off the agenda and marks exactly these as dealt with; an empty agenda means all are |
| `EarleySets.State.Union` | bench/v8-bench.js:8404-8419 | adds exactly the members of another set that are dealt with, also when both sets are in one state |
| `EarleySets.State.Follow` | bench/v8-bench.js:8513 | the link of a member is the next member |
| `EarleyParsers.StartRules` | bench/v8-bench.js:8456-8469 | prediction starts every rule of the symbol, soundly |
| `EarleyParsers.AdvanceEmpty` | bench/v8-bench.js:8470-8484 | a symbol already complete here moves the dot for all members at once |
| `EarleyParsers.AdvancePredictor` | bench/v8-bench.js:8502-8515 | for one configuration before whose dot the completed symbol stands the dot moves for every new member |
| `EarleyParsers.Complete` | bench/v8-bench.js:8488-8521 | completion does so for all of them |
| `EarleyParsers.Step` | bench/v8-bench.js:8445-8523 | one configuration off the agenda keeps soundness and the closure under prediction and completion, and makes progress |
| `EarleyParsers.Forward` | bench/v8-bench.js:8420-8529 | the pass terminates with a sound and closed state |
| `EarleyParsers.FillChart` | bench/v8-bench.js:8779-8791 | all states together are a sound and closed chart |
| `EarleyCharts.AdvanceSound` | bench/v8-bench.js:8502-8515 | moving a dot over a derived symbol is sound |
| `EarleyCharts.ClosingComplete` | bench/v8-bench.js:8486-8522 | dealing with the new members of a complete configuration keeps the closure |
| `EarleyCharts.TreeFound` | bench/v8-bench.js:8420-8529 | a closed chart has the complete item of every derivation tree of a predicted symbol |
| `EarleyCharts.GoalFound` | bench/v8-bench.js:8420-8529 | the chart has a complete goal exactly when the grammar derives the input |
| `EarleyParses.Replace` | bench/v8-bench.js:8795-8890 | a constituent of a parse can be replaced by any tree for the same symbol and tokens |
| `EarleyParses.UsefulParts` | bench/v8-bench.js:8842-8877 | what an item that can be finished to a parse was made from can be finished to one |
| `EarleyParses.KeptExactly` | bench/v8-bench.js:8795-8892 | after the backward pass the complete items are exactly the constituents of parses of the whole input |
| `EarleyParsers.KeepPairs` | bench/v8-bench.js:8856-8866 | for one ending of the symbol all pairs of predecessor and symbol that the chart has are kept |
| `EarleyParsers.PruneStep` | bench/v8-bench.js:8828-8882 | one configuration off the backward agenda: what its new members were made from is kept, and nothing else |
| `EarleyParsers.Prune` | bench/v8-bench.js:8795-8890 | the backward pass terminates, keeps the goals and everything they were made from, and only items of parses |
| `EarleyParsers.IsParsed` | bench/v8-bench.js:8530-8558 | the answer for any positions: about kept items if they are in order, about the sets there are if not |
| `EarleyParsers.Parsed` | bench/v8-bench.js:8897-8903 | for every grammar, input and symbol: from i to j >= i yes if and only if that is a constituent of a parse of the whole input, and for i > j if and only if the symbol ends one at j |
| `EarleyParsers.Recognise` | bench/v8-bench.js:8530-8558 | the goal over the whole input is answered yes if and only if there is a grammar and it derives the input |
| `EarleyParses.ConstituentForwards` | bench/v8-bench.js:8546 | no constituent ends before its start, whatever the parser is asked |
| `RichardsPackets.AddTo` | bench/v8-bench.js:811-819 | the packet becomes the last of the list; all other links stay |
| `RichardsPackets.ExactlyOnePlace` | bench/v8-bench.js:472-482 | under the partition a packet is in one place and in no other |
| `RichardsTasks.Tcb.constructor` | bench/v8-bench.js:544-556 | a new block is suspended, and runnable exactly when it has packets |
| `RichardsBooks.SetState` | bench/v8-bench.js:581-603 | writing one state changes the entry of this block only |
| `RichardsBooks.WriteLetters` | bench/v8-bench.js:724-729 | four letters continuing after the last one used, in order, and the read position at the start |
| `RichardsBooks.LetterCycle` | bench/v8-bench.js:726-727 | letters go round the alphabet |
| `RichardsBooks.CopyLetter` | bench/v8-bench.js:764-765 | the device packet gets the letter at the read position, and only this position moves |
| `RichardsBooks.CopiedLetter` | bench/v8-bench.js:764-765 | the same for the function on plain values: no other letter, position or packet changes |
| `RichardsBooks.LetteredInOrder` | bench/v8-bench.js:722-729 | a packet gets four letters in a row, cyclically, none of them read |
| `RichardsBooks.FourLettersInOrder` | bench/v8-bench.js:722-765 | the letters that devices get from one work packet are four letters in a row of the alphabet |
| `RichardsBooks.SeededBits` | bench/v8-bench.js:658-668 | the idle task's register shifts down by one bit, an odd seed flips bits 3, 12, 14 and 15, and the bit that falls out chooses the device |
| `RichardsBooks.SeededInjective` | bench/v8-bench.js:661-667 | different seeds have different successors |
| `RichardsBooks.TurnsLast` | bench/v8-bench.js:472-482 | n + 1 turns are n turns and one more, so the loop refines the recursive function |
| `RichardsScheduler.Scheduler.AddTask` | bench/v8-bench.js:463-467 | a block is linked in front with its packets, which have no other place |
| `RichardsScheduler.Scheduler.AddRunningTask` | bench/v8-bench.js:451-454 | the same for a block that runs at once |
| `RichardsScheduler.Scheduler.Release` | bench/v8-bench.js:488-497 | clears the held bit of this block only; the higher priority is next; an unknown block gives null |
| `RichardsScheduler.Scheduler.HoldCurrent` | bench/v8-bench.js:504-508 | sets the held bit of the current block only, counts, and the linked block is next |
| `RichardsScheduler.Scheduler.SuspendCurrent` | bench/v8-bench.js:514-517 | sets the suspended bit of the current block only, which is looked at again |
| `RichardsScheduler.Scheduler.QueuePacket` | bench/v8-bench.js:525-532 | the packet in hand goes to the end of one queue with the sender's address, or nowhere without a receiver; effect and next block are those of the function on plain values |
| `RichardsScheduler.Scheduler.CheckPriorityAdd` | bench/v8-bench.js:629-639 | end of the queue, runnable bit, and the receiver is next only if it had no packets and has the higher priority |
| `RichardsScheduler.Scheduler.TakePacket` | bench/v8-bench.js:610-620 | the first packet leaves the queue and the block runs, runnable exactly while packets remain |
| `RichardsScheduler.Scheduler.RunIdle` | bench/v8-bench.js:658-668 | the idle block's run is the function of the same name: shift register, device and countdown |
| `RichardsScheduler.Scheduler.DevicePut` | bench/v8-bench.js:691-694 | a device keeps a packet in hand and never overwrites one |
| `RichardsScheduler.Scheduler.RunDevice` | bench/v8-bench.js:685-695 | a device's run refines its function and keeps every packet in one place |
| `RichardsScheduler.Scheduler.RunWorker` | bench/v8-bench.js:714-732 | a worker's run refines its function: other handler, new letters, sent on |
| `RichardsScheduler.Scheduler.HandlerAdd` | bench/v8-bench.js:750-756 | a handler files a packet at the end of the list of its kind |
| `RichardsScheduler.Scheduler.RunHandler` | bench/v8-bench.js:749-775 | a handler's run refines its function in all five cases |
| `RichardsScheduler.Scheduler.RunBlock` | bench/v8-bench.js:608-622 | a block's run, packet taken or not, refines the function for its kind |
| `RichardsScheduler.Scheduler.Step` | bench/v8-bench.js:473-481 | one turn keeps every packet in exactly one place and the bits true, and its effect on the whole state is one turn of the function |
| `RichardsScheduler.Scheduler.Schedule` | bench/v8-bench.js:472-482 | any number of turns from the head of the list: the same, as a whole |
| `RichardsScheduler.Scheduler.AtEveryTurn` | bench/v8-bench.js:472-482 | between turns each packet has one place, the runnable bit is set exactly for blocks with packets, and a suspended device holds none |
| `RichardsEnds.TurnProgresses` | bench/v8-bench.js:472-482 | with blocks and packets of the benchmark's kinds every turn keeps them so and makes a natural number smaller: countdown, packets on their way, letters read, blocks awake and the position in the list together |
| `RichardsEnds.Moves` | bench/v8-bench.js:525-532 | a packet that goes from one place to another, with new mail, moves its own weight in the measure and no other packet's |
| `RichardsScheduler.Scheduler.ScheduleAll` | bench/v8-bench.js:472-482 | so the loop ends from every such set-up, whatever the positive countdown and the number of packets, and all that holds at every turn holds then |
| `RichardsScheduler.RunRichards` | bench/v8-bench.js:331-361 | the six blocks with their priorities, links, roles, states and packets; the run of the function on plain values from there, to its end, in at most 50534 turns; whether the two counts are the expected ones is the answer |
| `BridgeStrings.ThereAndBack` | src/bridge/v8_codec.rs:275-279 | a JavaScript string survives the conversion to a Rust string and back exactly when it is well formed |
| `BridgeStrings.LossyExactly` | src/bridge/v8_codec.rs:275-279 | any string keeps its units, but for U+FFFD in place of each surrogate that is not half of a pair |
| `BridgeStrings.LossyCollides` | src/bridge/v8_codec.rs:275-279 | ill-formed strings may become equal |
| `BridgeTrees.WalkExact` | src/bridge/v8_codec.rs:254-341 | the visit with its growing list of hashes succeeds exactly on acceptable trees and collects exactly their hashes |
| `BridgeJson.TryFastJsonFromV8` | src/bridge/v8_codec.rs:254-341 | terminates on every heap graph; a result is the JSON of the tree the value unfolds to, visited to the end; none means that no such tree is visited to the end |
| `BridgeJson.FastArray` | src/bridge/v8_codec.rs:297-314 | the same for the elements of an array |
| `BridgeJson.FastObject` | src/bridge/v8_codec.rs:316-338 | the same for the members of an object, with the marker test |
| `BridgeRoundTrip.FastJson` | src/bridge/v8_codec.rs:254-341 | a result exactly when the value unfolds to an acceptable tree: finite, plain, unmarked, of depth at most 64 and with different hashes, within the limit on containers |
| `BridgeRoundTrip.AcceptedUnshared` | src/bridge/v8_codec.rs:297-303 | nothing accepted is shared, even if hashes collide elsewhere |
| `BridgeRoundTrip.PlainUnmarked` | src/bridge/v8_codec.rs:238-249 | the JSON of an accepted tree has no wire markers at any depth |
| `BridgeRoundTrip.JsonToV8Plain` | src/bridge/v8_codec.rs:344-382 | the loops rebuild what the recursive definition says, members set by name |
| `BridgeRoundTrip.ShallowCutFree` | src/bridge/v8_codec.rs:349-351 | what comes from depth 64 is rebuilt without reaching the cut at 200 |
| `BridgeRoundTrip.RoundTrip` | src/bridge/v8_codec.rs:344-382 | rebuilding gives the value back exactly when all its strings and names are well formed |
| `BridgeRoundTrip.LastWins` | src/bridge/v8_codec.rs:327-336 | of properties whose names become equal the last one gives the value, and none is missing |
| `BridgeRoundTrip.ThereAndBackAgain` | src/bridge/v8_codec.rs:254-382 | both conversions together, on any heap with any hashes |
| `BufferViews.BufferViewWindow` | src/bridge/v8_codec.rs:394-420 | none exactly when the span overflows; the requested window if it fits, the same length from the start if only that fits, and else as many elements as there are bytes for behind the offset |
| `StreamEnvelope.EncodeStreamFrameEnvelope` | src/shared/stream-envelope.ts:48-88 | an envelope exactly for encodable frames, and which bytes it has |
| `StreamEnvelope.DecodeStreamFrameEnvelope` | src/shared/stream-envelope.ts:90-127 | total and inside the bytes on every input, and its answer is that of the function on bytes |
| `StreamEnvelope.AcceptedExactly` | src/shared/stream-envelope.ts:90-127 | bytes are accepted if and only if they are the eight magic bytes, a code from 1 to 7, two big-endian lengths, that many bytes of id and auxiliary text, and a rest, with an id that decodes to some text |
| `StreamEnvelope.EnvelopeRead` | src/shared/stream-envelope.ts:90-127 | what each code makes of the decoded texts and the rest, and that nothing else is refused |
| `StreamEnvelope.WrittenBytes` | src/shared/stream-envelope.ts:48-88 | the bytes written for each type: its code, the id, its one text or number, and a chunk only in a chunk frame |
| `StreamEnvelope.CreditTruncated` | src/shared/stream-envelope.ts:61 | a credit loses its fraction and is never negative |
| `StreamEnvelope.DecimalDigits` | src/shared/stream-envelope.ts:61 | it is written digit by digit, without leading zeros |
| `StreamEnvelope.ParsedEnvelope` | src/shared/stream-envelope.ts:48-127 | what the reader makes of any written frame |
| `StreamEnvelope.EnvelopeRoundTrip` | src/shared/stream-envelope.ts:48-127 | a frame comes back normalised exactly when its texts survive |
| `StreamEnvelope.SurvivesExactly` | src/shared/stream-envelope.ts:110-113 | a text survives exactly when it is well formed and does not start with a byte order mark |
| `StreamEnvelope.EnvelopeInjective` | src/shared/stream-envelope.ts:48-88 | different normalised frames have different envelopes |
| `StreamEnvelope.InheritedTypeLost` | src/shared/stream-envelope.ts:49-50 | names that every object inherits pass the type test, are written, and never read back |
| `Utf8.DecodeEncode` | src/shared/stream-envelope.ts:24-25 | every string of scalar values survives UTF-8 (RFC 3629, section 3) |
| `Utf8.BytesExact` | src/shared/stream-envelope.ts:24-25 | the table of RFC 3629, section 3: lengths, first bytes and six bits in each other byte |
| `Utf8.DecodeExact` | src/shared/stream-envelope.ts:24-25 | bytes that decode without a replacement character are the UTF-8 of the result |
| `Utf8.Malformed` | src/shared/stream-envelope.ts:24-25 | a start of a character that does not go on, or a byte that starts none, becomes one replacement character |
| `Utf8.TextDecodeEncode` | src/shared/stream-envelope.ts:110-113 | the decoder gives the string back without a leading byte order mark |
| `Deframers.Worker.Receive` | ipc-bench/src/bench.ts:754-806 | one chunk: all complete frames are acknowledged in order, in one message for all or one for each, and the rest is kept |
| `Deframers.Chunked` | ipc-bench/src/bench.ts:760-802 | on any bytes, taking frames from a first part and then from the rest with a second part is taking them from both together |
| `Deframers.Worker.ReceiveAll` | ipc-bench/src/bench.ts:754-806 | any chunks amount to their concatenation |
| `Deframers.FirstFrame` | ipc-bench/src/bench.ts:760-802 | on any bytes: where the fields of the first frame are, when it is complete, that lengths which wrap around stop the stream, and that its acknowledgement comes first |
| `Deframers.ChecksumBytes` | ipc-bench/src/bench.ts:779-791 | the low byte of the checksum is that of the size with the first byte, the next one that with the last byte, by exclusive or, and the rest is the size |
| `Deframers.BinaryAck` | ipc-bench/src/bench.ts:788-792 | a binary payload is acknowledged with its length and a checksum of length, first and last byte; an empty one with zeros |
| `Deframers.TextAck` | ipc-bench/src/bench.ts:782-787 | a text with the length of its UTF-8, and a checksum of that with the low bytes of its first and last unit |
| `Deframers.JsonAck` | ipc-bench/src/bench.ts:770-781 | a JSON payload with what the parameter says of it, an empty one with zeros |
| `Deframers.UnitSummary` | ipc-bench/src/bench.ts:788-792 | with several units in a frame the first unit is summed up |
| `Deframers.FrameBytes` | ipc-bench/src/bench.ts:897-914 | a written frame byte by byte |
| `JsInt.XorBit` | ipc-bench/src/bench.ts:791 | a bit of an exclusive or is the sum of the two bits, without carry |
| `JsInt.XorNatBit` | ipc-bench/src/bench.ts:791 | the same in plain arithmetic |
| `JsInt.XorNatTwice` | ipc-bench/src/bench.ts:791 | an exclusive or done twice is undone |
| `Deframers.FrameHeader` | ipc-bench/src/bench.ts:897-914 | the header of a written frame is read back |
| `Deframers.FramesFoundExactly` | ipc-bench/src/bench.ts:760-802 | written frames below 4 GiB: one acknowledgement each, in order, and an empty buffer if and only if every frame fits 32 bits with its header |
| `Deframers.FrameFoundExactly` | ipc-bench/src/bench.ts:765-767 | one frame of any length is read back if and only if it fits |
| `Deframers.TooLongStops` | ipc-bench/src/bench.ts:765-767 | a frame whose length wraps with its header stops the stream for good |
| `Deframers.DeframeChunks` | ipc-bench/src/bench.ts:747-810 | however written frames are cut: one acknowledgement each with its id, size and checksum, and an empty buffer |
| `Deframers.MergeFrames` | ipc-bench/src/bench.ts:921-927 | the frames of a worker are merged one after the other |
| `SendOrReject.TrySendKeeps` | src/lib.rs:37-77 | a send keeps all promises accounted for; a control message is refused only by a closed channel, a full one discards data messages only |
| `SendOrder.DataSent` | src/lib.rs:37-77 | a data message on an open channel with room is the last of its queue and nothing else changes; otherwise it is noted with the reason |
| `SendOrder.ControlSent` | src/lib.rs:37-77 | a control message on an open channel with room is the last of its queue; at a full one it waits; at a closed one its promise is rejected |
| `SendOrder.Requested` | src/lib.rs:110-121 | which messages carry a promise, and that the worker is looked up at the request |
| `SendOrReject.UnblockKeeps` | src/lib.rs:47-49 | the same when a blocked control message gets room or the channel closes |
| `SendOrReject.RequestKeeps` | src/lib.rs:110-147 | making a message and routing it, with a worker or without |
| `SendOrReject.GuardDropKeeps` | src/bridge/promise.rs:37-44 | a guard dropped without settling leaks its promise and never drops it |
| `SendOrReject.SettlerDropKeeps` | src/bridge/promise.rs:261-282 | a settler dropped without settling rejects through the channel |
| `SendOrReject.SettleViaChannelKeeps` | src/bridge/promise.rs:113-163 | settling through the channel takes the promise first |
| `SendOrReject.SettleInContextKeeps` | src/bridge/promise.rs:166-258 | settling at once takes the promise first |
| `SendOrReject.PerformKeeps` | src/bridge/promise.rs:79-94 | a task that runs settles its promise, once |
| `SendOrReject.StepKeeps` | src/lib.rs:37-147 | every step of producers, consumer, tasks and close keeps the invariant |
| `SendOrReject.RunKeeps` | src/lib.rs:37-147 | so does every run |
| `SendOrder.FailureJustified` | src/lib.rs:37-147 | a step notes one failure at most, of a message that it handles, with the one reason that is true in that state: no worker, a closed channel, or a full one of the data plane |
| `SendOrder.OldestTaken` | src/worker/runtime.rs:585-617 | what the worker takes is the oldest message, and its promise is in the worker's hands then |
| `SendOrder.FirstInFirstOut` | src/lib.rs:37-147 | over any run each queue gives out what came in, in the same order, and holds the rest |
| `SendOrder.RunsInOrder` | src/lib.rs:37-147 | both from the start, for any steps; and all reasons but a full queue stay true |
| `SendOrReject.SettledOnce` | src/lib.rs:37-147 | after any run no promise was settled twice or dropped, each is in one place, leaks need a stopped JavaScript thread, and a refused control message had no worker or a closed channel |
| `SendOrReject.QuietMeansSettled` | src/bridge/promise.rs:51-282 | when nothing is under way and the thread runs, every promise is settled, once |
| `Launchers.ExpectedFoldForCount` | ipc-bench/src/bench.ts:231-239 | the expected value is the fold of equal acknowledgements |
| `Launchers.FoldOneToOne` | ipc-bench/src/bench.ts:231-239 | a step of the fold is one-to-one in the sum so far and in the new value, as the multiplier is odd |
| `Launchers.FoldTellsApart` | ipc-bench/src/bench.ts:231-239 | lists that differ in the value of one acknowledgement fold to different numbers |
| `Launchers.FoldTellsFields` | ipc-bench/src/bench.ts:231-239 | and so do lists that differ in the size or in the checksum of one of them |
| `Launchers.Launcher.Launch` | ipc-bench/src/bench.ts:573-610 | fills the window and stops at a failed send; counts and ids stay in step |
| `Launchers.Launcher.Post` | ipc-bench/src/bench.ts:600-608 | one message is posted, or its posting throws and all is as before but for the counters |
| `Launchers.Launcher.Receive` | ipc-bench/src/bench.ts:549-554 | an acknowledgement in any order: unknown and repeated ids change nothing, a known one counts once |
| `Launchers.Launcher.Accept` | ipc-bench/src/bench.ts:581-593 | the entry of a message counts, folds, and resolves exactly with the last one |
| `Launchers.Launcher.Fail` | ipc-bench/src/bench.ts:568-572 | rejects once |
| `Launchers.Launcher.TimeOut` | ipc-bench/src/bench.ts:615-618 | after the time is up no outstanding id is pending |
| `Launchers.Launcher.SettledAtMostOnce` | ipc-bench/src/bench.ts:559-619 | at most one value and rejection; the value is the fold of all messages; in flight is the number of outstanding ids, next - done, and at most the window |
| `Launchers.Launcher.NeverIdle` | ipc-bench/src/bench.ts:573-612 | before the promise is settled a filled window has an outstanding message |
| `Launchers.RunBatch` | ipc-bench/src/bench.ts:559-619 | any sequence of events: the value, if any, folds exactly the accepted acknowledgements, with different ids and in the order of their arrival; without failing sends nothing is rejected, and without time-outs exactly those are accepted whose message the window had launched and that come for the first time |
| `Launchers.RunUniform` | ipc-bench/src/bench.ts:231-239 | with equal acknowledgements the value is the expected one |
| `Launchers.NoneWithoutMessages` | ipc-bench/src/bench.ts:559-612 | an empty batch never settles |
| `Concurrency.MapWithConcurrency` | ipc-bench/src/bench.ts:270-286 | under any schedule each index gets its own result, and all get one if each worker has more than two turns for each index |
| `Concurrency.Pool.Complete` | ipc-bench/src/bench.ts:281 | no index is completed twice |
| `Concurrency.SplitCounts` | ipc-bench/src/bench.ts:241-252 | as many positive parts as asked for and possible, that add up, do not grow and differ by one at most, also for a number of parts below one |
| `Tiles.RaytraceTile` | ray-bench/src/bench.ts:237-264 | checksum modulo 2^32 and pixel count of the rows of a tile |
| `Tiles.SplitRows` | ray-bench/src/bench.ts:422-435 | as many non-empty slices as there are workers or rows, contiguous, exactly the rows, the larger ones first and of even size |
| `Tiles.SplitRowsByTile` | ray-bench/src/bench.ts:437-443 | slices of the tile size and a last one, contiguous, exactly the rows |
| `Tiles.CoveredOnce` | ray-bench/src/bench.ts:422-443 | every row is in exactly one slice |
| `Tiles.Aggregate` | ray-bench/src/bench.ts:466-474 | the sum modulo 2^32 and the count with each part taken as a signed 32-bit number |
| `Tiles.ChecksumsAddUp` | ray-bench/src/bench.ts:466-474 | for every cover the checksum is that of one full render |
| `Tiles.PixelsAddUp` | ray-bench/src/bench.ts:466-474 | the pixel count is that of one full render exactly when every part's count is below 2^31 |
| `Tiles.RenderInTiles` | ray-bench/src/bench.ts:445-474 | for every split the checksum is that of one full render, and the pixel count is if and only if the largest slice has fewer than 2^31 pixels |

## Left out

- BigIntegers.BigInteger.Mod: long division with its quotient estimate in doubles (`divRemTo`) is replaced by the remainder it stands for, here by repeated subtraction.
- BigIntegers.BigInteger.FromInt: does not model values below -1, for which the source names an undefined variable.
- BigIntegers.BigInteger.Am: the other two inner products and the choice between them are not modelled; the suite selects this one with 28-bit digits.
- ModPow.Reducer.MulTo: the classic scheme reduces by the remainder, and Barrett reduction, which is chosen for long exponents with even moduli, is replaced by it.
- Nboyer.Prover.Rewrite: the number of nested applications is a parameter, as the source may rewrite for ever; every statement holds for every such number.
- Deframers.FramesFoundExactly: speaks of payloads below 4 GiB; for longer ones the size in an acknowledgement may agree by accident.
- Concurrency.MapWithConcurrency: the order in which promises complete is a schedule that may be too short; a rejected task is not modelled.
- EarleyParsers.Prune: the enumeration and counting of parse trees from the kept items are not modelled; sets are named by state and configuration.
- InverseRange.InverseCanonical: one way only; the inputs with a result out of range are scattered, and no condition on x and m alone is known that tells them from the others.
- RichardsScheduler.Scheduler.Schedule: takes a number of turns, as nothing bounds the loop for arbitrary blocks; packets for unknown or idle blocks would be lost and are excluded.
- RichardsScheduler.Scheduler.AddTask: block numbers are not reused, and an idle task comes without packets, which it would lose or never take.
- RichardsScheduler.Scheduler.QueuePacket: a packet for an idle task, which would never take it, is excluded.
- RichardsScheduler.RunRichards: that the counts are 2322 and 928 is not stated; it would take the evaluation of all turns of this one run.
- RichardsBooks.WriteLetters: payload entries that were never written count as 0.
- SplayTrees.SplayTree.Insert: keys are reals and payloads integers; keys that are not numbers are not modelled.
- SplayRuns.Benchmark.InsertNewNode: random keys are a list of draws that may run out.
- BridgeJson.TryFastJsonFromV8: getters, proxies, non-enumerable properties and failing allocations are not modelled; numbers are finite or not, and otherwise abstract.
- StreamEnvelope.EncodeStreamFrameEnvelope: a credit is a real number; infinities, values that are not numbers, and rounding beyond the exact whole numbers are not modelled, nor are typed chunk and control messages.
- Deframers.Worker.Receive: what `JSON.parse` makes of a payload is a parameter.
- SendOrReject.StepKeeps: converted values, date constructors and the exchange of results are not modelled; neither are time limits.
- Launchers.RunBatch: the timer is an event, and workers are not modelled.
- Tiles.RaytraceTile: the colour of a pixel is a function of its position; the ray tracing itself uses floating point.
- Primality, conversions of numbers to and from text, bitwise operations on big integers.
- The RayTrace, NavierStokes, DeltaBlue and RegExp benchmarks, the Scheme runtime library.
- The BigInt shortcut of the decoder, realm set-up, module loading, HTTP servers, worker processes and argument parsing.
