# Python exercise scripts, modelled in Dafny

This project models seven single-file Python programs from a collection of
daily exercises and proves properties of the models:

- **Day7, hand-gesture particle simulator.**
  - `get_fingers_up` reads a hand's landmark pixels and turns them into a five-finger key.
  - `GESTURE_MAP` maps each of the 32 keys to a name, a colour and a description.
  - The if/elif chain of `Particle.update` picks the force rule for the key and the number of hands.
  - Each frame, every particle moves, fades and respawns from random draws.
- **Day8, gesture catch game, two versions.**
  - One uses `Player`, `FallingObject`, `Game` and `GestureDetector` classes.
  - The other is a script over module-level variables and a list of dicts.
  - Both versions share these rules:
    - objects fall;
    - a collision is a catch and a fall below the screen is a miss, and either way the object respawns;
    - a catch scores and a miss costs a life;
    - the game is over once lives reach zero.
  - The class version also classifies the hand as FIST, TWO_FINGERS, OPEN or UNKNOWN:
    - FIST pauses the game;
    - TWO_FINGERS slows the objects;
    - any other gesture clamps their speeds back into 2..4.
- **Day5, console contact book.**
  - The book is a dict from normalised names to ten-digit numbers.
  - The menu offers add (a validation chain), view (sorted), search (substring match) and delete (with a numbered choice when several names match).
- **Day4, three billing scripts.**
  - One takes orders from a numbered menu, one takes fruit names, and one uses a fixed purchase list.
  - Each builds a quantity dict and a running total.
  - All three apply the same discount, picked by a match on `total // 100`.
- **Day3:** move every zero to the end of a list and keep the order of the other elements. Both versions are modelled: the two-list one that runs, and the append-then-pad one left commented out.
- **Day2:** count how often each character occurs, then print the characters that occur once.

## How the model is built

- **Modules follow the programs:**
  - `HandPose`, `GestureCatalog`, `ForceField` and `Particles` for Day7;
  - `CatchRules`, `CatchGame` and `CatchScript` for Day8;
  - `ContactBook` for Day5;
  - `MenuBilling`, `DynamicBilling` and `FixedBilling` for Day4;
  - `MoveZeros` for Day3 and `NonRepeating` for Day2.
- **Shared helpers have their own modules:**
  - `Text`: Python's ASCII `str` helpers and string order;
  - `Cart`: the quantity dict with its insertion order;
  - `Discount`: the shared discount tier.
- **Objects the source updates in place are classes**, with `modifies` clauses:
  - Day7 `Particle`;
  - Day8 `Player`, `FallingObject` and `Game`;
  - the contact book's dict.
- **Each class method is proved against a pure function.** Examples: `CatchRules.Update`, `ParticleState`/`FadeStep`, `DeleteResult`.
- **Loops stay loops:**
  - `get_fingers_up`'s pair loop;
  - the billing loops;
  - the search and delete loops;
  - the object loop over a Dafny `array` in the script game;
  - the two loops of Day2 and of Day3.
- **Python dicts keep insertion order.** That order decides:
  - which name a delete selection numbers;
  - the order of search results;
  - the key order of the quantity dicts.

  So every such dict is modelled as a `map` plus a `seq` of its keys in insertion order.
  For the quantity dicts, the billing loops state that order as `Cart.FirstNames` of the accepted pairs.
- **Input is given as parameters:**
  - console input as already-read values: `Command`, `Order`, `Entry`;
  - camera frames as hand readings;
  - random draws as `Spawn` and `ResetDraw` values whose ranges are those of the `random` calls.

## Where the documentation and the code disagree

The model follows the code in each case.

- **Discount above 1100.** The docstring of `Day4/day4-billing-system.py` promises 10% off from 500 up.
  - The code's match on `total // 100` gives 10% only for buckets 5 to 10, so no discount from 1100 up.
  - `Discount.DocumentedRuleAgreesBelow1100` proves the two rules agree exactly below 1100.
- **Day2 prints every single character.** The title comment of `Day2/day2-non-repeating-char.py` speaks of the *first* non-repeating character, but the loop prints all of them. `NonRepeating.PrintSingles` models that.
- **Day7 descriptions.**
  - Several `GESTURE_MAP` descriptions have no branch of their own in `Particle.update`, for example "Triangle burst" for THREE / OK and "Cross stream" for INDEX+RING.
  - What the chain does is stated by `ForceField.ChainMatchesTable`, `DefaultOrbitIffNotDedicated` and `PeaceIgnoresThumb`:
    - the peace branch ignores the thumb, so THREE / OK gets the dual fingertip stream;
    - seventeen keys fall to the default orbit.
- **The CUSTOM fallback.** The display lookup falls back to a "CUSTOM" descriptor. It never fires, because the table covers all 32 keys; `GestureCatalog.NamesAreDistinct` proves no entry is named "CUSTOM".

## Model

| member | source | states |
|---|---|---|
| HandPose.GetFingersUp | Day7/day7-handgestures.py:229-247 | fewer than 21 points give the all-down key; otherwise thumb up iff the tip is strictly farther from the wrist in x than the base joint, and each long finger up iff its PIP joint is more than 12 px below its tip |
| HandPose.CountUp | Day7/day7-handgestures.py:33-70 | the number of raised fingers is at most 5 and is 0 exactly for the all-down key |
| HandPose.OnlyReadCoordinatesMatter | Day7/day7-handgestures.py:236-245 | two hands that agree on the x of points 0, 2 and 4 and the y of points 6 to 20 get the same key |
| HandPose.ThresholdIsStrict | Day7/day7-handgestures.py:234-245 | a rise of exactly 12 px leaves the index finger down; 13 px raises it and nothing else |
| HandPose.ThumbTieIsDown | Day7/day7-handgestures.py:240 | a thumb tip exactly as far from the wrist as the thumb base counts as down |
| GestureCatalog.NameRoundTrip | Day7/day7-handgestures.py:32-71 | each key's name maps back to that key, and the name is listed under the heading for its number of raised fingers |
| GestureCatalog.NamesAreDistinct | Day7/day7-handgestures.py:32-71 | no two of the 32 keys share a name, and no entry is named "CUSTOM", so the display's fallback never fires |
| GestureCatalog.FrameHud | Day7/day7-handgestures.py:335-363 | the hand count is the number of hands; with no hand the key is all-down and the gesture "NO HAND"; otherwise the first hand's key and its table entry; the shown gesture is never the "CUSTOM" default |
| ForceField.PackIsBijective | Day7/day7-handgestures.py:28-30 | the five flags and the codes 0..31 are in one-to-one correspondence |
| ForceField.NoHandsNoForce | Day7/day7-handgestures.py:114 | with an empty hand list no force rule is applied, whatever the key |
| ForceField.TwoHandsOverride | Day7/day7-handgestures.py:121-127 | two hands reported and present select the midpoint pull (strength 40, attract, swirl 1.5), whatever the key |
| ForceField.ChainMatchesTable | Day7/day7-handgestures.py:129-200 | otherwise the if/elif chain picks exactly the rule an independent 32-entry table gives for the packed key |
| ForceField.DefaultOrbitIffNotDedicated | Day7/day7-handgestures.py:198-200 | a single-hand key falls to the default orbit exactly when it is not one of the fifteen dedicated keys |
| ForceField.DedicatedKeyCount | Day7/day7-handgestures.py:129-196 | fifteen distinct keys have a branch of their own |
| ForceField.PeaceIgnoresThumb | Day7/day7-handgestures.py:162-165 | index and middle up with ring and pinky down pick the dual fingertip stream, with or without the thumb |
| ForceField.TargetPoint | Day7/day7-handgestures.py:122-125 | the two-hand target is the floor midpoint of the two wrists in each coordinate |
| ForceField.SelectedTargetsResolve | Day7/day7-handgestures.py:114-200 | with a complete first hand some rule is chosen, and every landmark it pulls towards exists; the midpoint is used only when there is a second hand |
| Particles.FadeStepOutcome | Day7/day7-handgestures.py:212-218 | after one step the particle has either moved by the new velocity and aged by exactly 0.004 while staying alive in the frame, or been reset from the draw; either way it is live |
| Particles.RespawnedIsFresh | Day7/day7-handgestures.py:80-92 | a reset particle is inside the frame, has life in [0.5, 1], velocity components in [-1, 1], size 1 and each colour channel in [100, 255] |
| Particles.NoResetRunLife | Day7/day7-handgestures.py:212-218 | over a non-empty run of frames without a reset, the frame count times 0.004 stays below the starting life |
| Particles.ResetWithin250Frames | Day7/day7-handgestures.py:216-218 | a particle with at most a full life is reset within 250 frames, whatever velocities it is given |
| Particles.ResetBoundIsTight | Day7/day7-handgestures.py:216-218 | a particle with a full life that stands still inside the frame lasts 249 frames without a reset, so 250 is the best bound |
| Particles.Particle.constructor | Day7/day7-handgestures.py:77-78 | a new particle is the reset state of its draw and is live |
| Particles.Particle.Reset | Day7/day7-handgestures.py:80-92 | the fields become the draw's position, velocity, life and colour, with size 1 |
| Particles.Particle.Update | Day7/day7-handgestures.py:108-218 | the rule applied is the chain's choice for the key and hand count; the new state is one fade step from the old one; the particle stays live |
| Particles.UpdatePool | Day7/day7-handgestures.py:365-369 | the display is the frame's first-hand summary; every particle is updated with the rule the chain picks for that summary's key and hand count, advances by exactly one fade step and stays live |
| CatchRules.SpawnObject | Day8/day8-obj-cathing-game.py:26-32 | a spawned object has x in [0, 640], y in [-300, -50], speed in [2, 4] and radius 15 |
| CatchRules.CollisionMatchesDistance | Day8/day8-withopencv-game.py:133-137 | the integer test on squared distances agrees with the source's sqrt(dx·dx + dy·dy) < r_player + r_obj |
| CatchRules.Pass | Day8/day8-withopencv-game.py:143-152 | the loop over the objects gives one new object per old one, each by its own step, and catches plus misses never exceed the number of objects |
| CatchRules.ObjectStepCases | Day8/day8-withopencv-game.py:143-152 | an object is caught exactly when it collides after falling, missed exactly when it does not collide and is below the screen, and otherwise just moved; caught or missed objects respawn; none ends below the screen |
| CatchRules.GameOverIsFinal | Day8/day8-withopencv-game.py:139-141 | Update leaves a finished game unchanged |
| CatchRules.GameOverOnlySpeedsChange | Day8/day8-withopencv-game.py:215-228 | after game over a gesture may still lower or clamp the objects' speeds, but the score, lives, flag, object count and every object's position and radius stay as they were |
| CatchRules.UpdateKeepsInvariant | Day8/day8-withopencv-game.py:139-155 | a frame keeps the object count and the invariant (game over iff lives ≤ 0, radius 15, speeds in [1, 4]); the score never drops; at most one life is lost per object; score gained plus lives lost is at most the object count; game over is never undone |
| CatchRules.InitialState | Day8/day8-withopencv-game.py:126-131 | the starting state satisfies the invariant |
| CatchRules.ExtendedCount | Day8/day8-withopencv-game.py:102-108 | at most five fingers count as extended |
| CatchRules.ClassifyCases | Day8/day8-withopencv-game.py:97-122 | FIST iff at most one finger is extended; TWO_FINGERS iff index and middle are up and ring and pinky down; OPEN iff four or more; UNKNOWN otherwise |
| CatchRules.GestureEffectSpeeds | Day8/day8-withopencv-game.py:215-228 | every gesture keeps the invariant; FIST changes nothing; any gesture other than FIST and TWO_FINGERS leaves every speed in [2, 4] |
| CatchRules.SpeedRulesKeepConsistent | Day8/day8-withopencv-game.py:219-227 | slowing and clamping keep speeds in [1, 4]; clamping lifts them into [2, 4] |
| CatchRules.SlowDown | Day8/day8-withopencv-game.py:221-222 | one object per object; each keeps its position and radius; a speed above 1 drops by one and any other speed becomes 1 |
| CatchRules.ClampSpeeds | Day8/day8-withopencv-game.py:226-227 | one object per object; each keeps its position and radius and gets a speed in [2, 4]: a speed already in [2, 4] is kept, a lower one becomes 2 and a higher one 4 |
| CatchRules.MovePlayer | Day8/day8-withopencv-game.py:207-209 | the player jumps to the fingertip when a hand is seen and stays put otherwise; its radius never changes |
| CatchGame.Player.constructor | Day8/day8-withopencv-game.py:19-22 | the player starts at the given position and radius |
| CatchGame.Player.UpdateFromHand | Day8/day8-withopencv-game.py:24-26 | the player moves to the fingertip and keeps its radius |
| CatchGame.FallingObject.constructor | Day8/day8-withopencv-game.py:33-35 | a new object is the spawn of its draw |
| CatchGame.FallingObject.Respawn | Day8/day8-withopencv-game.py:37-40 | the object takes the draw's position and speed and keeps radius 15 |
| CatchGame.FallingObject.Fall | Day8/day8-withopencv-game.py:42-43 | the object moves down by its speed and nothing else changes |
| CatchGame.Game.constructor | Day8/day8-withopencv-game.py:126-131 | the game starts in the shared initial state (2 or 3 fresh objects, score 0, three lives), with the player in the middle of the screen; the class invariant holds |
| CatchGame.Game.UpdateObject | Day8/day8-withopencv-game.py:143-152 | one object's step, in place; the score rises by one on a catch and a life is lost on a miss |
| CatchGame.Game.Update | Day8/day8-withopencv-game.py:139-155 | the game's new value is the shared frame rule applied to its old value, and the class invariant is kept |
| CatchGame.Game.UpdateEach | Day8/day8-withopencv-game.py:143-155 | the in-place loop leaves each object at its own step, adds the catches to the score and subtracts the misses from the lives, then latches game over iff lives ≤ 0 |
| CatchGame.SlowDownAll | Day8/day8-withopencv-game.py:221-222 | every object's speed drops by one, but not below 1 |
| CatchGame.ClampAll | Day8/day8-withopencv-game.py:226-227 | every object's speed is clamped into [2, 4] |
| CatchGame.TrackHand | Day8/day8-withopencv-game.py:203-213 | the gesture is the classifier's class for a seen hand and UNKNOWN otherwise; the player follows the fingertip |
| CatchGame.ApplyGesture | Day8/day8-withopencv-game.py:215-228 | the game's new value is the shared gesture rule, and the class invariant is kept |
| CatchGame.Frame | Day8/day8-withopencv-game.py:203-228 | one pass of the main loop: track the hand, then apply the gesture's effect |
| CatchScript.Start | Day8/day8-obj-cathing-game.py:14-43 | the script starts in the shared initial state (count spawned objects, score 0, three lives, not over), with the player in the middle of the screen |
| CatchScript.UpdateObject | Day8/day8-obj-cathing-game.py:107-119 | only slot i of the array changes, to that object's step; the score and lives change as the outcome says |
| CatchScript.UpdateObjects | Day8/day8-obj-cathing-game.py:106-119 | the array becomes the pass over its old contents; the score rises by the catches and the lives fall by the misses |
| CatchScript.Frame | Day8/day8-obj-cathing-game.py:89-122 | the player follows the fingertip, and the new state is the shared frame rule applied to the old one |
| Text.Lower | Day5/day5-contact-book.py:17 | the result has the same length, and each letter is lowered on its own |
| Text.Without | Day5/day5-contact-book.py:23 | the result holds exactly the elements of the input other than x, and is no longer than the input |
| Text.WithoutKeepsOrder | Day5/day5-contact-book.py:23 | the m-th element left is the input's element at the m-th position not holding x; those positions rise strictly and are exactly the ones not holding x |
| Text.RemoveBlanks | Day5/day5-contact-book.py:23 | every character left is a non-blank of the input, and every non-blank of the input is left |
| Text.RemoveBlanksInOrder | Day5/day5-contact-book.py:23 | the m-th character left is the m-th non-blank of the input, so order and multiplicity are kept |
| Text.AlphaWithoutBlanks | Day5/day5-contact-book.py:23 | `replace(" ", "").isalpha()` holds exactly for non-empty strings made of letters and blanks with at least one letter |
| Text.DropSpacesIsSuffix | Day5/day5-contact-book.py:18 | dropping leading whitespace leaves a suffix of the input |
| Text.Strip | Day5/day5-contact-book.py:18 | the result is a slice of the input outside which there is only whitespace, and it neither begins nor ends with whitespace, so it is the input without its whitespace at both ends |
| Text.Words | Day5/day5-contact-book.py:17 | split() returns only non-empty pieces without whitespace |
| Text.WordsOfRuns | Day5/day5-contact-book.py:17 | on any input, whitespace alone splits to nothing, whitespace then a word splits to that word, and whitespace, a word, a non-empty whitespace run and more split to the word followed by the split of the rest |
| Text.WordsOfJoin | Day5/day5-contact-book.py:17 | split() undoes " ".join() on a list of words |
| Text.JoinIsTidy | Day5/day5-contact-book.py:17 | " ".join() of words has no leading, trailing or doubled space |
| Text.JoinOfWords | Day5/day5-contact-book.py:17 | " ".join(t.split()) gives back any tidy string t |
| Text.LowerOfJoin | Day5/day5-contact-book.py:17 | lowering commutes with " ".join() |
| Text.NormalizeMeaning | Day5/day5-contact-book.py:17 | the normalised name is tidy and lower-case, and its words are the lowered words of the raw input |
| Text.NormalizeFixedPoints | Day5/day5-contact-book.py:17 | normalising is idempotent, and its fixed points are exactly the normalised strings |
| Text.LessTotal | Day5/day5-contact-book.py:47 | Python's string order is irreflexive, asymmetric and total |
| Text.LessTransitive | Day5/day5-contact-book.py:47 | Python's string order is transitive |
| Text.AscendingIsSorted | Day5/day5-contact-book.py:47 | in an ascending list every earlier name precedes every later one |
| Text.Sorted | Day5/day5-contact-book.py:47 | sorted() of distinct names is ascending, has the same length and the same members |
| Text.Remove | Day5/day5-contact-book.py:96 | deleting a key leaves every other key and no other, and no duplicates |
| Text.RemoveInOrder | Day5/day5-contact-book.py:96 | the keys left keep their insertion order: the m-th is the m-th key of the old order other than the deleted one; no duplicates appear |
| ContactBook.AddCheckMeaning | Day5/day5-contact-book.py:20-36 | an add succeeds exactly when the name is non-empty, letters and blanks, new, and the number unused and ten digits; each rejection is reported exactly when all earlier tests pass and its own fails |
| ContactBook.AcceptedEntry | Day5/day5-contact-book.py:16-35 | an accepted entry has a valid normalised name not yet in the book and a valid unused number |
| ContactBook.InsertKeepsInvariant | Day5/day5-contact-book.py:35 | storing an accepted entry adds exactly one key, keeps every old entry and keeps the book's invariant (valid names, distinct valid numbers, order listing each key once) |
| ContactBook.DeleteKeepsInvariant | Day5/day5-contact-book.py:96 | `del` removes exactly one key, keeps every other entry and keeps the invariant |
| ContactBook.Matches | Day5/day5-contact-book.py:86-89 | the matches are exactly the book's names containing the query, without duplicates |
| ContactBook.SearchMeaning | Day5/day5-contact-book.py:50-72 | a valid search lists each name containing the query exactly once, with its own number; "no matching contacts" exactly when no name contains it |
| ContactBook.DeleteMeaning | Day5/day5-contact-book.py:73-115 | only a name of the book containing the query is ever deleted; "no matching contact" exactly when none contains it; a single match is deleted outright; with several matches a deletion happens exactly when the selection is in 1..count |
| ContactBook.CollectMatches | Day5/day5-contact-book.py:86-89 | the loop collects the matching names in dict order |
| ContactBook.CollectEntries | Day5/day5-contact-book.py:63-72 | the loop collects the matching (name, number) items in dict order, and found is true iff there is one |
| ContactBook.SelectTarget | Day5/day5-contact-book.py:74-115 | the delete option's checks and choice give the specified reply, and a name to delete is a key of the book |
| ContactBook.Passes | Day5/day5-contact-book.py:117-119 | the menu loop runs up to and including the first exit choice, or through every command |
| ContactBook.Book.constructor | Day5/day5-contact-book.py:2 | the book starts empty and satisfies the invariant |
| ContactBook.Book.Add | Day5/day5-contact-book.py:14-36 | the reply is the validation chain on the normalised name and stripped number; only Added changes the book, by storing that entry last; the invariant is kept |
| ContactBook.Book.View | Day5/day5-contact-book.py:39-48 | the names are listed in ascending order, each key of the book once |
| ContactBook.Book.Search | Day5/day5-contact-book.py:50-72 | the reply is the specified search result for the normalised query |
| ContactBook.Book.Delete | Day5/day5-contact-book.py:73-115 | the reply is the specified delete result; a deletion removes exactly that name from the dict and the order; any other reply changes nothing; the invariant is kept |
| ContactBook.AddPass | Day5/day5-contact-book.py:14-36 | option 1 on a book value keeps the invariant, grows the book by one entry exactly when the reply is Added, and otherwise leaves it as it was |
| ContactBook.DeletePass | Day5/day5-contact-book.py:73-115 | option 4 on a book value keeps the invariant, shrinks the book by one entry exactly when the reply is a deletion, and otherwise leaves it as it was |
| ContactBook.Step | Day5/day5-contact-book.py:13-121 | one pass on a book value keeps the invariant; the reply is the exit exactly for choice 5 and "invalid choice" exactly outside 1..5; choices other than 1 and 4 leave the book as it was |
| ContactBook.Session | Day5/day5-contact-book.py:4-121 | folding the passes over a book that keeps the invariant (every name and number valid, no number stored twice, the order list holding each stored name exactly once) leaves a book that keeps it; replies and stopping are in SessionReplies and SessionStopsAtExit |
| ContactBook.SessionReplies | Day5/day5-contact-book.py:4-121 | a session has one reply per pass of the loop, and a reply is the exit exactly when its command chose 5 |
| ContactBook.SessionStopsAtExit | Day5/day5-contact-book.py:117-119 | after the first exit no command is read: the session on the passes alone gives the same replies and book |
| ContactBook.Book.Handle | Day5/day5-contact-book.py:13-121 | the reply and new book are one pass of Step on the old book: add's chain, the sorted view, the search result and the delete result for the normalised input; exit iff choice 5; "invalid choice" iff outside 1..5 |
| ContactBook.Book.Run | Day5/day5-contact-book.py:4-121 | the replies and the final book are the session of the commands on the starting book: one reply per pass, stopping right after the first exit |
| Discount.Bucket | Day4/day4-billing-as-per-menu.py:41 | the bucket is the floor of total / 100, negative totals included |
| Discount.RateTiers | Day4/day4-billing-as-per-menu.py:41-49 | 10% exactly for totals in [500, 1100), 5% exactly for [300, 500), none otherwise |
| Discount.FinalAmountBounds | Day4/day4-billing-as-per-menu.py:51-52 | the final amount is the total scaled by (100 − rate)%; the discount is between 0 and a tenth of the total; the final amount is between 0 and the total |
| Discount.FinalAmountScaled | Day4/day4-billing-as-per-menu.py:51-52 | for every total, negative ones included, the final amount is the total scaled by (100 − rate)%; a negative total gets no discount |
| Discount.DocumentedRuleAgreesBelow1100 | Day4/day4-billing-system.py:4-36 | the code's bucket match agrees with the docstring's rule exactly below 1100; from 1100 up the code gives 0% where 10% is documented |
| Cart.AddQty | Day4/day4-billing-as-per-menu.py:20-23 | adding qty under a name creates or increases that key only |
| Cart.TalliesAdd | Day4/day4-billing-as-per-menu.py:20-23 | one more (name, qty) pair keeps the dict equal to the tally of all pairs so far, each key listed once |
| Cart.FirstNamesListsPairs | Day4/day4-billing-as-per-menu.py:20-23 | the first-occurrence order lists every name of the pairs exactly once and no other name |
| Cart.FirstNamesAdd | Day4/day4-billing-as-per-menu.py:20-23 | adding a pair to a dict whose keys are in first-occurrence order gives the key order of the longer list: a new name goes last, a known one changes nothing |
| Cart.BilledAdd | Day4/day4-billing-as-per-menu.py:20-24 | one more accepted pair keeps the dict a tally, its keys in first-insertion order, and the total equal to the dict's value at the unit prices |
| Cart.ValueOfReordered | Day4/day4-billing-as-per-menu.py:33-39 | the value of the cart does not depend on the order its names are listed in |
| MenuBilling.PriceLookup | Day4/day4-billing-as-per-menu.py:27-29 | price_lookup maps each menu name to its menu price and holds nothing else |
| MenuBilling.PricesMatchMenu | Day4/day4-billing-as-per-menu.py:1-6 | each menu name has its menu price, and every priced name is on the menu |
| MenuBilling.Accepted | Day4/day4-billing-as-per-menu.py:13-23 | at most one pair per order, one per order exactly when every number is on the menu, and every pair is the menu name and quantity of an order whose number is on the menu |
| MenuBilling.OrderStep | Day4/day4-billing-as-per-menu.py:13-24 | a number not on the menu changes nothing; a menu number adds its name and qty to the cart and qty × price to the total, keeping the loop invariant |
| MenuBilling.TakeOrders | Day4/day4-billing-as-per-menu.py:13-24 | the cart is the tally of the accepted orders with its keys in the order they were first ordered, every name is on the menu, and the total is the cart's value at menu prices |
| MenuBilling.LinesTotalIsValue | Day4/day4-billing-as-per-menu.py:33-37 | the listed item totals add up to the cart's value |
| MenuBilling.Listing | Day4/day4-billing-as-per-menu.py:33-37 | one line per cart item, in strictly ascending name order; each line has the item's qty, its price and their product; the item totals add up to the running total |
| MenuBilling.Bill | Day4/day4-billing-as-per-menu.py:1-52 | the whole script: tally, key order, total, listing, discount and final amount |
| DynamicBilling.Accepted | Day4/day4-dyanmic-billing.py:13-25 | at most one pair per entry, one per entry exactly when every lowered name has a price, and every pair is the lowered name and quantity of an entry whose lowered name has a price |
| DynamicBilling.EntryStep | Day4/day4-dyanmic-billing.py:13-28 | an unknown fruit changes nothing (`continue`); a known one adds its qty and qty × price, keeping the loop invariant |
| DynamicBilling.TakeItems | Day4/day4-dyanmic-billing.py:13-28 | item_qty is the tally of the accepted entries with its keys in the order they were first entered, every key has a price, and the total is its value |
| DynamicBilling.CaseInsensitive | Day4/day4-dyanmic-billing.py:14 | entries that agree on their lowered names and quantities are billed alike |
| DynamicBilling.Bill | Day4/day4-dyanmic-billing.py:1-40 | the whole script: tally, key order, total, discount and final amount |
| FixedBilling.SumOfPermuted | Day4/day4-billing-system.py:19-25 | a sum over the purchases does not depend on their order |
| FixedBilling.OrderIndependent | Day4/day4-billing-system.py:19-25 | reordering the purchases leaves item_qty (as a mapping) and the total unchanged |
| FixedBilling.TalliesUnique | Day4/day4-billing-system.py:15-23 | the tally of a list of pairs is unique |
| FixedBilling.Aggregate | Day4/day4-billing-system.py:19-25 | item_qty is the tally of the (item, qty) pairs with its keys in the order they were first bought, and the total is qty × price summed over the purchases |
| FixedBilling.FixedListFigures | Day4/day4-billing-system.py:8-39 | the fixed list gives apple 3, banana 5, orange 3, first bought in that order, a total of 550, 10% off and 495 |
| FixedBilling.FixedListOrder | Day4/day4-billing-system.py:15-23 | the items are first bought in the order apple, banana, orange |
| FixedBilling.Bill | Day4/day4-billing-system.py:8-39 | the script's item_qty, its key order apple, banana, orange, the total, discount and final amount are those figures |
| MoveZeros.NonZeros | Day3/day3-all-zero-to-end.py:21-25 | the kept elements are none of them zero and no more than the input |
| MoveZeros.ZeroCount | Day3/day3-all-zero-to-end.py:4-10 | the count is the number of occurrences of 0 in the list, so never more than its length |
| MoveZeros.CountsAddUp | Day3/day3-all-zero-to-end.py:21-27 | every element is either kept or counted as a zero |
| MoveZeros.MovedPermutes | Day3/day3-all-zero-to-end.py:27 | the result is a permutation of the input |
| MoveZeros.MovedShape | Day3/day3-all-zero-to-end.py:27 | the result has the input's length; the non-zeros come first, then only zeros, as many as the input has |
| MoveZeros.NonZerosKeepOrder | Day3/day3-all-zero-to-end.py:21-25 | the m-th kept element is the one at the m-th non-zero position of the input |
| MoveZeros.PositionsRise | Day3/day3-all-zero-to-end.py:21-25 | those positions strictly increase, so the relative order is kept |
| MoveZeros.PositionsExact | Day3/day3-all-zero-to-end.py:21-25 | the positions are exactly those holding a non-zero |
| MoveZeros.TwoLists | Day3/day3-all-zero-to-end.py:18-27 | the running version prints the moved list |
| MoveZeros.AppendThenPad | Day3/day3-all-zero-to-end.py:3-15 | the commented-out version prints the same list |
| MoveZeros.Example | Day3/day3-all-zero-to-end.py:1-29 | [1, 0, 3, 0, 5, 2] gives [1, 3, 5, 2, 0, 0] |
| NonRepeating.Frequencies | Day2/day2-non-repeating-char.py:4-10 | freq has exactly the characters of s as keys, each with its number of occurrences |
| NonRepeating.Keys | Day2/day2-non-repeating-char.py:4-10 | freq's keys, in insertion order, are exactly the characters of s |
| NonRepeating.KeysNoRepeats | Day2/day2-non-repeating-char.py:4-10 | each key occurs once in that order |
| NonRepeating.ValuesSumToLength | Day2/day2-non-repeating-char.py:4-10 | the values of freq add up to the length of s |
| NonRepeating.Singles | Day2/day2-non-repeating-char.py:13-17 | a character is kept exactly when it occurs once in s |
| NonRepeating.PrintSingles | Day2/day2-non-repeating-char.py:13-17 | the printed characters are those occurring once, in order of s; found is true iff something was printed |
| NonRepeating.SinglesMeaning | Day2/day2-non-repeating-char.py:13-20 | the output holds every character occurring once, each once; the "no non-repeating character" message appears exactly when none occurs once, an empty input included |
| NonRepeating.NonRepeatingChars | Day2/day2-non-repeating-char.py:3-20 | both loops together: the counts, the output, and found iff some character occurs once |

## Left out

- Camera capture, MediaPipe hand detection and its model download, window display, drawing, the HUD text and the `q` key: these are I/O. Hands arrive as landmark lists: pixel points in Day7, a pixel fingertip plus normalised landmarks in Day8.
- The conversion of normalised landmarks to pixels (`int(lm.x * WIDTH)`): floating point, outside the model.
- Randomness: every value `random` would draw arrives as a parameter, constrained to the drawn range. This covers `random.choice([2, 3])`, spawns and particle resets.
- Particles.Particle.Update: does not compute the new velocity from the chosen rule, because `apply_force`, friction and the speed cap are floating-point physics. The velocity arrives as a parameter and the rule chosen is returned.
- ForceField.SelectRule: records each branch's strength, attraction, swirl, vertical nudge and jitter width, but not the jitter values drawn.
- Particles: reals stand in for Python floats, so rounding is not modelled.
- Day7 `Particle.draw` and `draw_hand`: drawing only.
- GestureCatalog.FrameHud: has no branch for the "CUSTOM" fallback descriptor. The table covers every key, and FrameHud's contract shows the fallback is never displayed.
- Console I/O of Day2 to Day5: prompts, printed dicts and messages, and the "Option coming soon..." line. Inputs are values, and results or reply values stand for the messages.
- The `ValueError` that `int(input(...))` raises on a non-number. No model covers it for the menu choice, for the Day4 counts and choices, or for the quantities; the delete menu's `try`/`except` is modelled, with None standing for the bad input.
- Text: covers ASCII only. `isalpha`, `isdigit`, `isspace` and `lower` are stated for ASCII, and other characters count as neither letters nor digits nor whitespace.
- `name.title()` in the contact book's listings: display only.
- Discount.DiscountAmount: uses whole percentages and exact reals, so the binary rounding of `total * 0.05` and `total * 0.10` is not modelled.
