# Advent of Code 2022, days 1 to 7, in Dafny

This project models the puzzle solutions of an Advent of Code 2022
repository (`day_1.py` to `day_7.py`). It proves what each solution computes
and the properties its answers rest on. There is one module per day and a
shared `Text` module. Each day also has a `*_example.dfy` module that
re-derives the expected answers of the day's own tests from the model.

- **Day 1, calorie counting** (`Calories`, `calories.dfy`). The input is read
  one elf at a time. An elf is a run of numbers that ends at a blank line or
  at the end of the input. `get_most_calories` returns the largest total.
  `get_top3_calories` returns the sum of the three largest.
- **Day 2, rock paper scissors** (`RockPaperScissors`, `rps.dfy`). Shapes,
  outcomes, their scores and the two strategy-guide scores.
- **Day 3, rucksacks** (`Rucksacks`, `rucksacks.dfy`). Item priorities, the
  item shared by the two halves of a rucksack, and the badge shared by each
  group of three rucksacks.
- **Day 4, camp cleanup** (`Assignments`, `ranges.dfy`). Section ranges are
  expanded to lists. The two counting methods compare set sizes. Counting
  pairs applies one of these methods to every line.
- **Day 5, supply stacks** (`Crates`, `crates.dfy`). The drawing is read into
  a dock of stacks. The commands are carried out by the CrateMover 9000 (one
  crate at a time) or the CrateMover 9001 (all crates at once, through a LIFO
  queue). The answer is the top crate of every stack. `Dock`,
  `CrateMover9000` and `CrateMover9001` are classes whose methods change
  their state in place. Each method is proved against pure functions on
  `seq<seq<char>>`.
- **Day 6, tuning trouble** (`Datastream`, `marker.dfy`). `Stream` models a
  text stream's `read(1)` and `tell()`. `FindMarker` keeps the last `size`
  characters read, newest first. It reads on until they are pairwise
  different. It is proved to stop at the first such position.
- **Day 7, directory sizes** (`DirectoryTree`, `filesystem.dfy`). A shell
  transcript of `cd` and `ls` is replayed into a directory tree. Directories
  are stored in an arena, and handles stand for object references.
  Directory sizes, the bounded-size sum, and the smallest directory that
  frees enough space are computed over that tree. `FileSystem` is the
  mutable tree. Its methods are proved against the pure replay.

Where the program raises an exception, the model returns `None` (or `false`
in day 7's `Outcome`). This covers `ValueError`, `KeyError`, `IndexError`
and a `min` of an empty list. Where the program would block forever or loop
forever, the operation carries a precondition. The precondition is stated by
a pure function, and a lemma characterises exactly when it holds.

## Model

| member | source | states |
|---|---|---|
| Text.SumAppend | day_1.py:55 | the sum of a concatenation is the sum of the sums |
| Text.SumBounds | day_1.py:55 | a sum of n terms each within [lo, hi] lies within [n·lo, n·hi] |
| Text.TotalBounds | day_2.py:52-59 | a per-line total exists exactly when every line scores; it then lies between n·lo and n·hi when every line's score does |
| Text.TotalFailsAfter | day_2.py:54-57 | once a prefix of the lines fails to score, the whole total fails |
| Text.WordsOfTwo | day_2.py:55 | `str.split()` of two words joined by a space gives exactly those two words |
| Text.WordsOfThree | day_7.py:131 | `str.split()` of three space-separated words gives exactly those three words |
| Text.NextSep | day_5.py:67 | `list.index(sep)`: the first position from `i` holding the separator, or the end when there is none |
| Text.SplitFrom | day_4.py:26 | `str.split(sep)` gives at least one part, and no part contains the separator |
| Text.JoinSplitOn | day_4.py:26 | joining the parts of `str.split(sep)` with the separator gives back the original text |
| Text.SplitOnTwo | day_4.py:31 | splitting `x + sep + y` with no separator in `x` or `y` gives exactly `[x, y]` |
| Text.Strip | day_5.py:20 | `str.strip()`: the result neither starts nor ends with whitespace |
| Text.StripSpec | day_5.py:20 | `str.strip()` removes only whitespace, and only from the ends: the result is a slice of the text with nothing but whitespace before and after it |
| Text.IntOfNumeral | day_1.py:28 | `int()` of a decimal numeral reads it without stripping anything |
| Text.DecimalRoundTrip | day_1.py:28 | reading the decimal text of any natural number gives the number back |
| Text.IntOfDecimal | day_4.py:32 | `int()` of the decimal text of a number is that number |
| Text.NumbersOf | day_5.py:48 | `re.findall(r"\d+")` on a numeral followed by a non-digit takes that numeral's value first |
| Text.NumbersAfter | day_5.py:48 | `re.findall(r"\d+")` skips a prefix with no digits |
| Text.DistinctCard | day_6.py:15 | the set of a list's elements is never larger than the list, and is as large exactly when no element repeats |
| Text.ReverseIndex | day_6.py:14 | `reversed`: the i-th element of the reversed list is the (n-1-i)-th of the original |
| Text.ReverseReverse | day_5.py:59-63 | reversing twice gives back the list |
| Text.ReverseAppend | day_5.py:59-63 | reversing a concatenation reverses and swaps the parts |
| Calories.ValuesPointwise | day_1.py:27-28 | the lines of a run convert exactly when each is an integer, to those integers in order |
| Calories.NextElf | day_1.py:22-31 | reading the next elf signals end of input (EOFError) exactly at the end; otherwise it consumes at least one line and stays within the input |
| Calories.NextElfReadsOneRun | day_1.py:24-31 | a counted elf's calories are the sum of the numbers on the lines up to the next blank line or the end, and the blank line is consumed |
| Calories.CountNextElfCalories | day_1.py:22-31 | the reading loop computes exactly NextElf |
| Calories.NoValueAt | day_1.py:28 | a non-numeric line before the blank line makes the count fail (ValueError) |
| Calories.CountOneMore | day_1.py:27-29 | reading one more numeric line adds its value to the running total |
| Calories.ElvesAreRuns | day_1.py:47-53 | the elf totals read one by one are the totals of the blank-line-separated runs of the input |
| Calories.ElvesFrom | day_1.py:47-53 | from any position, the elves read are the run totals of the rest of the input split on blank lines |
| Calories.Most | day_1.py:34-44 | the largest total is at least 0 and at least every elf's total, and it is 0 or one of those totals |
| Calories.MostIsMax | day_1.py:41-42 | any non-negative total that bounds every elf and belongs to one is the result |
| Calories.GetMostCalories | day_1.py:34-44 | the loop returns the largest elf total, or fails when a line is not a number |
| Calories.Insert | day_1.py:55 | inserting into a descending list keeps it descending and adds exactly that element |
| Calories.SortDesc | day_1.py:55 | `sorted(reverse=True)`: descending and a permutation of the input |
| Calories.SortedUnique | day_1.py:55 | two descending permutations of the same list are equal, so the sorted list is determined |
| Calories.SortDescIs | day_1.py:55 | any descending permutation of the totals is what `sorted(reverse=True)` returns |
| Calories.Top3IsLargest | day_1.py:55 | the top-three sum adds up min(3, n) totals, none smaller than any total left out |
| Calories.GetTop3Calories | day_1.py:47-55 | the loop returns the top-three sum of the elf totals, or fails when a line is not a number |
| CaloriesExample.ExampleMostCalories | day_1.py:58-60 | on the example input the largest total is 24000 |
| CaloriesExample.ExampleTop3Calories | day_1.py:63-65 | on the example input the top three totals sum to 45000 |
| RockPaperScissors.ShapeOf | day_2.py:17-20 | the shape with a given enum value has that value |
| RockPaperScissors.Score | day_2.py:22-26 | a shape scores 1 for rock, 2 for paper and 3 for scissors |
| RockPaperScissors.ScoreInjective | day_2.py:22-26 | two shapes score the same exactly when they are equal |
| RockPaperScissors.FightOutcomeFollowsRules | day_2.py:28-33 | the enum arithmetic gives a win exactly when my shape beats the other (rock beats scissors, scissors paper, paper rock), a loss exactly when the other beats mine, and a draw exactly when they are equal |
| RockPaperScissors.FightOutcomeMirrored | day_2.py:28-33 | I win against you exactly when you lose against me, and draws are symmetric |
| RockPaperScissors.ShapeForOutcomeRoundTrip | day_2.py:35-42 | the shape chosen for an outcome produces that outcome, and it is the only shape that does |
| RockPaperScissors.TablesAreBijective | day_2.py:45-49 | each letter table maps its three letters onto all three shapes or outcomes |
| RockPaperScissors.RoundPoints | day_2.py:57 | a round is worth between 1 and 9 points |
| RockPaperScissors.RoundPointsDecode | day_2.py:57 | the points of a round determine its outcome and the shape played |
| RockPaperScissors.RoundV2IsPlayedRound | day_2.py:65-67 | a second-strategy line scores exactly when it has two known letters, and it scores as the round actually played with the chosen shape |
| RockPaperScissors.RoundBounds | day_2.py:52-69 | every line that scores under either strategy is worth 1 to 9 points |
| RockPaperScissors.ScoreBounds | day_2.py:52-69 | a total exists exactly when every line scores, and lies between n and 9n for n lines |
| RockPaperScissors.ComputeScoreV1 | day_2.py:52-59 | the loop's total is the per-line total under the first strategy, or fails on a malformed line |
| RockPaperScissors.ComputeScoreV2 | day_2.py:62-69 | the loop's total is the per-line total under the second strategy, or fails on a malformed line |
| RockPaperScissorsExample.ExampleScoreV1 | day_2.py:72-74 | the example guide scores 15 under the first strategy |
| RockPaperScissorsExample.ExampleScoreV2 | day_2.py:77-79 | the example guide scores 12 under the second strategy |
| Rucksacks.Priority | day_3.py:14-17 | lower-case letters have priorities 1 to 26 and upper-case letters 27 to 52 |
| Rucksacks.PriorityBijective | day_3.py:14-17 | priority is a bijection between the 52 letters and 1..52 |
| Rucksacks.PriorityInjective | day_3.py:14-17 | two letters with the same priority are the same letter |
| Rucksacks.Compartments | day_3.py:21 | `divide(2, …)`: the two compartments concatenate to the rucksack, and the first holds the extra item when the length is odd |
| Rucksacks.FirstShared | day_3.py:22 | the item taken from an intersection is in the first string and in all the others; nothing is taken only when no item is shared |
| Rucksacks.FirstSharedUnique | day_3.py:22 | when exactly one item is shared, that item is the one taken, whatever the set's order |
| Rucksacks.CommonItem | day_3.py:20-22 | the common item is in both compartments, and there is none (IndexError) exactly when they share nothing |
| Rucksacks.CommonItemPriorityBounds | day_3.py:25-27 | for a rucksack of letters, a common item's priority is between 1 and 52 |
| Rucksacks.SumCommonPrioritiesBounds | day_3.py:30-31 | for rucksacks of letters, the sum exists exactly when every rucksack has a common item, and lies between n and 52n |
| Rucksacks.Groups | day_3.py:36 | `chunked(…, 3)`: every chunk holds one to three rucksacks |
| Rucksacks.GroupsPartition | day_3.py:36 | the chunks concatenate back to the list, all but the last hold three, and there are ⌈n/3⌉ of them |
| Rucksacks.Badge | day_3.py:37 | a group's badge is in every rucksack of the group; there is none only when no item of the first rucksack is in all the others |
| Rucksacks.BadgePriorityBounds | day_3.py:37 | a badge taken from a rucksack of letters has priority 1 to 52 |
| Rucksacks.SumGroupBadgesPriorities | day_3.py:34-38 | the loop sums the badge priorities of the chunks of three, or fails when a group has no badge |
| RucksacksExample.ExampleCommonPriorities | day_3.py:41-43 | the example's common-item priorities sum to 157 |
| RucksacksExample.ExampleBadgePriorities | day_3.py:46-48 | the example's badge priorities sum to 70 |
| Assignments.RangeOf | day_4.py:32 | `range(lo, hi + 1)` lists lo, lo+1, …, hi, and is empty when lo > hi |
| Assignments.RangeMembers | day_4.py:32 | x is in the range list exactly when lo ≤ x ≤ hi |
| Assignments.RangeDistinct | day_4.py:32 | a range list has no repeated element |
| Assignments.FullyContainMeans | day_4.py:15-17 | for lists without repeats, the longer length equals the size of the union exactly when one list's elements are all in the other |
| Assignments.OverlapMeans | day_4.py:20-22 | for lists without repeats, the union is smaller than the two lengths together exactly when the lists share an element |
| Assignments.ContainImpliesOverlap | day_4.py:15-22 | two non-empty lists without repeats where one contains the other overlap |
| Assignments.RangeElems | day_4.py:32 | the elements of a range list are exactly the integers from lo to hi |
| Assignments.RangeSubset | day_4.py:15-17 | a non-empty range lies within another exactly when its bounds lie within the other's |
| Assignments.RangesContain | day_4.py:15-17 | for non-empty ranges, `fully_contain` holds exactly when one interval lies within the other |
| Assignments.RangesOverlap | day_4.py:20-22 | for non-empty ranges, `overlap` holds exactly when lo1 ≤ hi2 and lo2 ≤ hi1 |
| Assignments.EmptyRangeCompares | day_4.py:15-22 | an empty range (lo > hi) counts as fully contained both ways and never overlaps |
| Assignments.ParseRangeText | day_4.py:30-32 | reading the text `lo-hi` gives the range list from lo to hi |
| Assignments.ParsePairText | day_4.py:25-27 | reading `lo1-hi1,lo2-hi2` gives both range lists |
| Assignments.CountBounds | day_4.py:35-42 | the count exists exactly when every line reads as a pair, and lies between 0 and the number of lines |
| Assignments.CountPairs | day_4.py:35-42 | the loop counts the lines whose pair satisfies the counting method, or fails on a malformed line |
| AssignmentsExample.ExampleCounts | day_4.py:45-52 | on the example, 2 pairs fully contain one another and 4 overlap |
| Crates.Slot | day_5.py:28 | stack number n indexes `stacks[n - 1]` as Python does: valid exactly when -count < n ≤ count, at (n - 1) mod count |
| Crates.PickUpStore | day_5.py:27-31 | storing a crate succeeds exactly when the number names a stack; picking it up again gives back the crate and the old dock; picking up then storing restores the dock; other stacks are untouched |
| Crates.CrateCountUpdate | day_5.py:27-31 | replacing one stack changes the crate count by the difference in that stack's height |
| Crates.Move9000Moves | day_5.py:47-50 | moving k crates between two different stacks that hold enough removes the origin's top k and puts them on the destination in reverse order |
| Crates.Move9000Same | day_5.py:47-50 | moving crates from a non-empty stack onto itself leaves the dock unchanged |
| Crates.Move9000Short | day_5.py:49-50 | moving more crates than the origin holds fails, because the program would wait on an empty stack |
| Crates.LoadMoves | day_5.py:59-60 | loading k crates into the queue takes the origin's top k, in pick-up order |
| Crates.LoadShort | day_5.py:59-60 | loading more crates than the origin holds fails |
| Crates.UnloadMoves | day_5.py:62-63 | emptying the LIFO queue onto a stack puts the crates there in reverse order |
| Crates.Move9001Moves | day_5.py:57-63 | the CrateMover 9001 moves the origin's top k crates onto the destination in their original order; onto the same stack it changes nothing |
| Crates.Move9001Short | day_5.py:59-60 | the CrateMover 9001 fails when the origin holds too few crates |
| Crates.MovesKeepCrates | day_5.py:46-63 | both cranes succeed on a valid command and keep the total number of crates |
| Crates.ParseCommandText | day_5.py:48 | reading the text `move a from b to c` gives the command back |
| Crates.RunAppend | day_5.py:70-71 | running two lists of commands one after the other is running them joined |
| Crates.StoreRowSpec | day_5.py:24-25 | storing a row succeeds exactly when every crate letter sits over a label naming a stack; each stack then gains its column's letters, left to right |
| Crates.StoreRowsSpec | day_5.py:23-25 | storing rows bottom-up succeeds exactly when every row is labelled; each stack then gains its column, bottom first |
| Crates.EmptyStacks | day_5.py:21 | the dock starts with `count` empty stacks |
| Crates.InitialStacksSpec | day_5.py:19-25 | the drawing gives one stack per label; each holds its column's crates from the bottom row up, and it is read exactly when every crate sits over a valid label |
| Crates.TopsSpec | day_5.py:33-38 | the top crates exist exactly when no stack is empty; they are one per stack, each its stack's top, in stack order |
| Crates.Dock.constructor | day_5.py:19-25 | the dock built from the drawing holds the stacks the drawing describes |
| Crates.Dock.PickupCrate | day_5.py:27-28 | the crate returned is the named stack's top, and that stack loses it |
| Crates.Dock.StoreCrate | day_5.py:30-31 | the crate is put on top of the named stack |
| Crates.Dock.GetTopCrates | day_5.py:33-38 | the result is every stack's top crate in order, and each stack loses its top |
| Crates.CrateMover9000.ExecuteCommand | day_5.py:47-50 | the dock ends as the CrateMover 9000 model moves it |
| Crates.CrateMover9001.constructor | day_5.py:54-55 | the crane starts with an empty queue |
| Crates.CrateMover9001.ExecuteCommand | day_5.py:57-63 | the dock ends as the CrateMover 9001 model moves it, and the queue is empty again |
| Crates.ExecuteProcedure | day_5.py:66-73 | the result is the top crates after the drawing is read and every command runs |
| CratesExample.ExampleProcedure9000 | day_5.py:76-78 | on the example the CrateMover 9000 leaves `CMZ` on top |
| CratesExample.ExampleProcedure9001 | day_5.py:81-83 | on the example the CrateMover 9001 leaves `MCD` on top |
| Datastream.Stream.constructor | day_6.py:24 | a fresh stream over a text stands at its start |
| Datastream.Stream.Read | day_6.py:17 | `read(1)` gives the next character and advances, or gives "" at the end and stays |
| Datastream.Window | day_6.py:14-17 | the list of the last `size` reads has `size` entries |
| Datastream.NoMarkerPastEnd | day_6.py:15-17 | with two or more places, a list read two or more characters past the end holds "" twice and repeats |
| Datastream.ShortWindowIsMarker | day_6.py:15 | a list of at most one place never repeats, so the search stops at once |
| Datastream.MarkerIsFirst | day_6.py:15-17 | the marker is the first position whose last `size` reads are pairwise different |
| Datastream.MarkerNone | day_6.py:15-17 | there is no marker exactly when no position has pairwise different last reads (the loop never ends) |
| Datastream.MarkerBounds | day_6.py:15-18 | a marker lies at least `size` reads in and at most one read past the end |
| Datastream.WindowStep | day_6.py:16-17 | one more read drops the oldest entry and puts the new one in front |
| Datastream.WindowStart | day_6.py:14 | the first `size` reads, reversed, are the list after `size` reads |
| Datastream.ReadWindow | day_6.py:14 | the starting list is the first `size` reads, newest first, and the stream advances by `size` characters, or to its end |
| Datastream.FindMarker | day_6.py:13-18 | the returned position is where the stream stands, at the first marker counted from where the stream started (capped at the text's end) |
| DatastreamExample.RunOnText | day_6.py:24 | on a text whose marker is within it, the search from the start returns that marker |
| DatastreamExample.Example0_4 | day_6.py:5 | the first example stream's packet marker is at 7 |
| DatastreamExample.Example1_4 | day_6.py:6 | the second example stream's packet marker is at 5 |
| DatastreamExample.Example2_4 | day_6.py:7 | the third example stream's packet marker is at 6 |
| DatastreamExample.Example3_4 | day_6.py:8 | the fourth example stream's packet marker is at 10 |
| DatastreamExample.Example4_4 | day_6.py:9 | the fifth example stream's packet marker is at 11 |
| DatastreamExample.Example0_14 | day_6.py:5 | the first example stream's message marker is at 19 |
| DatastreamExample.Example1_14 | day_6.py:6 | the second example stream's message marker is at 23 |
| DatastreamExample.Example2_14 | day_6.py:7 | the third example stream's message marker is at 23 |
| DatastreamExample.Example3_14 | day_6.py:8 | the fourth example stream's message marker is at 29 |
| DatastreamExample.Example4_14 | day_6.py:9 | the fifth example stream's message marker is at 26 |
| DatastreamExample.TestPart1 | day_6.py:21-24 | the searches with size 4 return 7, 5, 6, 10 and 11 |
| DatastreamExample.TestPart2 | day_6.py:27-30 | the searches with size 14 return 19, 23, 23, 29 and 26 |
| DirectoryTree.Lookup | day_7.py:69-70 | `directory[name]` finds an entry of that name, and fails (KeyError) only when there is none |
| DirectoryTree.Put | day_7.py:72-73 | after `add_file` the entry is present, only entries of the same name are replaced, and the count grows exactly when the name is new |
| DirectoryTree.LookupPut | day_7.py:72-73 | after `add_file`, looking up its name gives the new entry, and every other name is unchanged |
| DirectoryTree.PutNewName | day_7.py:72-73 | an entry with a new name is added at the end, as a dictionary keeps insertion order |
| DirectoryTree.PutIdempotent | day_7.py:72-73 | adding the same entry twice is adding it once |
| DirectoryTree.PutUniqueNames | day_7.py:72-73 | adding an entry keeps names unique within a directory |
| DirectoryTree.EntrySizes | day_7.py:53-54 | a file entry weighs its size and a directory entry its directory's size |
| DirectoryTree.SizeSumsEntries | day_7.py:75-76 | a directory's size is the sum of its entries' sizes, 0 when it is empty |
| DirectoryTree.SizeBelow | day_7.py:75-76 | a directory nested anywhere below another is no larger |
| DirectoryTree.ChildSize | day_7.py:75-76 | a subdirectory is no larger than its parent |
| DirectoryTree.SiblingsDisjoint | day_7.py:121 | no directory lies below two different subdirectories of the same directory |
| DirectoryTree.ListedMembers | day_7.py:78-87 | `list_dirs` lists a directory exactly when it lies strictly below the start and its size is within the bounds |
| DirectoryTree.ListedMembersAll | day_7.py:78-87 | the membership of `list_dirs`, for every directory at once |
| DirectoryTree.ListedNoDup | day_7.py:78-87 | `list_dirs` lists each directory at most once |
| DirectoryTree.SumSizesAnyOrder | day_7.py:144 | the total size of a duplicate-free list of directories does not depend on its order |
| DirectoryTree.SumDirsSizeCountsEachOnce | day_7.py:141-144 | the bounded sum counts every directory below of size at most the bound exactly once |
| DirectoryTree.Min | day_7.py:152 | `min` of a non-empty list is one of its elements and no larger than any |
| DirectoryTree.FindDirToFree | day_7.py:147-152 | the result fails exactly when no directory below is big enough; otherwise it is the size of a directory below, at least the space to free, and no larger than any big-enough directory |
| DirectoryTree.NoneAtLeast | day_7.py:150-152 | the list of big-enough directories is empty exactly when none below reaches the space to free |
| DirectoryTree.SmallestAtLeast | day_7.py:150-152 | the minimum over a non-empty list of big-enough directories is the smallest big-enough size |
| DirectoryTree.NewDirWellFormed | day_7.py:121 | allocating a new empty directory under an existing one keeps the tree well formed |
| DirectoryTree.AddEntry | day_7.py:72-73 | storing an entry keeps the tree well formed, changes only that directory's content, and changes lookups only for that name |
| DirectoryTree.AddEntryWellFormed | day_7.py:72-73 | storing a file, or a subdirectory created under this directory with the entry's name and not yet listed, keeps the tree well formed |
| DirectoryTree.Cd | day_7.py:107-114 | `cd /` goes to the root; `cd ..` goes to the parent, or to nothing at the root; `cd name` fails on a missing name (KeyError), lands on nothing when the name is a file, and otherwise enters that subdirectory |
| DirectoryTree.CdChildThenParent | day_7.py:107-114 | entering a subdirectory and then `cd ..` comes back |
| DirectoryTree.ParseEntry | day_7.py:119-123 | an `ls` line reads exactly when it has two words, the first `dir` or a number; the name is the second word and the size the number |
| DirectoryTree.ParseFormatEntry | day_7.py:119-123 | reading the `ls` line of an entry gives the entry back |
| DirectoryTree.Apply | day_7.py:119-123 | one `ls` line adds its entry to the current directory only, allocating a fresh empty directory for `dir` lines |
| DirectoryTree.Listing | day_7.py:117-123 | an `ls` output is applied exactly when every line reads (and the cursor is a directory); only the current directory's content changes, and new directories are its empty children |
| DirectoryTree.ListingAppend | day_7.py:118-123 | applying two outputs one after the other is applying them joined |
| DirectoryTree.ListingUnnamed | day_7.py:118-123 | an output that never names `name` leaves its lookup unchanged |
| DirectoryTree.ListingLastWins | day_7.py:118-123 | the last line naming an entry decides it |
| DirectoryTree.OutputEnd | day_7.py:96-101 | a command's output runs up to the next `$` line or the end |
| DirectoryTree.OutputEndUnique | day_7.py:96-101 | the end of an output is the only position with that property |
| DirectoryTree.GetCommandOutput | day_7.py:93-104 | the loop returns the lines up to the next command and leaves the position on it |
| DirectoryTree.Replay | day_7.py:126-138 | replaying the transcript keeps the tree well formed and never renames or re-parents a directory |
| DirectoryTree.ReplayCdRoot | day_7.py:132-133 | after `$ cd /` the replay no longer depends on where the cursor stood |
| DirectoryTree.ReplayCd | day_7.py:132-133 | `$ cd <name>` into a subdirectory moves the cursor to that subdirectory and replays the rest from there |
| DirectoryTree.ReplayLs | day_7.py:134-136 | a final `$ ls` applies every line after it to the current directory; the replay succeeds exactly when each of those lines reads and, if there is any, the cursor is on a directory |
| DirectoryTree.ReplayCdLs | day_7.py:126-138 | `$ cd <name>` then `$ ls` with its output comes to the listing of that output in the subdirectory, and succeeds exactly when every output line reads |
| DirectoryTree.ListingReadsLastWins | day_7.py:118-123 | when every output line reads, the listing succeeds and the last line decides the entry it names |
| DirectoryTree.ReplayCdLsLastWins | day_7.py:126-138 | after `$ cd <name>` and `$ ls` with output that reads, the name on the last output line looks up in that subdirectory to the entry that line gives: a file of its size, or a new directory allocated after those made before it |
| DirectoryTree.FileSystem.constructor | day_7.py:90 | a new file system holds the root directory `/` alone |
| DirectoryTree.FileSystem.NewDirectory | day_7.py:58-61 | a new empty directory is allocated with the given parent, at a fresh handle |
| DirectoryTree.FileSystem.AddFile | day_7.py:72-73 | the tree becomes the one with the entry stored |
| DirectoryTree.FileSystem.ListDirs | day_7.py:78-87 | the recursive walk returns exactly `Listed` |
| DirectoryTree.FileSystem.ApplyEntry | day_7.py:119-123 | the tree becomes the one with the `ls` line applied |
| DirectoryTree.FileSystem.LsCommand | day_7.py:117-123 | the loop over an output leaves the tree the pure listing gives |
| DirectoryTree.FileSystem.ListAt | day_7.py:134-136 | `ls` reads its output up to the next command and applies it |
| DirectoryTree.FileSystem.Build | day_7.py:126-138 | the build loop leaves the tree, and the success flag, the pure replay gives |
| DirectoryTreeExample.ExampleBuild | day_7.py:157 | replaying the example transcript from an empty root gives the example tree |
| DirectoryTreeExample.ExampleSizes | day_7.py:75-76 | the example's directories `e`, `a`, `d` and `/` weigh 584, 94853, 24933642 and 48381165 |
| DirectoryTreeExample.ExampleSumDirsSize | day_7.py:155-158 | the example's directories of at most 100000 sum to 95437 |
| DirectoryTreeExample.ExampleFindDirToFree | day_7.py:161-164 | the smallest example directory that frees enough space weighs 24933642 |

## Left out

- The `__main__` blocks: opening the input files, stripping lines and printing. Input is given to the model as a list of lines, without their line ends.
- Day 1's stream is a list of lines with an index. A blank line `"\n"` is the empty string, and the end of the input is the end of the list.
- Text.Int: reads only an optional run of surrounding whitespace around unsigned ASCII decimal digits. Python's `int()` also accepts a sign, `_` separators and non-ASCII digits, so lines using those fail in the model where the program accepts them.
- Text.IsSpace: only the ASCII whitespace characters are recognised. Python's `str.split()` and `str.strip()` also treat non-ASCII whitespace such as U+0085, U+00A0, U+2000 to U+200A and U+3000 as spaces, so `Text.Words`, `Text.Strip` and `Text.Int` keep those characters as part of a word.
- Exception kinds (`ValueError`, `KeyError`, `IndexError`, `EOFError` after the input) are not told apart: each is `None`, or `false` in day 7.
- Rucksacks.CommonItem: the program takes whichever item the set's iteration order puts first. The model takes the first shared item of the first compartment. `Rucksacks.FirstSharedUnique` shows that the two agree whenever exactly one item is shared. The same holds for `Rucksacks.Badge` and `set.pop()`.
- The regular expressions of day 5 are modelled as what they match: `\d+` as maximal digit runs (`Text.Numbers`) and `[A-Z]` as single upper-case letters.
- `more_itertools.divide` and `chunked` are modelled only for the arguments used (two parts; chunks of three).
- Crates.Dock.PickupCrate: `LifoQueue.get()` on an empty stack blocks forever. The class methods therefore require a non-empty stack, and the pure functions return `None`. The same holds for `Crates.Dock.GetTopCrates`, both cranes' `ExecuteCommand` and `Crates.ExecuteProcedure`, which require the pure result to exist.
- The abstract `Crane` base class, whose `execute_command` raises `NotImplementedError`, is not modelled. `Crates.CraneModel` selects one of the two concrete cranes instead.
- Stacks are values (`seq<char>`) inside the `Dock` object rather than separate `LifoQueue` objects, so aliasing between stacks is not modelled.
- Datastream.FindMarker: requires a marker to exist, because without one the program reads "" forever and never returns. `Datastream.MarkerNone` states exactly when that happens.
- `tell()` on a real file returns an opaque cookie. The model's `Stream.Tell` is the number of characters read, as it is for an in-memory text stream.
- The global `ROOT` directory is shared between runs in the program. The model builds each tree from a fresh root, so effects of one build on a later one are not modelled.
- `__repr__` of files and directories (a debug view) is not modelled.
- `build_filesystem` recurses once per transcript line and hits Python's recursion limit on long transcripts. The model's replay has no depth limit.
- `cd ..` at the root returns `None` in the code, and later steps then fail. The model follows the code (cursor `NoDirectory`) rather than treating it as an immediate navigation error.
- Object identity of directories is modelled by handles into an arena. A handle is never reused, so two directories are never confused.
