# Verified models of the repository's guards and checkers

The repository protects itself with a handful of small algorithms: a checker for SQL migrations, a splitter that
spreads the test chain over CI shards, an analyser that decides which module-level bindings hold tenant state, a
scorer for recognised inquiry rows, a check of the console's build graph, a sliding-window rate limiter, a daily
budget for language-model calls, and a reader for the files of the git index. This project models these algorithms in
Dafny, in the form they have in the source (loops over mutable state stay methods with invariants, objects stay
classes, expression code stays functions), and proves what they are for. `dafny verify dfyconfig.toml` checks
everything.

| files | part of the repository |
|---|---|
| `SqlLexer`, `SqlStatements`, `SqlRules`, `SqlCheck` | the lexer, the statement splitter, the rules and the recursive check of migrations |
| `SqlVisible`, `SqlWords`, `SqlMeaning`, `SqlColumns` | what a statement shows, read off its tokens; each rule test holds exactly if the statement shows what the rule means |
| `SqlTokens`, `SqlReported` | phrases as runs of word tokens, and exactly when a file is reported |
| `SqlNotes` | which comments lift rules and where they stand, where statements end, lines and escapes |
| `SqlQuoting`, `SqlLayers`, `SqlBlindness` | quoting never hides a statement in a DO block; literals outside DO blocks do not matter |
| `Journal` | the append-only journal and what it means for databases over any history of deployments |
| `CiUnits`, `CiAllocate`, `CiCoverage`, `CiAccept` | units of the test chain, longest-first allocation, the coverage check, exactly which chains are accepted |
| `ModuleState` | the cached, cycle-guarded evaluator without member access: exact, whatever the order of queries |
| `ConstTerms`, `ConstFolding` | const definitions with literals, members, modules and destructuring, their runs, and the evaluator's search in literals |
| `ConstPromise`, `ConstSound`, `ConstValues` | the same evaluator on these definitions, and what its answers say about every run |
| `ConstExposed` | what the evaluator must refuse: mutable and unknown names and whatever is made of them |
| `ConstWorth`, `ConstComplete`, `ConstProduct` | which answers follow from the definitions where they do not go round, and that computed names are answered |
| `ConstFuel`, `ConstEnough`, `ConstLoops`, `ConstTables` | where it comes to an end and where it never does |
| `ConstExample` | a run the promise is made for, wrong answers outside it, and a program without an answer |
| `RowScore` | the edit-distance table, its backtrace and the score |
| `ChunkGraph`, `ChunkBudget` | walks over the chunk graph, download budgets, the page the editor belongs to |
| `RateLimiter`, `ClientAddress` | the limiter with its cap and sweep, the key a client is limited under |
| `Budget` | reservations, delayed writes, restarts and day changes |
| `Blobs` | the index listing, the length-framed stream of contents and their pairing |
| `Text`, `Naturals`, `Options`, `Sequences`, `Sorting` | string operations, numerals, lists, sums, permutations and the stable order |

Conventions. Text is a sequence of code points. Durations are reals, times and sizes integers. A thrown error is a
constructor of the result. Where the source mutates, a method changes the same state and its `ensures` gives the new
state as a specification function of the old one; the lemmas then speak about that function, over all inputs or all
runs.

Where the code does less than its comments or its purpose suggest, the code is kept, a failing input is given and the
exact condition under which it does its job is proved:

- The constant evaluator's search for a key in an object literal is right, for all contents and all runs, exactly when
  the shape of the literal settles the key (`ConstFolding.Decided`, `ConstFolding.ObjectLookupExact`); in an array
  literal exactly when the key writes the position that is read canonically (`ConstFolding.ArrayLookupExact`).
  Literals on which the evaluator answers a wrong primitive: `{ a: 1, a: 2 }.a` (`ConstExample.FirstOfTwo`),
  `{ __proto__: { x: 1 } }.x` (`ConstExample.FromPrototype`) and `[0, 1]["01"]` (`ConstExample.LeadingZero`).
- The evaluator takes an object as frozen all the way. What a key of a literal gives is what the text there says,
  whatever the program writes, exactly when that text is no unfrozen literal itself
  (`ConstFolding.InnerLiteralExact`); after a write to the inner object of `{ a: { b: 1 } }` the answer for `.a.b` is
  wrong (`ConstExample.BehindAWrite`). In a program in which every literal inside a frozen one is frozen, answers hold
  whatever is written (`ConstPromise.WritesDoNotMatter`, `ConstValues.Evaluator.Answer`).
- The guard against cycles does not cover looking into literals: for `const a = Object.freeze({ x: a.x }), y = a.x`
  the evaluator calls itself without end (`ConstExample.SelfReading`), and so it does wherever each evaluation forces
  the next one of a closed set (`ConstValues.Evaluator.Answer`). For definitions over tables of frozen literals it
  answers exactly when following the references comes to an end (`ConstTables.Ask`); for programs with members,
  modules and patterns of any kind it answers if what literals contain refers only to definitions ranked lower
  (`ConstEnough.EnoughFuel`).
- The limiter keeps every single key within the limit, in all runs, exactly when there are no more keys than the cap
  on buckets (`RateLimiter.KeyLimitExact`). Beyond the cap a key can get twice the limit in one window, once in the
  shared bucket and once in its own (`RateLimiter.DoubleBurstReached`), and never more (`RateLimiter.KeyBound`).
- A restart forgets the reservations that were not on disk. A day's grants exceed a cap exactly when the counted and
  the forgotten ones together do (`Budget.OverspendIsLost`, `Budget.SessionOverspendIsLost`); something is forgotten
  exactly when a granted reservation of the day is followed by a restart with no successful write between the two
  (`Budget.LossExact`); and for every cap there is a run that grants twice as many (`Budget.CapIsExceeded`).
- A client cannot influence the key it is limited under exactly when it connects from the public network, or the
  trusted hops are no more than the proxies, or no hop is trusted and some address is known
  (`ClientAddress.ForgeryExact`); otherwise every address it writes into the header becomes its key
  (`ClientAddress.ForgedKey`).
- The split check counts a JS file once for each chunk that has it and skips a chunk with the empty key. What it
  accepts keeps every promise (`ChunkBudget.PassesIsSafe`), but a build in which a route and a chunk it imports have
  the same file can be refused although it keeps them all (`ChunkBudget.GoodBuildIsRefused`). A split is accepted
  whenever it keeps its promises, whatever the sizes, exactly when no route adds up two chunks with the same file and
  the page refers to the editor without a chunk that has the empty key (`ChunkBudget.RefusalExact`).
- The migration rules look at runs of ASCII word characters, while the lexer's words may contain dollar signs: in
  `x$drop` a rule is reported that no token spells (`SqlReported.DollarWordReported`). Where words consist of ASCII
  letters, digits and underscores, rules are reported exactly for runs of tokens (`SqlReported.RunsExactly`), and in
  general exactly for what the statement shows (`SqlReported.ReportedExactly`).
- The reader of staged contents takes the answer for a missing object, a line without a size, for an empty content and
  starts again at the first content. Every path comes with its own content exactly when no object is missing
  (`Blobs.EachPathItsContent`); behind the first missing one the contents go to the wrong paths
  (`Blobs.MissingShifts`).

## Model

| member | source | states |
|---|---|---|
| SqlLexer.LexText | scripts/check-migrations.ts:86-165 | the loop produces the specified token list, whose non-empty tokens tile the range exactly, overshooting escapes and unterminated comments and literals included |
| SqlLexer.Scan | scripts/check-migrations.ts:95-163 | one turn of the loop gives the token the specification names: kind, end, body of a dollar quote, escape flag |
| SqlLexer.SkipBlock | scripts/check-migrations.ts:110-122 | the loop ends where the comment has been closed as often as it was opened and not before, or with the range |
| SqlLexer.BlockEndNests | scripts/check-migrations.ts:110-122 | read piece by piece, the nesting depth is positive before the end found, and zero there unless the range is over |
| SqlLexer.SkipQuoted | scripts/check-migrations.ts:123-148 | quoted text ends at its first quote that is neither doubled nor, in an escape string, behind a backslash |
| SqlLexer.LexTiles | scripts/check-migrations.ts:86-165 | tokens are non-empty, adjoin, start at the beginning and end at the end; a dollar body lies strictly inside its token |
| SqlLexer.BodiesEnclosed | scripts/check-migrations.ts:149-154 | a dollar body stands between two copies of its delimiter or runs to the end of the range |
| SqlLexer.LexMoves | scripts/check-migrations.ts:86-165 | a stretch of text has the same tokens wherever it stands, if what follows it cannot be taken for a part of it |
| SqlLexer.LexSplits | scripts/check-migrations.ts:86-165 | at any token boundary the token list is the tokens before it followed by the tokens of the rest |
| SqlLexer.TokenStartsAtBoundary | scripts/check-migrations.ts:86-165 | every token start is such a boundary |
| SqlLexer.PrefixStays | scripts/check-migrations.ts:86-165 | the tokens before a boundary do not depend on the text behind it |
| SqlStatements.SplitTokens | scripts/check-migrations.ts:168-182 | the loop computes the specified statements |
| SqlStatements.EachTokenInOneStatement | scripts/check-migrations.ts:168-182 | every token that is neither blank, comment nor semicolon is in exactly one statement, and statements come in order without overlap |
| SqlStatements.QuoteRoundTrip | scripts/check-migrations.ts:123-137 | doubling the quotes of any text and quoting it lexes to exactly one string token, whose unquoted content is the text |
| SqlStatements.TopLevelParts | scripts/check-migrations.ts:224-238 | the parts are the stretches between commas at parenthesis depth 0, and joining them with commas gives the text back |
| SqlRules.BrokenIff | scripts/check-migrations.ts:300-303 | a rule is listed for a statement if and only if it applies in the mode, is not lifted and its test holds |
| SqlRules.FindAnnotations | scripts/check-migrations.ts:193-210 | the two loops find the line comments directly above a statement and the one behind its first line |
| SqlVisible.CleanedShows | scripts/check-migrations.ts:212-222 | the normalised text is the visible characters of the statement's tokens in capitals, with one blank wherever blanks, comments or a dollar quote stand between them: no character of a word is lost, moved or changed otherwise |
| SqlWords.HasIff | scripts/check-migrations.ts:44-60 | a phrase is found in the normalised text if and only if its letters, in any mixture of cases, are among the visible characters as whole words with gaps exactly between its words |
| SqlMeaning.ExecuteIff | scripts/check-migrations.ts:58-59 | dynamic SQL is found if and only if EXECUTE is seen and neither ON, FUNCTION nor PROCEDURE follows it |
| SqlMeaning.ChangesTypeIff | scripts/check-migrations.ts:47-50 | a type change is found if and only if a name without gaps, other than COLUMN and TABLE, stands behind ALTER or ALTER COLUMN and in front of TYPE or SET DATA TYPE |
| SqlColumns.ColumnsIff | scripts/check-migrations.ts:32-42 | a required column is found if and only if some clause between top-level commas, read on the visible characters, adds a column first whose rest says NOT NULL or PRIMARY KEY and neither DEFAULT, GENERATED nor a serial type |
| SqlColumns.TestMeans | scripts/check-migrations.ts:44-60 | each of the ten rule tests holds exactly if the statement shows what the rule looks for |
| SqlColumns.DoMeans | scripts/check-migrations.ts:61 | so do the tests for DO blocks and function definitions |
| SqlTokens.RunSaid | scripts/check-migrations.ts:83 | word tokens that spell the words of a phrase one after the other, in any mixture of cases and with blanks and comments between them, are seen as that phrase |
| SqlTokens.SaidByRun | scripts/check-migrations.ts:83 | among words of ASCII letters, digits and underscores every phrase that is seen is such a run of tokens |
| SqlReported.ReportedExactly | scripts/check-migrations.ts:295-307 | a rule is reported for a statement if and only if the statement shows what the rule looks for and no comment lifts it, or a literal that is looked into has it reported |
| SqlReported.ReportedThere | scripts/check-migrations.ts:300-303 | such a report names the line on which the statement begins |
| SqlReported.FileExactly | scripts/check-migrations.ts:277-308 | in a file without DO statements a rule is reported if and only if some statement breaks it |
| SqlReported.RunIsReported | scripts/check-migrations.ts:44-60 | a statement in which the words of DROP, RENAME, REVOKE, SET NOT NULL, CREATE OR REPLACE or ALTER POLICY follow one another as tokens is reported on its line unless a comment lifts the rule |
| SqlReported.CheckIsReported | scripts/check-migrations.ts:53-54 | so is a CHECK in a statement with ALTER TABLE or ALTER DOMAIN |
| SqlReported.RunsExactly | scripts/check-migrations.ts:44-60 | in a file without DO statements and with plain words these rules are reported exactly for the statements in which the words follow one another |
| SqlReported.DollarWordReported | scripts/check-migrations.ts:83 | the letters of a rule behind a dollar sign inside a longer word are reported although no token spells them, so plain words are needed |
| SqlNotes.NoteIsRead | scripts/check-migrations.ts:281-293 | a marker followed by rule names names exactly them, with any blanks around the commas, and the rest of its line is the reason if it has a letter or a digit |
| SqlNotes.NoMarker | scripts/check-migrations.ts:281-282 | a comment says nothing if and only if the marker occurs nowhere in it |
| SqlNotes.NamelessIsRead | scripts/check-migrations.ts:284-288 | a marker that no name follows is a marker without names |
| SqlNotes.NoteLifts | scripts/check-migrations.ts:292-293 | a comment lifts exactly the rules it names, and none without a reason |
| SqlNotes.FaultsExactly | scripts/check-migrations.ts:285-292 | a comment is reported exactly for missing names, names that are no rule's and a missing reason |
| SqlNotes.AllowedExactly | scripts/check-migrations.ts:192-210 | a rule is lifted for a statement if and only if it is lifted outside, or by a comment on a line of its own above with no empty line and nothing else between, or by the first comment on the statement's first line |
| SqlNotes.LineExactly | scripts/check-migrations.ts:184-186 | a report's line is one more than the line ends before its position |
| SqlNotes.LiteralLine | scripts/check-migrations.ts:270-276 | inside a dollar quote reports keep their own lines, inside a string lines count on from the line of the string |
| SqlNotes.SameStatement | scripts/check-migrations.ts:168-182 | a later token belongs to the statement of an earlier one if and only if no semicolon and no breakpoint comment stands between them |
| SqlNotes.EscapeStringRoundTrip | scripts/check-migrations.ts:123-137 | a text written with backslash escapes behind e or E is one string token, which unquotes to the text |
| SqlNotes.EscapeRoundTrip | scripts/check-migrations.ts:241-249 | every text comes back from its escaped form |
| SqlNotes.OtherEscape | scripts/check-migrations.ts:244-248 | a backslash before any other character stands for that character |
| SqlCheck.Checker.CheckRange | scripts/check-migrations.ts:261-309 | the recursive check terminates and appends exactly the specified reports to the hits; `SqlReported.ReportedExactly` says what these are in terms of tokens |
| SqlCheck.Checker.CheckComments | scripts/check-migrations.ts:278-294 | annotations add their reports and lift exactly the rules they name with a reason |
| SqlCheck.Checker.CheckStatement | scripts/check-migrations.ts:295-307 | the rule tests and the descent into literals append exactly the statement's reports |
| SqlCheck.Checker.CheckLiterals | scripts/check-migrations.ts:271-276 | the literals of a statement are descended into in order, dollar bodies in place and strings unquoted |
| SqlQuoting.RuleReportsFlag | scripts/check-migrations.ts:295-307 | a rule is reported for a statement if and only if the statement breaks it itself or a literal that is looked into has it reported |
| SqlQuoting.LiftedIsSilent | scripts/check-migrations.ts:277-303 | a rule lifted on an outer statement is reported nowhere inside it |
| SqlQuoting.FoundEverywhere | scripts/check-migrations.ts:261-309 | what is reported for a text on its own is reported wherever the text stands and is checked at least as strictly, unless lifted there |
| SqlQuoting.QuotingNeverHides | scripts/check-migrations.ts:241-309 | however deep a text is buried in literals that are looked into, with any surroundings on every layer, a rule reported for it alone is reported for the whole |
| SqlLayers.WrappedIsOneToken | scripts/check-migrations.ts:123-154 | a text in quotes, or in a dollar delimiter that first recurs as the closing one, is one token |
| SqlLayers.LayersFlag | scripts/check-migrations.ts:271-307 | peeling any number of quote and dollar layers inside dynamic SQL loses no report |
| SqlLayers.DoNeverHides | scripts/check-migrations.ts:241-309 | a text for which a rule is reported has it reported in the file that runs the text in DO under any number of layers |
| SqlBlindness.TokensAlike | scripts/check-migrations.ts:86-165 | replacing the content of a closed literal by any content that does not close it earlier keeps all tokens up to position and content |
| SqlBlindness.LiteralsAreBlind | scripts/check-migrations.ts:213-222 | in a file without annotations such a replacement changes neither the number of statements nor the rules listed for any of them |
| SqlBlindness.LiteralsChangeNoReport | scripts/check-migrations.ts:44-60 | without DO statements the same rules are reported for the whole file |
| Journal.CompareFiles | scripts/check-migrations.ts:373-395 | reports exactly the base's files that are gone or changed |
| Journal.CompareEntries | scripts/check-migrations.ts:402-407 | reports exactly the base's entries that are gone or differ under their number |
| Journal.CheckEntries | scripts/check-migrations.ts:418-431 | reports exactly the wrong numbers, the times that do not increase or do not follow the base, and the missing files |
| Journal.NotLaterExactly | scripts/check-migrations.ts:422-427 | an entry the base does not have is faulty exactly if some entry of the base is not earlier |
| Journal.CheckNames | scripts/check-migrations.ts:432-434 | reports exactly the files no entry names |
| Journal.Hits | scripts/check-migrations.ts:367-435 | nothing is reported if and only if the commit is sound on its own and extends its base |
| Journal.Accept | scripts/check-migrations.ts:360-442 | the verdict with and without a base, in CI and outside, with and without a migration directory |
| Journal.ExtendsIsPrefix | scripts/check-migrations.ts:9-14 | for sound commits, extending the base means exactly that its scripts, contents included, are a prefix of the new ones |
| Journal.UpgradeIsExact | scripts/check-migrations.ts:12-14 | a database that ran all of the base ends with exactly the new scripts if and only if the comparison passes |
| Journal.HistoryGrows | scripts/check-migrations.ts:9-14 | in a line of accepted commits the scripts of each are a prefix of those of every later one |
| Journal.AnyDeployments | scripts/check-migrations.ts:12-14 | after deployments in any order, with commits skipped, repeated and rolled back, the database has run exactly the scripts of the newest commit ever deployed, as if from scratch |
| CiUnits.BuildUnits | scripts/ci-shard.ts:29-71 | every error of the chain is found in the source's order, else the units are the specified ones; each is a suite, the build with its check or one other command, and its seconds are the sum, over its commands, of the weight recorded for the text behind the last space, else for the whole command, else 10, or for a suite of the weight under its strict name, else under its name, else 10 |
| CiUnits.GroupCommands | scripts/ci-shard.ts:50-68 | the loop with its moving index builds the units: strict suites, the dependency as one unit, single commands |
| CiUnits.IdCount | scripts/ci-shard.ts:69 | the set of ids has as many members as there are units if and only if no id repeats |
| CiUnits.UnitsRecorded | scripts/ci-shard.ts:32-61 | the recorded seconds and the shape of every unit, said without the functions that compute them |
| CiAccept.AcceptedExactly | scripts/ci-shard.ts:16-71 | a chain is accepted if and only if the weights are positive, no command is blank, the locked entry occurs once, and with its commands in its place no command or suite repeats, the strict entry is there, the build stands directly in front of its check, and no command is named like a strict suite |
| CiAccept.FaultExactly | scripts/ci-shard.ts:16-69 | every error is named exactly when it is what is wrong first: a weight, a blank command, the locked entry, the strict entry, the dependency missing or repeated, a repeated unit |
| CiAllocate.Allocate | scripts/ci-shard.ts:78-93 | for a count the host can allocate the loop over mutable shards and totals gives the specified allocation, with the longest units on shards of their own as long as there are any; other counts are an invalid count or a range error |
| CiAllocate.LightestShard | scripts/ci-shard.ts:84-85 | the scan finds the first of the lightest shards |
| CiAllocate.LongestSpread | scripts/ci-shard.ts:82-88 | the longest unit is on the first shard, the second longest on the second and so on, earlier ones first among equally long ones |
| CiAllocate.LongestOnFirst | scripts/ci-shard.ts:78-93 | for all weights, the unit of a chain for which the table records more than for any other is on the first shard |
| CiAllocate.LongestFirstBound | scripts/ci-shard.ts:78-93 | no shard takes longer than 4/3 - 1/(3m) of the largest shard of any schedule whatever on m shards |
| CiAllocate.AllocationBalanced | scripts/ci-shard.ts:78-93 | taking any unit off a shard leaves it no heavier than every other shard |
| CiAllocate.AllocationAverage | scripts/ci-shard.ts:78-93 | m times a shard's total is at most the sum of all plus m - 1 times any one of its units |
| CiAllocate.AllocationPermutes | scripts/ci-shard.ts:78-93 | the shards hold exactly the units, each as often as the chain |
| CiAllocate.AllocationInOrder | scripts/ci-shard.ts:89-92 | inside a shard the units keep the order of the chain |
| CiAllocate.AllocationTotal | scripts/ci-shard.ts:83-88 | a shard's duration is the running total the greedy loop kept for it, sorting notwithstanding |
| CiCoverage.SameCommands | scripts/ci-shard.ts:100-107 | counting down a map accepts exactly equal bags of commands |
| CiCoverage.SameUnits | scripts/ci-shard.ts:109-118 | the loop over ids with a seen set accepts exactly equal bags of units, estimates aside |
| CiCoverage.CheckCoverage | scripts/ci-shard.ts:95-122 | accepts if and only if the shard count is right, the chain is valid, no suite name is empty and the shards together are the canonical units, each once |
| CiCoverage.AllocationCovers | scripts/ci-shard.ts:78-122 | what the allocator makes of a valid chain under any weights and any count is accepted if and only if no suite name is empty |
| CiCoverage.AllocationAccepted | scripts/ci-shard.ts:78-122 | with suites that have names, as the repository's have, every allocation is accepted |
| CiCoverage.CoveringIsComplete | scripts/ci-shard.ts:97-107 | accepted shards run every command of the expanded chain exactly as often as the chain |
| CiCoverage.EachUnitOnce | scripts/ci-shard.ts:108-118 | accepted shards hold each canonical unit exactly once |
| CiCoverage.DependencyTogether | scripts/ci-shard.ts:13-14 | in accepted shards the console build and the check of its output are one unit, in this order |
| CiCoverage.UnitsRunEverything | scripts/ci-shard.ts:50-68 | grouping into units neither loses nor adds a command |
| CiCoverage.WeightsOnlyEstimate | scripts/ci-shard.ts:95-108 | weights change estimates only, so checking against unweighted units is enough |
| ModuleState.OneMeaning | scripts/check-tenant-state.ts:281-331 | a name has exactly one meaning: the value all its finite derivations agree on, or refusal if there is none |
| ModuleState.CycleIsState | scripts/check-tenant-state.ts:247-250 | a name on a cycle of evaluated references has no derivation of any depth |
| ModuleState.CycleReachedIsState | scripts/check-tenant-state.ts:247-250 | nor has a name from which such a cycle is reached |
| ModuleState.RegisteredExactly | scripts/check-tenant-state.ts:281-331 | the same for the meaning: refusal exactly for what is neither unchanging nor computed, each said without the values of the evaluator |
| ModuleState.SafeExactly | scripts/check-tenant-state.ts:281-331 | a name is let through without a primitive exactly if it leads to a function, class, import from outside, built-in or immutable literal |
| ModuleState.ComputedExactly | scripts/check-tenant-state.ts:374-534 | a name has a primitive exactly if all operands on all branches have one and every operator has a result, and the primitive is what evaluating one branch gives |
| ModuleState.RefusedReached | scripts/check-tenant-state.ts:281-331 | a chain of uses that ends at a mutable name, an unknown name, a missing export or an unsupported form refuses its first name |
| ModuleState.Values.Guarded | scripts/check-tenant-state.ts:247-256 | whatever is cached and whatever evaluations are open, the answer is the meaning of the key |
| ModuleState.Values.Compute | scripts/check-tenant-state.ts:258-331 | imports, named re-exports, undestructured definitions and globals give the meaning of their key |
| ModuleState.Values.Expression | scripts/check-tenant-state.ts:374-534 | every form but member and element access gives the meaning of the expression, with default refusal |
| ModuleState.Values.TemplateText | scripts/check-tenant-state.ts:403-411 | stopping at the first span that is no primitive gives the meaning of the template |
| ModuleState.Values.Required | scripts/check-tenant-state.ts:536-538 | a name has to be registered if and only if no finite derivation gives it a value; that is, if it is neither another name of something that cannot change nor computed from primitives on all branches; whatever uses a mutable or unknown name, a missing export or an unsupported form, at any distance, has to be registered |
| ModuleState.Values.QueryAll | scripts/check-tenant-state.ts:247-256 | queries in any order and repetition get the same answers, although intermediate results are cached while a cycle is open |
| ConstFolding.ObjectLookupExact | scripts/check-tenant-state.ts:345-368 | for every shape of object literal, accessors, spreads, computed, numeric and prototype properties included, what the search finds is what the key gives, for all contents and runs, if and only if the shape settles the key |
| ConstFolding.DecidedIsRight | scripts/check-tenant-state.ts:345-368 | a settled key is looked up rightly in every run |
| ConstFolding.ArrayLookupExact | scripts/check-tenant-state.ts:341-368 | for every array literal, holes and spreads included, the search is right for all contents and runs if and only if the key writes the position read canonically |
| ConstFolding.InnerLiteralExact | scripts/check-tenant-state.ts:352-357 | whatever a program writes, a settled key of a literal gives what the text found there says, for all contents around it, if and only if that text is no unfrozen literal |
| ConstPromise.WritesDoNotMatter | scripts/check-tenant-state.ts:352-357 | if every literal inside an immutable one is immutable, a run needs no condition on writes to be one the answers hold in |
| ConstSound.NamesFollow | scripts/check-tenant-state.ts:110-130 | following a name's flattened accesses with depth-numbered defaults reaches exactly the value recursive destructuring gives it |
| ConstSound.OneDeeper | scripts/check-tenant-state.ts:124-128 | a default recorded one level deeper is the only one of its depth and leaves the shallower levels alone |
| ConstSound.BinaryTerm | scripts/check-tenant-state.ts:443-532 | folding after evaluating both operands agrees with a run that may skip the right one |
| ConstSound.LiteralFound | scripts/check-tenant-state.ts:339-368 | what the search in a literal found is what property access or destructuring takes out of the literal's value in every run that keeps the promise |
| ConstValues.Evaluator.ConstValue | scripts/check-tenant-state.ts:287-300 | the loop over accesses and defaults answers something that holds of the value at the end of every walk along them |
| ConstValues.Evaluator.Fill | scripts/check-tenant-state.ts:294-298 | the defaults of one depth, used or not, leave a verdict that holds of the filled value; a refused default refuses the name |
| ConstValues.Evaluator.Member | scripts/check-tenant-state.ts:333-372 | the answer for a member holds of whatever property access or destructuring takes out of the owner's value; in a literal it is the value found, its length, or undefined |
| ConstValues.Evaluator.Expression | scripts/check-tenant-state.ts:374-534 | the answer for an expression holds of its value, skipped operands and branches included, in every run that keeps what its evaluation looks at |
| ConstValues.Evaluator.StarredValue | scripts/check-tenant-state.ts:270-278 | the first star re-export that is not refused gives an answer that holds of the name, if the modules that provide it agree |
| ConstValues.Evaluator.Guarded | scripts/check-tenant-state.ts:247-256 | every cached and every new answer for a key holds of its value whenever it is read, in every run that keeps what the key depends on; with enough fuel there is an answer, where looking into literals goes round there is none |
| ConstValues.Evaluator.Answer | scripts/check-tenant-state.ts:281-331 | whatever was asked before, a primitive answer is what the name holds in every run that, among the definitions and terms the answer depends on, looks up settled keys and writes to no unfrozen literal taken out of another; in programs frozen all the way, whatever it writes; a name that is mutable, unknown or made of something like that is always refused; where definitions do not go round the answer, with fuel more than twice the rank, is the verdict that follows from them, so a name computed from primitives is answered with the primitive it holds |
| ConstValues.Evaluator.AnswerAll | scripts/check-tenant-state.ts:552-557 | queries in any order and with repetition get the verdicts that follow from the definitions, and computed names the primitive they hold, up to the first for which the fuel does not suffice |
| ConstExposed.ExposedParts | scripts/check-tenant-state.ts:374-534 | an exposed term is one without a case, a literal that can be written to, or one with an exposed part |
| ConstExposed.ExposedLocal | scripts/check-tenant-state.ts:281-300 | an exposed name is mutable, imported from something exposed, or destructured with an exposed initializer, key or default |
| ConstWorth.PartAsked | scripts/check-tenant-state.ts:247-256 | after a part has been evaluated, from whatever cache, the cache still agrees with what follows from the definitions and the part has the verdict that follows |
| ConstWorth.VisitAsked | scripts/check-tenant-state.ts:247-256 | putting a name under visit and caching its answer keeps both, as what is being visited never ranks below what is evaluated |
| ConstWorth.BinaryDue | scripts/check-tenant-state.ts:443-528 | folding both operands gives the verdict the lazy meaning of the operator prescribes |
| ConstWorth.PathDue | scripts/check-tenant-state.ts:287-300 | following accesses and defaults gives the verdict that follows for a destructured name |
| ConstWorth.StarFoundDue | scripts/check-tenant-state.ts:270-278 | the first star re-export that is not refused gives the verdict that follows |
| ConstComplete.ComputedFits | scripts/check-tenant-state.ts:374-534 | where every operand on both branches has a primitive value in a run, operators are defined, and keys of frozen literals are settled, the primitives of the run are verdicts that follow from one another |
| ConstComplete.FoldsAsComputed | scripts/check-tenant-state.ts:281-331 | so a computed name has the verdict of the primitive it holds in the run |
| ConstProduct.ProductComputes | scripts/check-tenant-state.ts:459-461 | a product of a literal and another const is such a part of its program |
| ConstExample.Product | scripts/check-tenant-state.ts:443-528 | the evaluator answers 1800000 for 30 * MINUTE_MS with MINUTE_MS = 60_000, in any sequence of queries |
| ConstFuel.TermToParts | scripts/check-tenant-state.ts:374-534 | the fuel for a term of a given depth is, one level down, the fuel for each of its parts |
| ConstEnough.EnoughFuel | scripts/check-tenant-state.ts:247-256 | for every program whose literals contain only names ranked lower than their definition, all fuel from a bound in the number, rank and height of the definitions on is enough for every key |
| ConstTables.CirclingIsEndless | scripts/check-tenant-state.ts:345-354 | in a table of literals a term whose references never end forces another such term |
| ConstTables.Ask | scripts/check-tenant-state.ts:345-354 | a definition over tables of frozen literals is answered with enough fuel if following its references ends, and with no fuel if it does not |
| ConstExample.ExampleIsReal | scripts/check-tenant-state.ts:110-130 | a run of a nested pattern with a default is one the promise covers, next to an object that is written to, a spread one and a variable that changes |
| ConstExample.FirstOfTwo | scripts/check-tenant-state.ts:347-348 | of two fields of a name the evaluator answers the first, the object has the second |
| ConstExample.FromPrototype | scripts/check-tenant-state.ts:363-367 | for a key of a prototype chosen in the literal the evaluator answers undefined, the program gets its value |
| ConstExample.LeadingZero | scripts/check-tenant-state.ts:345-346 | the key "01" is answered with element 1 although the array has no such key |
| ConstExample.BehindAWrite | scripts/check-tenant-state.ts:355-357 | behind a shallow freeze the evaluator answers what the inner literal said, the program reads what was written |
| ConstExample.SelfReading | scripts/check-tenant-state.ts:352-354 | for a frozen literal that refers to its own key there is no answer with any fuel |
| RowScore.FillTable | eval/attachment-accuracy.ts:52-58 | the nested loops fill the table with the specified distances |
| RowScore.StepBack | eval/attachment-accuracy.ts:64-79 | one turn of the backtrace takes the step the tie-breaking names and counts it |
| RowScore.ScoreRows | eval/attachment-accuracy.ts:49-81 | the score is that of an alignment of all rows, no alignment has fewer differences, its parts add up to the two lengths; each count is the number of steps of that alignment that belong to it, right quantities those that put rows with equal quantities side by side; a perfect reading gets everything right |
| RowScore.DistIsLeast | eval/attachment-accuracy.ts:56-58 | no alignment costs less than the table entry |
| RowScore.BacktraceAligns | eval/attachment-accuracy.ts:60-79 | the backtrace yields an alignment of all rows whose cost is the table entry |
| RowScore.ExtraHasRow | eval/attachment-accuracy.ts:75-78 | the last branch always has a read row left |
| RowScore.ScoreAddsUp | eval/attachment-accuracy.ts:49-81 | for every alignment: right, wrong and missed are the true rows, right, wrong and extra the read ones, twice right plus wrong plus cost is their sum |
| RowScore.ScoreCounts | eval/attachment-accuracy.ts:61-79 | for every alignment the seven counts of the score are the numbers of steps with equal part numbers, with other part numbers, with equal quantities, with both equal, and of missed, extra and true rows |
| RowScore.PerfectReading | eval/attachment-accuracy.ts:49-81 | scored against itself every text has all part numbers, quantities and rows right and nothing wrong, missed or extra |
| RowScore.BacktraceIsFirst | eval/attachment-accuracy.ts:60-79 | among all alignments with the fewest differences the backtrace is the one that, read from the end, takes pairs before missed rows before extra ones |
| ChunkGraph.KeySet.Add | scripts/check-console-dist.ts:152-154 | adding keeps insertion order and drops repetitions |
| ChunkGraph.Walk | scripts/check-console-dist.ts:152-157 | the recursion over the shared set adds only reachable chunks and leaves no reference of an added chunk unfollowed |
| ChunkGraph.Collect | scripts/check-console-dist.ts:151-166 | from an empty set the walk yields exactly the chunks with a path that avoids the skipped one, each once |
| ChunkBudget.JsOf | scripts/check-console-dist.ts:158-159 | the files are exactly the JS files of a chunk and its static dependencies of any depth, one for each chunk |
| ChunkBudget.CheckFirstScreen | scripts/check-console-dist.ts:182-188 | the total is the size of the entry's and the overview's JS, every file once |
| ChunkBudget.CheckRoutes | scripts/check-console-dist.ts:191-200 | exactly the routes whose JS chunks beyond the entry's files exceed the budget are over it, and the worst route is the dearest |
| ChunkBudget.ChargedCovers | scripts/check-console-dist.ts:150-159 | the sum over chunks is never less than what is fetched, and is exactly that when no two of them share a file |
| ChunkBudget.NavigationBudget | scripts/check-console-dist.ts:191-200 | the routes fit the budget from the entry alone if and only if no history of visits, prefetches and dropped files ever fetches more on a visit |
| ChunkBudget.CheckEditor | scripts/check-console-dist.ts:209-227 | each complaint is made exactly when its condition holds |
| ChunkBudget.LoadedWithout | scripts/check-console-dist.ts:160-166 | a file is reachable without a chunk if and only if some order of loading brings it in before that chunk |
| ChunkBudget.EditorOnlyThroughSop | scripts/check-console-dist.ts:216-226 | a file escapes the complaint exactly when every order of loading that includes it includes the page first |
| ChunkBudget.CheckSplit | scripts/check-console-dist.ts:169-228 | passes if and only if there is one entry, the modules are known, the first screen and every route fit, and the editor sits behind its page |
| ChunkBudget.PassesIsSafe | scripts/check-console-dist.ts:169-228 | what passes keeps every promise of the split for every history |
| ChunkBudget.RefusalExact | scripts/check-console-dist.ts:191-220 | a split that keeps its promises is accepted for all sizes of its files if and only if no route adds up two chunks with one file and the page refers to the editor without the empty key |
| ChunkBudget.GoodBuildIsRefused | scripts/check-console-dist.ts:196-198 | a build with one file under two chunks keeps every promise for some sizes and is refused |
| ChunkBudget.RouteExactly | scripts/check-console-dist.ts:59 | the pattern fits exactly the keys in one of the two page directories with a name without a slash and the lazy ending; a route is a chunk loaded dynamically with such a key |
| ChunkBudget.NeedsExactly | scripts/check-console-dist.ts:151-159 | a chunk needs exactly the JS files of the chunks that a chain of static imports leads to |
| ChunkBudget.LazyPageExactly | scripts/check-console-dist.ts:205-208 | the modules the entry may not hold are exactly those of the page directory other than the login page |
| ChunkBudget.CodemirrorExactly | scripts/check-console-dist.ts:209 | editor modules are exactly those with the editor's directory somewhere in their path |
| ChunkBudget.JsExactly | scripts/check-console-dist.ts:159 | JS files are exactly those with the ending |
| RateLimiter.Limiter.Call | src/http-guards.ts:80-91 | the decision and the new map are the specified ones, refused calls store nothing new |
| RateLimiter.Limiter.Sweep | src/http-guards.ts:70-78 | in whatever order buckets are visited, emptied ones go and the others keep their recent times |
| RateLimiter.RunTracks | src/http-guards.ts:68-92 | over every run each bucket's list is its part of a log that keeps everything, up to what has left the window |
| RateLimiter.WindowBound | src/http-guards.ts:80-91 | no bucket admits more than the limit in any window, whatever was asked and swept |
| RateLimiter.KeyBound | src/http-guards.ts:82 | no key gets more than twice the limit in any window |
| RateLimiter.DoubleBurstReached | src/http-guards.ts:80-91 | for every positive limit, every full map and every other key there is a run in which the key gets twice the limit in one window |
| RateLimiter.OnePerMinute | src/http-guards.ts:80-91 | with a limit of one a second call of a key is admitted exactly when 60000 milliseconds have passed |
| RateLimiter.KeyLimitExact | src/http-guards.ts:27-30 | every key stays within the limit in every window of every run over a set of keys if and only if the set is no larger than the cap, or the limit is zero |
| RateLimiter.MapStaysSmall | src/http-guards.ts:27-29 | the map never holds more than one bucket beyond the cap |
| RateLimiter.TotalBound | src/http-guards.ts:27-29 | all clients together get at most the limit times cap plus one in the last window, at every moment |
| RateLimiter.RefinesLog | src/http-guards.ts:68-92 | with no more distinct keys than the cap, all answers are those of the log that keeps everything |
| RateLimiter.SweepsDoNotMatter | src/http-guards.ts:70-78 | the same calls get the same answers wherever the sweeps fall |
| ClientAddress.ForwardedChain | src/http-guards.ts:56-59 | the chain read from the header is the client's own entries followed by one entry for each proxy |
| ClientAddress.KeyCannotBeForged | src/http-guards.ts:31-65 | on a public connection, behind at least the trusted proxies, or with no trusted hop and a known address, the key is that trustworthy address whatever the header says |
| ClientAddress.ForgedKey | src/http-guards.ts:61-64 | in all other cases every address the client writes becomes its key |
| ClientAddress.ForgeryExact | src/http-guards.ts:31-65 | the key is the same for all headers if and only if there is a trustworthy address |
| ClientAddress.PrivateExactly | src/http-guards.ts:44 | of the addresses in dotted form exactly 127.*, 10.*, 192.168.* and 172.16.* to 172.31.* are private |
| ClientAddress.PrivateOtherwise | src/http-guards.ts:44 | of the others exactly the loopback and those that start with fc or fd in any case |
| ClientAddress.UnmappedExactly | src/http-guards.ts:52 | the dual-stack prefix is taken off in any mixture of cases |
| ClientAddress.BehindGateway | src/http-guards.ts:45-65 | behind a gateway with a private address, 172.17.0.1 for one, the key is the address the proxy saw, whatever the header said before |
| ClientAddress.FromPublicNetwork | src/http-guards.ts:61-65 | from the public network the key is the address of the connection, whatever the header says |
| ClientAddress.BlankEntry | src/http-guards.ts:56-59 | blank entries of the header do not count |
| ClientAddress.NothingKnown | src/http-guards.ts:64 | without a peer address and an entry the key is direct |
| Budget.Host.HostBudget | src/budget.ts:34-54 | loading after a restart and the reset on another day |
| Budget.Host.Persist | src/budget.ts:55-57 | a pending timer is left alone, otherwise one is set |
| Budget.Host.TryReserve | src/budget.ts:105-118 | the decision, the count and the pending timer are those of the specified step |
| Budget.Host.FireTimer | src/budget.ts:58-74 | the timer clears itself and copies the tally to disk if the write succeeds |
| Budget.ReservationsAreSafe | src/budget.ts:34-118 | over every run calls are the sum over sessions, caps in force hold in memory and on disk, and the file is an earlier, pointwise smaller state of its day |
| Budget.FlushIsPending | src/budget.ts:55-77 | while writes succeed a timer runs whenever a reservation is not on disk |
| Budget.BooksBalance | src/budget.ts:34-118 | over every run the day's opening and grants are what is counted plus what restarts forgot, in all and session by session |
| Budget.GrantExact | src/budget.ts:105-118 | over every run a call is granted if and only if the day's opening and grants less what restarts forgot are below the daily cap, and those of the session below its cap, a cap of zero being none |
| Budget.OverspendIsLost | src/budget.ts:105-118 | the day's opening and grants exceed the daily cap exactly when the counted and the forgotten ones together do, and the excess is the forgotten ones less what the cap leaves |
| Budget.SessionOverspendIsLost | src/budget.ts:105-118 | the same for every session and its cap |
| Budget.UnflushedExact | src/budget.ts:55-77 | calls are missing on disk if and only if some granted reservation of the day has been followed by neither a successful write nor a restart |
| Budget.LossExact | src/budget.ts:34-77 | something of the day is forgotten if and only if a granted reservation of the day is followed by a restart with no successful write between the two |
| Budget.CapIsExceeded | src/budget.ts:34-118 | for every daily cap there is a run that grants twice as many calls on one day |
| Budget.NoRestartNoLoss | src/budget.ts:105-118 | without restarts nothing is forgotten |
| Budget.LossNeedsTimer | src/budget.ts:55-77 | while writes succeed only grants with a timer running can be lost |
| Blobs.ReadBlobs | scripts/check-public-boundary.ts:93-105 | the loop with its position reads the specified frames; behind a header without a size the position is no number and counts as the beginning |
| Blobs.BatchReads | scripts/check-public-boundary.ts:93-105 | for every list of contents and missing objects, with line ends and header look-alikes anywhere, the frames are the contents in order, started again behind each missing object |
| Blobs.BatchRoundTrip | scripts/check-public-boundary.ts:93-105 | if every object is there, the frames give back exactly the contents |
| Blobs.MissingShifts | scripts/check-public-boundary.ts:99-102 | for the first missing object nothing is read, and the paths behind it get the contents from the first one on |
| Blobs.IndexRoundTrip | scripts/check-public-boundary.ts:80-90 | every path, with tabs, spaces and line ends in it, is read back with its own id; submodules as directories without one |
| Blobs.Pair | scripts/check-public-boundary.ts:134-138 | the cursor hands out the contents in order to the entries with an id |
| Blobs.ReadAll | scripts/check-public-boundary.ts:131-138 | listing, reading and pairing together give the specified entries and contents |
| Blobs.EachPathItsContent | scripts/check-public-boundary.ts:80-138 | for every index and object store, each path comes with its own content and each submodule with none if and only if no object is missing |
| Naturals.ValueDecimal | scripts/check-public-boundary.ts:100 | a decimal size is read back from its numeral |
| Text.SplitJoin | scripts/ci-shard.ts:16-20 | splitting a text and joining the pieces with the same separator gives the text back |
| Sorting.SortedUnique | scripts/ci-shard.ts:82 | there is one sorted arrangement under an order without ties, so any correct sort gives the one the model computes |

## Left out

- Message texts: reports are modelled as values (rule, line, name); the wording and the quoted head of a statement are not.
- Processes, git, gzip, file system, clocks and timers: their results (file contents, listings, compressed sizes, the time, whether a write succeeds) are inputs.
- JSON and TypeScript parsing: journals, manifests and module indexes arrive parsed; which declarations the index of a module collects is an input.
- Unicode tables: which characters are letters or digits beyond ASCII, and upper-casing beyond ASCII, are a parameter; where laws need it (`SqlVisible.Proper`), letters are no blanks, upper-casing gives at least one character and neither blanks nor small ASCII letters, and only letters become ASCII ones. Surrogate pairs do not occur because text is code points.
- Regular expressions are stated as predicates on words of the normalised statement, one for each rule.
- Host arithmetic: the operators on primitives are parameters in the evaluator models; rounding and mixed big integers are not modelled. Durations are reals, so sums do not round.
- CiUnits.BuildUnits: the strict suites are a parameter where the source has a fixed list of names, the one dependency rule of the source is fixed, weights are positive reals with absent ones defaulting to 10.
- CiAllocate.Allocate: the built-in stable sort is an insertion sort; `Sorting.SortedUnique` says why any correct sort gives the same order.
- ModuleState.Values.Compute: destructured definitions, namespace imports and star re-exports are not in this model, `ConstValues` has them; the source drops refusals at members and stars, so independence of the order of queries does not hold there.
- ModuleState.Values.Expression: member and element access are not in this model, for the same reason; `ConstValues` has them.
- ModuleState.Values.Guarded: keys are values, not joined strings.
- ConstValues.Evaluator.Answer: nothing is said about runs in which something the answer depends on looks up a key its literal does not settle, or has been written to although a literal around it is frozen; `ConstFolding` says exactly when that makes the lookup wrong and `ConstExample` shows wrong answers. Literals under `as const` count as never written, which the type checker of the source language enforces; literals nested in them are treated like those nested in a frozen one.
- ConstValues.Evaluator.StarredValue: nothing is said about a name that two star re-exports give different values, nor about a default export behind a star, which the language does not re-export.
- ConstValues.Evaluator.Member: nothing is said about the rest of a module that has an export called "*".
- ConstEnough.EnoughFuel: the converse is proved for tables only; in other programs the verdict of an owner can depend on what is being evaluated around it.
- ConstTerms.Eval: object identity, the temporal dead zone and changes to the common prototypes are not modelled, nor a second prototype in one literal, which no program can contain; iterating an array pattern over an array takes its elements by position, and one destructuring reads the same key of the same object only once.
- ChunkBudget.CheckSplit: a chunk is found by its own key in the manifest, not through an inherited name; the checks of texts, fonts, styles and file names in the same script are not modelled.
- RateLimiter.Limiter.Call: the limit is an integer; the source would also take a fraction.
- RateLimiter.WindowBound: the clock is assumed not to go back.
- Budget.Host.TryReserve: only the host runtime is modelled, other runtimes are never limited by this module; session ids that name members of the object prototype are not modelled, nor files written by something else.
- Budget.ReservationsAreSafe: the caps do not change between restarts and the clock does not go back.
- Blobs.ReadBlobs: a size is read if it is a plain decimal, as git writes it; what other texts would give as a number does not occur in git's answers and is not modelled.
- Journal.Accept: the number and the time of an entry are integers, where the source would take any number; entries are compared as values with their further fields as one text; the migrator is the one the header of the script describes, drizzle itself is not part of this model.
- Journal.AnyDeployments: each commit's base is the commit before it, where the script uses the merge base with the development branch.
- SqlLayers.DoNeverHides: other rules than those on the statement text (the reports about faulty annotations) are not covered.
- RowScore.ScoreRows: the sums and percentiles over several runs and the loop that measures the samples are not modelled.
- Not modelled: the path blacklist, word list and hash masking of the public-boundary check, the cross-site test of the HTTP guards, the printing of shards and the spawning of their commands.
