# A model of oslo's core, in Dafny

oslo is a shell with Lua in it. These modules model the parts of it that are easiest to get wrong and prove what
they promise. Code that changes things step by step is modelled by methods that do, each proved against a function;
what the source promises is then proved of those functions for all inputs, all runs and all heaps.

| module | what it models |
|---|---|
| `Values`, `TableProofs`, `Teardown` | the shared table: array part, hash part, insertion order and kept key objects as one finite map; tearing down without recursion |
| `Luna`, `IntoLua`, `Faithful`, `FromLua`, `RoundTrip`, `BothWays` | values crossing into the Lua VM and back: two worklists over heaps that may be cyclic and shared |
| `Glob`, `GlobCompile`, `GlobProofs`, `GlobBrackets`, `GlobForms` | compiling and matching one shell pattern (section 2.13 of POSIX.1-2017 XCU) |
| `ForkGate` | the gate that keeps a fork away from process-wide locks, over any number of threads |
| `BraceAtoms`, `BraceSequence`, `BraceEndpoints`, `Brace`, `BraceMeaning`, `BraceLimit`, `BraceRuns`, `BraceText` | brace expansion on source text, under a budget |
| `Heredoc`, `HeredocSpellings`, `HeredocBodies`, `Nesting`, `NestingCode`, `NestingScripts`, `NestingKeywords`, `NestingMoves`, `NestingTidy`, `NestingDepth`, `NestingProofs`, `NestingText` | the nesting check in front of the parser, related to a grammar of scripts |
| `Utf8`, `Lossless` | file names that are not text carried as text, over UTF-8 (section 3 of RFC 3629) |
| `Cli`, `CliProofs`, `CliMeaning` | the invocation parser, after the synopsis of `sh` in POSIX.1-2017 XCU |
| `MacroText`, `Macros`, `MacroRuns`, `MacroWrites`, `MacroSync` | macro records, their text, their life in the store and which copy wins between machines |
| `Globals` | Lua's global names over the globals table, a table beside it and the shell |
| `Base64`, `Base64Digits` | section 4 of RFC 4648 |
| `Wrappers`, `Seqs`, `Chars`, `Decimals` | what the others share |

## Where the code and its own account differ

The model follows the code. In each of these places a lemma says exactly when the code does what is said of it.

- The brace budget is described as a limit on the words a word produces (crates/oslo-base/src/brace.rs:48-56), and a
  comment in its examples calls it a limit on the product. It is charged for the words of every suffix and
  alternative on the way as well, so `{a,b}{1..50000}` is declined though its product is the limit
  (`BraceLimit.DeclinedAtTheLimit`, `BraceLimit.TwoGroupsDeclined` for any two groups, and `Brace.ExpandBounded` for
  every word).
- A `}` in a double-quoted string closes the brace group around it, so what follows there is counted one level too
  shallow (`NestingProofs.QuotedBraceHidesALevel`). `NestingProofs.ScriptsAreMeasured` says exactly when the depth found
  is the script's.
- The scan takes the word after an argument `in`, `then`, `else`, `elif` or `do`, and the first word after a string
  with a substitution in it, for one in command position; it misses a keyword right before `)`, and an `if` or `case`
  right after `if`, `while` or `"$(`. `NestingKeywords.ReadAsATree` says exactly which scripts are free of it,
  `NestingMoves.ScriptReads` what the scan does to its stack on all the others, and `NestingTidy.ScriptsLeaveStacks`
  exactly when it still leaves every stack as found. A reserved word after the argument `in` opens or closes what it
  would as a command (`NestingMoves.WordAfterIn`); a `case` right after `"$(` is missed and its first pattern ends the
  substitution, so that the text after it is read with the quoting turned round (`NestingMoves.CaseInSubstitution`).
- Removing a macro answers that it was there and was written, not that it is gone: with the revision at its limit or
  no randomness the record stays readable (`MacroRuns.RemovalHides`).
- A record is written whatever its tags hold, and read back only if the header can carry them
  (`MacroText.RoundTrip`); otherwise a reader is shown what the header then says (`MacroRuns.ReadsWhatWasLastDone`).
- A class name keeps its meaning inside brackets even when quoted (`GlobBrackets.QuotedBracket`).
- Two shell functions that are handles to one Lua function become one key on the way into the VM, a function with no
  body the VM can call becomes nil, and a whole float past the 64-bit range used as a key comes back clamped
  (`Faithful.CopiedPictures`, `RoundTrip.RestoredPictures`, `BothWays.ThereAndBack`).
- A bare `-c` takes the first operand as the program even when a later word attached a program of its own to a second
  `-c` (`CliMeaning.BareCommandRuns`).

## Model

| member | source | states |
|---|---|---|
| `Values.Table.Get` | crates/oslo-base/src/value.rs:146-157 | the answer is what the array part holds at a whole number in range, else what the hash part holds under the normalised key, else nil |
| `Values.Table.Set` | crates/oslo-base/src/value.rs:163-212 | the four fields after a write, in place: overwriting, appending and joining the hash entries that follow, trimming trailing nils, or a write to the hash part |
| `Values.Table.SetHash` | crates/oslo-base/src/value.rs:191-211 | the hash side of a write: nil removes the key, its place in the order and its kept object; a new key goes last; nil and NaN keys do nothing |
| `Values.Table.Pairs` | crates/oslo-base/src/value.rs:220-240 | the listing: positions that hold something in order, then hash entries in order |
| `TableProofs.OneWrite` | crates/oslo-base/src/value.rs:163-212 | every write keeps the invariant (no nil at the array's end, no hash key from 1 to one past it, order and kept objects exactly those of the hash part) and is one update of one finite map |
| `TableProofs.OneRead` | crates/oslo-base/src/value.rs:146-157 | a read is a lookup in that map |
| `TableProofs.ReadsLastWritten` | crates/oslo-base/src/value.rs:145-212 | after any run of writes a read answers the last value written under the same normalised key |
| `TableProofs.LengthIsBorder` | crates/oslo-base/src/value.rs:215-217 | the length is a border of the map |
| `TableProofs.ListsEveryKeyOnce` | crates/oslo-base/src/value.rs:219-240 | after any run of writes the listing has each key of the map once, with its value: positions ascending, then hash keys by when each last stopped being absent |
| `TableProofs.KeysAreEquality` | crates/oslo-base/src/value.rs:56-77 | two values index one entry exactly when Lua's `==` holds of them, and nil and NaN alone index none |
| `TableProofs.OrderIsBirthOrder` | crates/oslo-base/src/value.rs:99-118 | the kept order is the order of birth: overwriting does not move a key and re-adding a removed one puts it last |
| `Teardown.TakeTables` | crates/oslo-base/src/value.rs:282-301 | what a table holds, metatable and kept objects included, is all on the queue once and the table is left empty |
| `Teardown.Counts.Drop` | crates/oslo-base/src/value.rs:262-275 | the worklist ends, frees each table at most once, frees exactly the least set closed under having no owner outside it, empties those alone, and leaves every survivor's count equal to its remaining references |
| `Teardown.CyclesSurvive` | crates/oslo-base/src/value.rs:261-275 | tables that keep each other alive survive unless the root is among them |
| `Teardown.OwnedSurvive` | crates/oslo-base/src/value.rs:261-275 | a table owned from outside survives |
| `Teardown.QueueAgreesWithRecursion` | crates/oslo-base/src/value.rs:249-275 | the worklist leaves the counts the derived recursive teardown leaves |
| `IntoLua.Crossing` | crates/oslo-luavm/src/convert.rs:86-125 | one value across: a scalar keeps its sort, value and truth, a reference seen before is the one made before, a new table is made blank, linked and queued once |
| `IntoLua.ScalarsCross` | crates/oslo-luavm/src/convert.rs:92-104 | on the way in true is true, an integer an integer, a float that float and a string its bytes; truth is kept, but for a function the VM cannot be given |
| `IntoLua.Fill` | crates/oslo-luavm/src/convert.rs:51-83 | one turn of the worklist: every pair of the table and its metatable are copied onto its image and everything new is queued |
| `IntoLua.Transfer` | crates/oslo-luavm/src/convert.rs:51-83 | for every finite heap of tables, cyclic or shared: ends after filling each reachable table exactly once, with an image of its own for each, every entry and metatable copied under that linking |
| `Faithful.CopiedPictures` | crates/oslo-luavm/src/convert.rs:86-125 | the image of a table shows each of its pairs once and nothing else, exactly when each function in it is one the VM can be given and no two keys are handles to one Lua function |
| `FromLua.Shallow` | crates/oslo-luavm/src/convert.rs:250-283 | one value back: a scalar keeps its sort, value and truth, a table seen before is the one made before, a thread or userdata is nil |
| `FromLua.ScalarsComeBack` | crates/oslo-luavm/src/convert.rs:256-279 | on the way back the same of every scalar, a string being text exactly when its bytes are; tables and functions stay what they are |
| `FromLua.Fill` | crates/oslo-luavm/src/convert.rs:228-247 | one turn of the worklist back, whatever order the VM gives the entries in |
| `FromLua.Transfer` | crates/oslo-luavm/src/convert.rs:192-247 | for every finite heap of VM tables: ends after filling each reachable table exactly once, each with a shell table of its own holding every entry written in some order |
| `RoundTrip.RestoredPictures` | crates/oslo-luavm/src/convert.rs:228-283 | the shell table shows each entry once and nothing else, exactly when none is a thread or userdata and no key is a whole float past the 64-bit range |
| `RoundTrip.AllBack` | crates/oslo-luavm/src/convert.rs:192-247 | every VM table made on the way in is met again on the way back |
| `RoundTrip.ThereAndBackAgain` | crates/oslo-luavm/src/convert.rs:51-247 | what comes back of what was sent is the same graph: reachable tables renamed one to one and onto, the same maps, the same metatables |
| `BothWays.OnlyWhatCrosses` | crates/oslo-luavm/src/convert.rs:51-247 | only a value in which everything can cross comes back as the same graph: a function the VM cannot be given, or two keys that are one Lua function, leave a table short of an entry |
| `BothWays.ThereAndBack` | crates/oslo-luavm/src/convert.rs:51-247 | the two worklists in turn give that graph exactly when everything reachable can cross |
| `Glob.MatchesItems` | crates/oslo-base/src/glob.rs:294-329 | remembering only the most recent star answers the declarative relation (a star takes some run, any other item one accepted character), in at most (items+1)(items+name+1) turns |
| `GlobCompile.ParseNamedClass` | crates/oslo-base/src/glob.rs:248-262 | the class name from the opening `[:` to the first `:]`, or nothing |
| `GlobCompile.ParseClass` | crates/oslo-base/src/glob.rs:189-245 | the bracket expression's members, its negation and where it ends, or nothing when it is never closed |
| `GlobCompile.CompileItems` | crates/oslo-base/src/glob.rs:122-183 | with extended groups off, the items are the pattern's pieces with adjacent stars made one, and the flag says whether any is not a plain character |
| `GlobProofs.CollapsedLanguage` | crates/oslo-base/src/glob.rs:122-183 | making adjacent stars one keeps the language |
| `GlobProofs.CompiledLanguage` | crates/oslo-base/src/glob.rs:117-183 | a compiled pattern matches what its pieces taken one by one match |
| `GlobProofs.LiteralsMatch` | crates/oslo-base/src/glob.rs:79-97 | plain characters match their own text, up to case when case is ignored, and nothing else |
| `GlobProofs.QuotedMatchesItself` | crates/oslo-base/src/glob.rs:117-183 | a pattern quoted throughout matches its own text and nothing else |
| `GlobProofs.LiteralIsTheMatch` | crates/oslo-base/src/glob.rs:355-374 | a literal is answered exactly when no item is a metacharacter, and then a case-sensitive match is equality with it |
| `GlobProofs.FixedIsTheLength` | crates/oslo-base/src/glob.rs:355-379 | a fixed length is the length of every match |
| `GlobProofs.UnfixedGrows` | crates/oslo-base/src/glob.rs:355-379 | where no fixed length is answered, any match can be made one longer |
| `GlobBrackets.ClassRead` | crates/oslo-base/src/glob.rs:189-245 | a bracket expression with any members can be written and is read back as that |
| `GlobBrackets.WrittenPatternCompiles` | crates/oslo-base/src/glob.rs:122-183 | every pattern can be written, and compiling what was written gives it back, adjacent stars made one |
| `GlobBrackets.QuotedBracket` | crates/oslo-base/src/glob.rs:189-282 | quoted text in brackets is the set of its own characters exactly when no class name or symbol is spelled in it |
| `GlobBrackets.QuotedNameIsANameStill` | crates/oslo-base/src/glob.rs:248-262 | a class name quoted inside brackets is still that class |
| `GlobForms.BracketRead` | crates/oslo-base/src/glob.rs:189-282 | every form a bracket expression is written in (either sign, a `]` first, a `-` last, quoted and escaped characters, ranges, class names, collating symbols) is read as the set it lists, to its last bracket |
| `GlobForms.BracketAccepts` | crates/oslo-base/src/glob.rs:72-110 | and accepts exactly the names of one character in that set, or with a sign those of one not in it; ranges hold both ends, a named class what the table says, and where case does not count any case of the character will do |
| `GlobForms.QuestionAccepts` | crates/oslo-base/src/glob.rs:81-83 | `?` accepts every name of one character and no other |
| `GlobForms.StarAccepts` | crates/oslo-base/src/glob.rs:294-329 | `*` accepts every name |
| `GlobForms.CharacterAccepts` | crates/oslo-base/src/glob.rs:81-82 | a plain, quoted or escaped character accepts itself alone, or what lowers to the same where case does not count |
| `GlobForms.UnclosedIsPlain` | crates/oslo-base/src/glob.rs:122-183 | a `[` that is never closed is a plain character |
| `ForkGate.OneStep` | crates/oslo-base/src/forksafe.rs:28-81 | each step of any thread keeps the invariant: the gate counts the threads inside, a writer excludes them, depth and locks fit where a thread stands |
| `ForkGate.RunKeeps` | crates/oslo-base/src/forksafe.rs:28-81 | so does every run |
| `ForkGate.ForkFindsEverythingFree` | crates/oslo-base/src/forksafe.rs:65-81 | in every run from an idle process, when a thread forks no thread is inside a region, every process-wide lock is free and no other thread holds the write side |
| `ForkGate.BothEndFree` | crates/oslo-base/src/forksafe.rs:65-81 | the child becomes an idle process that can fork again, and the parent's gate is free |
| `ForkGate.DepthIsOpenRegions` | crates/oslo-base/src/forksafe.rs:31-46 | a thread's depth is the regions entered and not left, however they are left, so it returns to its entry value |
| `ForkGate.FinishingCounts` | crates/oslo-base/src/forksafe.rs:48-81 | every step that finishes something is one fewer left |
| `ForkGate.NeverStuck` | crates/oslo-base/src/forksafe.rs:48-81 | while any thread is near the gate some finishing step can be taken, whether or not the gate prefers writers |
| `ForkGate.ComesToRest` | crates/oslo-base/src/forksafe.rs:48-81 | once nothing new begins, every queued reader and writer is served in exactly the steps left |
| `ForkGate.SecondGuardWouldWait` | crates/oslo-base/src/forksafe.rs:50-63 | with a writer queued, a second guard on one thread could not be had, nor the writer's |
| `ForkGate.InheritedReadersStay` | crates/oslo-base/src/forksafe.rs:65-81 | a child forked inside a region never gets rid of guards whose threads it lacks |
| `ForkGate.ForkInside` | crates/oslo-base/src/forksafe.rs:70-81 | such a child can fork again some day exactly when no other thread was inside a region |
| `Lossless.EncodeName` | crates/oslo-base/src/lossless.rs:26-39 | the text a name is carried as: whole text as it is, each stray byte as its carrier |
| `Lossless.DecodeName` | crates/oslo-base/src/lossless.rs:47-61 | the bytes a text stands for |
| `Lossless.RestoreBytes` | crates/oslo-base/src/lossless.rs:73-90 | what the three-byte window leaves of a byte string |
| `Lossless.RoundTrip` | crates/oslo-base/src/lossless.rs:26-61 | a name survives being carried exactly when its valid parts spell none of the 256 carriers |
| `Lossless.RestoreWritten` | crates/oslo-base/src/lossless.rs:68-90 | written text restored is the bytes it stands for, so the window fires at carried characters alone |
| `Lossless.RestoreAtCarrier` | crates/oslo-base/src/lossless.rs:68-90 | in any bytes, text or not, a carried byte's four bytes become that byte and what stands on either side is restored by itself |
| `Lossless.RestoreElsewhere` | crates/oslo-base/src/lossless.rs:68-90 | bytes in which no such four stand are left as they are |
| `Lossless.RestoreSurrounded` | crates/oslo-base/src/lossless.rs:68-90 | a carried name restored inside other text gives its bytes back with that text untouched |
| `Lossless.StraysAre` | crates/oslo-base/src/lossless.rs:9-39 | a byte that begins no character is carried by the code point as far past U+10FF00 as the byte is past zero, and reading goes on after it |
| `Lossless.RunIsLongest` | crates/oslo-base/src/lossless.rs:30-37 | an ill-formed run goes as far as it might still have become a character, and no further |
| `Lossless.CarriedText` | crates/oslo-base/src/lossless.rs:26-39 | valid UTF-8 is carried unchanged |
| `BraceAtoms.ClosingAt` | crates/oslo-base/src/brace.rs:170-183 | where a quoted run ends, an unterminated one at the end of the text |
| `BraceAtoms.NestedAt` | crates/oslo-base/src/brace.rs:186-215 | where an expansion ends; the depth never falls below zero |
| `BraceAtoms.Split` | crates/oslo-base/src/brace.rs:138-164 | the atoms of a word |
| `BraceAtoms.Join` | crates/oslo-base/src/brace.rs:217-226 | their text |
| `BraceAtoms.RoundTrip` | crates/oslo-base/src/brace.rs:138-226 | joining what was split gives the text back, whatever is unterminated in it |
| `BraceAtoms.CutBetweenAtoms` | crates/oslo-base/src/brace.rs:138-164 | cutting a text between two atoms cuts nothing else: both parts read as their own atoms |
| `BraceAtoms.ExpansionIsOneRun` | crates/oslo-base/src/brace.rs:138-215 | every `${...}` and `$(...)` printed from a tree of quotes, escapes and nested delimiters is one opaque run |
| `BraceAtoms.QuotedIsOneRun` | crates/oslo-base/src/brace.rs:138-183 | a quoted run ends at its first unescaped closing quote, a single-quoted one at its first closing quote |
| `BraceAtoms.BackslashIsOneRun` | crates/oslo-base/src/brace.rs:138-164 | a backslash and the character it quotes are one run, whatever that character is, and a last one is a run alone |
| `BraceAtoms.OthersAreExposed` | crates/oslo-base/src/brace.rs:138-164 | any other character is exposed, a `$` that begins no expansion among them |
| `BraceAtoms.UnclosedHidesTheRest` | crates/oslo-base/src/brace.rs:166-215 | a quote or an expansion that is never closed hides everything after it |
| `BraceSequence.NumericSequence` | crates/oslo-base/src/brace/sequence.rs:60-85 | the numeric items, or nothing past the limit |
| `BraceSequence.CharSequence` | crates/oslo-base/src/brace/sequence.rs:87-117 | the letter items |
| `BraceSequence.SequenceAlternatives` | crates/oslo-base/src/brace/sequence.rs:16-47 | the alternatives of a sequence expression, or nothing |
| `BraceSequence.NumericSequenceDenotes` | crates/oslo-base/src/brace/sequence.rs:60-85 | a numeric sequence is refused for its length alone; its items read as exactly the numbers between the endpoints a whole number of steps from the first, nearest first |
| `BraceSequence.PaddedAlike` | crates/oslo-base/src/brace/sequence.rs:49-85 | a leading zero on an endpoint pads every item to the longer endpoint's width, sign counted |
| `BraceEndpoints.LettersDenote` | crates/oslo-base/src/brace/sequence.rs:16-117 | two letters and a readable step list one letter each: the first endpoint first, each a step further from it, and a letter exactly when it lies between the two a whole number of steps from the first |
| `BraceEndpoints.NumbersDenote` | crates/oslo-base/src/brace/sequence.rs:16-85 | two numbers list numbers in the same way, and are refused exactly when the distance is a hundred thousand steps or more |
| `BraceEndpoints.PaddingIs` | crates/oslo-base/src/brace/sequence.rs:49-85 | a leading zero on either endpoint makes every item as long as the longer, and without one no item has a leading zero |
| `BraceEndpoints.PlusIsFree` | crates/oslo-base/src/brace/sequence.rs:60-62 | a plus sign on an endpoint is read past |
| `BraceEndpoints.OnlySequences` | crates/oslo-base/src/brace/sequence.rs:16-47 | nothing but two letters, or two numbers few enough steps apart, with a numeric step if any, is a sequence |
| `BraceSequence.SequenceIsPlain` | crates/oslo-base/src/brace/sequence.rs:16-104 | one to 100,000 items, none holding a brace or a comma |
| `Brace.MatchingClose` | crates/oslo-base/src/brace.rs:281-294 | the closing brace's index, or nothing |
| `Brace.CommaAlternatives` | crates/oslo-base/src/brace.rs:300-319 | the parts between top-level commas, or nothing when there is none |
| `Brace.GroupShrinks` | crates/oslo-base/src/brace.rs:243-278 | what a group offers and what follows it each hold fewer exposed braces, which is why expansion ends |
| `Brace.ExpandBounded` | crates/oslo-base/src/brace.rs:243-278 | answers exactly when the budget covers the cost, spends exactly that, and answers the unbudgeted meaning; a refusal leaves no budget |
| `Brace.ExpandAtoms` | crates/oslo-base/src/brace.rs:232-240 | the meaning when it costs no more than the limit, else the word as typed; never none and never more than the limit |
| `Brace.MeaningSize` | crates/oslo-base/src/brace.rs:243-278 | a word means at least one word and no more of them than it costs; a word with no group costs nothing |
| `BraceMeaning.CloseIsTheMatch` | crates/oslo-base/src/brace.rs:281-294 | the matching brace is the first place where as many have closed as opened, and there is none exactly when there is no such place |
| `BraceMeaning.OptionsComeApart` | crates/oslo-base/src/brace.rs:300-319 | printed options come apart again at their own commas and at no others |
| `BraceMeaning.PrintedWordMeans` | crates/oslo-base/src/brace.rs:227-278 | every word printed from a tree of text, choices, sequences, brace pairs that are no group and braces never closed expands to every way of choosing, leftmost slowest, at a price read off the tree |
| `BraceMeaning.MeaningAt` | crates/oslo-base/src/brace.rs:243-278 | the words of a group in their order: those of one alternative after those of the alternatives before it, each against every word of what follows, in that one's order |
| `BraceLimit.TwoGroupsDeclined` | crates/oslo-base/src/brace.rs:48-56 | two groups side by side, comma groups or sequences, with no group inside them cost product plus second group, and are declined exactly when that exceeds the limit |
| `BraceLimit.DeclinedAtTheLimit` | crates/oslo-base/src/brace.rs:48-56 | `{a,b}{1..50000}` means exactly as many words as the limit and is left as typed |
| `BraceRuns.RunsAreKept` | crates/oslo-base/src/brace.rs:232-278 | every word keeps whole opaque runs of the word typed, in order: none is split, merged or reordered |
| `BraceText.ExpandBracesText` | crates/oslo-base/src/brace.rs:72-85 | one output per word of the expansion, the shortcuts changing nothing |
| `BraceText.PushExpanded` | crates/oslo-base/src/brace.rs:120-127 | one word's expansion appended, its words a blank apart |
| `BraceText.ExpandBracesInLine` | crates/oslo-base/src/brace.rs:97-117 | the line's expansion, the shortcut changing nothing |
| `BraceText.NoBraceNoGroup` | crates/oslo-base/src/brace.rs:72-75 | text with no `{` is one word, itself |
| `BraceText.WordByWord` | crates/oslo-base/src/brace.rs:87-117 | a line is cut at its unquoted blanks and nowhere else, each word expands as it would alone, and every blank between them stands |
| `BraceText.SpacedIsGlue` | crates/oslo-base/src/brace.rs:120-127 | the words of one expansion stand in their order with one space between each two |
| `Heredoc.HeredocDelimiters` | crates/oslo-base/src/nesting/heredoc.rs:43-105 | the delimiters a line opens bodies for, in order |
| `HeredocSpellings.SpellingsRead` | crates/oslo-base/src/nesting/heredoc.rs:43-105 | `<<W`, `<<-W`, `<< W` and W after a backslash or in either quotes open a body for W wherever they stand in a line; `<<<` and a shift open none |
| `Heredoc.StripHeredocBodies` | crates/oslo-base/src/nesting/heredoc.rs:20-40 | the script's lines without here-document bodies |
| `Heredoc.BodiesAreData` | crates/oslo-base/src/nesting/heredoc.rs:9-40 | whatever the bodies a line opens hold, they are gone in the order opened and the shell on both sides is read as if they had never been there |
| `HeredocBodies.BodiesAreGone` | crates/oslo-base/src/nesting/heredoc.rs:20-40 | in the text of a script, with either line ending: each body a line opens goes up to the first line that is its word, behind any number of tabs after a dash and behind none otherwise; the bodies are gone and the rest is read on |
| `HeredocBodies.UnclosedTakesAll` | crates/oslo-base/src/nesting/heredoc.rs:20-40 | a body whose word never comes takes everything to the end |
| `Heredoc.PlainScriptStands` | crates/oslo-base/src/nesting/heredoc.rs:20-40 | a script with no here-document is read as it stands, its last line ended |
| `Nesting.Close` | crates/oslo-base/src/nesting.rs:148-153 | a closer takes off its own opener and answers the quoting to resume, or does nothing |
| `Nesting.ScanNesting` | crates/oslo-base/src/nesting.rs:164-329 | the deepest nesting and what is left open, of one pass over the characters |
| `Nesting.CheckNesting` | crates/oslo-base/src/nesting.rs:73-108 | too many unmatched openers for the input's length, then too deep, then accepted |
| `NestingCode.CodeRuns` | crates/oslo-base/src/nesting.rs:164-341 | for every tree of text, quotes, brackets and keyword blocks with no misread word, from any stack: exactly what is left on the stack and exactly how deep the scan says it went |
| `NestingDepth.NeverOver` | crates/oslo-base/src/nesting.rs:164-341 | the scan never says deeper than the tree |
| `NestingDepth.SeesExact` | crates/oslo-base/src/nesting.rs:192-230 | it says exactly how deep if and only if a deepest place comes before every `}` of a double-quoted string in each brace group around it |
| `NestingKeywords.ReadAsATree` | crates/oslo-base/src/nesting.rs:265-341 | the scan reads a script as the tree it is exactly when every reserved word stands where it looks for one and nowhere else where it does |
| `NestingMoves.ScriptReads` | crates/oslo-base/src/nesting.rs:164-341 | whatever is open and whatever words stand where, the scan of a script makes the pushes and pops read off its tree, up to the bracket, if any, that closes something else than its own, and reads the rest from there |
| `NestingMoves.WordAfterIn` | crates/oslo-base/src/nesting.rs:331-341 | any word after the argument `in` does to the stack what it would do as a command: `echo in if` opens, `echo in done` closes |
| `NestingMoves.CaseInSubstitution` | crates/oslo-base/src/nesting.rs:203-215 | a `case` right after the opening of a substitution in double quotes is not opened, and the first pattern's `)` ends the substitution with double quoting resumed, whatever is open and whatever stands in it |
| `NestingTidy.StacksAsFound` | crates/oslo-base/src/nesting.rs:164-341 | any text at all leaves every stack as found exactly when its scan from an empty stack never meets a closer with nothing open and ends with nothing open |
| `NestingTidy.ScriptsLeaveStacks` | crates/oslo-base/src/nesting.rs:164-341 | a script, misread words and all, leaves every stack as found exactly when its pushes and pops close only what they opened, and all of it |
| `NestingTidy.HeededScriptsLeaveStacks` | crates/oslo-base/src/nesting.rs:192-230 | with every keyword where it is looked for, that is exactly when no `}` stands in a double-quoted string outside its brackets and blocks, brace groups apart |
| `NestingTidy.StackAsFound` | crates/oslo-base/src/nesting.rs:192-230 | so for every tree of text with no misread word |
| `NestingProofs.AnyScriptIsMeasured` | crates/oslo-base/src/nesting.rs:164-341 | the depth and the unmatched openers found of any script, misread words and all, from those pushes and pops |
| `NestingProofs.ScriptsAreMeasured` | crates/oslo-base/src/nesting.rs:164-341 | every script whose keywords are all where they are looked for leaves nothing open, is never said deeper than it is, and is said exactly as deep if and only if some deepest place comes before every such `}` around it |
| `NestingProofs.LastNewlineIsFree` | crates/oslo-base/src/nesting.rs:164-341 | the newline that ends a script makes no difference |
| `NestingProofs.VerdictOnScripts` | crates/oslo-base/src/nesting.rs:88-108 | scripts whose depth shows pass up to a hundred levels and are refused beyond for depth, never for openers |
| `NestingText.VerdictOnAnyScript` | crates/oslo-base/src/nesting.rs:73-108 | whatever the script, misread words and all: refused for what its moves leave open past sixteen and one for every 256 bytes, then for a depth past a hundred, else passed |
| `NestingText.OpenersAreRefused` | crates/oslo-base/src/nesting.rs:73-108 | brackets that are only opened are refused for their number past sixteen and one for every 256 bytes of the script, within that for a depth past a hundred |
| `NestingText.CommentIsItsNewline` | crates/oslo-base/src/nesting.rs:182-188 | whatever a comment holds, it and its newline do to the scan what the newline does: nothing is opened or closed |
| `NestingText.HashInAWord` | crates/oslo-base/src/nesting.rs:252-253 | a `#` inside a word begins no comment |
| `NestingText.CommentsAreFree` | crates/oslo-base/src/nesting.rs:164-329 | taking a comment out of a script changes nothing it is found to be |
| `NestingText.KeywordsAct` | crates/oslo-base/src/nesting.rs:279-303 | where a command may start, `if`, `case` and `do` open, `fi`, `esac` and `done` close their own if it is the last thing open, and no other word does either |
| `NestingText.WhereCommandsStart` | crates/oslo-base/src/nesting.rs:331-341 | a command may start after the end of another, after `then`, `else`, `elif`, `do` or `in` and a blank, and where it could before when there was no word; elsewhere a keyword moves nothing |
| `NestingProofs.QuotedBraceHidesALevel` | crates/oslo-base/src/nesting.rs:221-225 | after a quoted `}` in a brace group everything there is counted one level too shallow |
| `NestingProofs.KeywordsUnread` | crates/oslo-base/src/nesting.rs:265-305 | a word right before `)` is never read as a keyword, nor one where no command may start |
| `Cli.MinusCluster` | src/cli.rs:387-457 | what one cluster after `-` says and whether it took the next word |
| `Cli.PlusCluster` | src/cli.rs:345-381 | what one cluster after `+` turns off and whether it took the next word |
| `Cli.Parse` | src/cli.rs:230-519 | the whole invocation or the exit, from the two cursors |
| `CliProofs.AcceptsExactlyItsGrammar` | src/cli.rs:230-519 | whatever the parser accepts is a command line its grammar prints, and is read as that structure says |
| `CliProofs.PrintedLinesAreAccepted` | src/cli.rs:230-519 | every command line the grammar prints is read as its structure says, and refused only for a `-c` without text |
| `CliMeaning.ScriptRuns` | src/cli.rs:474-505 | over every well-formed line with no `-c` and no `-s`: the first operand is the script and `$0`, and what follows it is positional |
| `CliMeaning.ToolRuns` | src/cli.rs:492-497 | a first operand that names a tool, with no dash before it, is that tool and `$0`, with the rest as its arguments and nothing positional |
| `CliMeaning.StdinRuns` | src/cli.rs:491-504 | with `-s`, or with no operand, standard input is read under the shell's own name and every operand is positional |
| `CliMeaning.AttachedRuns` | src/cli.rs:412-417 | text joined to a `-c` is the program, with the first operand, or the shell's own name, as `$0` and the rest positional |
| `CliMeaning.BareCommandRuns` | src/cli.rs:394-489 | a bare `-c` anywhere among the option words takes the first operand as the program, even over joined text, with the next as `$0` and the rest as they are; the options are those of all the words |
| `CliMeaning.BareNeedsText` | src/cli.rs:460-472 | and without an operand it is refused |
| `CliMeaning.NothingRuns` | src/cli.rs:231 | without even a name of its own the shell reads standard input as `oslo` |
| `CliMeaning.OptionsAre` | src/cli.rs:230-519 | each flag is set exactly when a word asks for it, a name with a dash in front makes a login shell, a name of `sh` asks for POSIX first, and every option turned on or off by letter or name is kept |
| `CliMeaning.LettersAre` | src/cli.rs:439-450 | the letters kept are those of the `-` words but `s`, `i` and `l`, and those of the `+` words |
| `CliMeaning.RefusedWith` | src/cli.rs:278-381 | the first word that is none of the grammar's ends the parsing after any good words, whatever follows, with its own message; `--version`, `--help` and `--details` end it with theirs |
| `CliProofs.UnionKeepsFirsts` | src/cli.rs:68-107 | such a gathering loses nothing, repeats nothing and keeps what was first first |
| `CliProofs.PositionalIsATail` | src/cli.rs:474-519 | positional parameters, and a tool's arguments, are a verbatim tail of the command line |
| `CliProofs.NoOptionIsLost` | src/cli.rs:111-133 | every letter kept names an option, so reading the options back loses none |
| `CliProofs.NamedShIs` | src/cli.rs:225-228 | the name means a POSIX shell exactly when it is `sh` or `-sh`, with or without a directory in front |
| `MacroText.Unhex` | crates/oslo-base/src/macros.rs:392-401 | sixteen bytes from thirty-two characters, or nothing |
| `MacroText.HexReadsBack` | crates/oslo-base/src/macros.rs:388-401 | bytes written in hexadecimal read back |
| `MacroText.DigitsAre` | crates/oslo-base/src/macros.rs:388-401 | digits are written in lower case and read in either, and a plus sign passes for a first digit of nothing |
| `MacroText.AnyFieldsRead` | crates/oslo-base/src/macros.rs:403-452 | a header whose fields are not what they should be is read field by field, each with its own default |
| `MacroText.BareBodyReads` | crates/oslo-base/src/macros.rs:403-421 | a stored text with no header line of either format is a body and nothing else: on, untagged, undated and born now |
| `MacroText.FirstFormatReads` | crates/oslo-base/src/macros.rs:357-452 | a record of the first format reads back with a fresh stamp |
| `MacroText.RoundTrip` | crates/oslo-base/src/macros.rs:357-452 | a record reads back as written exactly when no tag is empty or holds a comma, a blank or a newline |
| `MacroText.FrontFieldsReadBack` | crates/oslo-base/src/macros.rs:375-452 | when it was made and whether it is on read back whatever the tags hold |
| `MacroText.DecodedTagsAreClean` | crates/oslo-base/src/macros.rs:403-452 | tags read from any stored text are ones the header can carry |
| `MacroText.ValidTagsAreClean` | crates/oslo-base/src/macros.rs:269-280 | the header can carry every valid tag |
| `Macros.Store.Set` | crates/oslo-base/src/store.rs:97-149 | a key and a value within their limits are written if the transaction commits; otherwise nothing changes |
| `Macros.Store.Stored` | crates/oslo-base/src/macros.rs:352-355 | the record as it is, tombstones and all |
| `Macros.Store.Get` | crates/oslo-base/src/macros.rs:346-348 | the record, or nothing when it is a tombstone |
| `Macros.Store.Put` | crates/oslo-base/src/macros.rs:314-343 | the entry is written with the first record's date and a stamp moved past what was there, or nothing changes |
| `Macros.Store.SetActive` | crates/oslo-base/src/macros.rs:454-459 | the switch is rewritten on the record that is there, or nothing changes |
| `Macros.Store.Remove` | crates/oslo-base/src/macros.rs:481-496 | the record is rewritten with its stamp buried, as far as burying goes, or nothing changes |
| `MacroWrites.PutAnswers` | crates/oslo-base/src/macros.rs:260-343 | a write goes through exactly when the name is one, the record takes a mebibyte at most and the store commits; each refusal says which failed, in that order |
| `MacroWrites.SetActiveAnswers` | crates/oslo-base/src/macros.rs:454-459 | a switch goes through exactly when the macro is there and writing it would |
| `MacroWrites.RemoveAnswers` | crates/oslo-base/src/macros.rs:481-496 | a removal exactly when the macro is there, its key and tombstone fit and the store commits |
| `MacroWrites.RevisionCounts` | crates/oslo-base/src/track/stamp.rs:50-66 | over every run of operations on a macro its revision counts those that went through, up to where 64 bits end |
| `MacroWrites.OneMoves` | crates/oslo-base/src/track/stamp.rs:50-66 | each that goes through moves the revision up by one if there is room and re-rolls the tie-breaker if there is randomness, and only a removal that could do both leaves a tombstone |
| `MacroRuns.PutReadsBack` | crates/oslo-base/src/macros.rs:314-355 | a write reads back as the entry, made when the first was, no longer deleted |
| `MacroRuns.RemovalHides` | crates/oslo-base/src/macros.rs:481-496 | a removal that answers true has hidden the macro exactly when its revision could go up and there was randomness |
| `MacroRuns.OthersStand` | crates/oslo-base/src/macros.rs:309-343 | writing or removing one kind and name touches no other |
| `MacroRuns.ReadsWhatWasLastDone` | crates/oslo-base/src/macros.rs:314-496 | over every run of writes, switches and removals on one name a reader is shown what was last written, as its record carries it, and last switched, and nothing after a removal that buried it |
| `MacroRuns.MadeOnStays` | crates/oslo-base/src/macros.rs:314-496 | over every run the day the macro was first made stays, tombstones included |
| `MacroRuns.ChangeWins` | crates/oslo-base/src/track/stamp.rs:50-82 | a change beats the copy it was made from exactly when that copy's revision can still go up |
| `MacroRuns.SettleMirrors` | crates/oslo-base/src/track/stamp.rs:91-124 | both ends of a sync settle on the same copy |
| `MacroSync.NewerIs` | crates/oslo-base/src/track/stamp.rs:68-76 | the higher revision is newer, then a deletion, then the bytes at the first in which they differ |
| `MacroSync.VerdictIs` | crates/oslo-base/src/track/stamp.rs:91-124 | equal copies agree, a machine without the record takes the other's, and otherwise the newer is the verdict |
| `MacroSync.NewestIsHeld` | crates/oslo-base/src/track/stamp.rs:18-31 | after settling with any others in turn a machine holds one of the copies it met, and one that is as new as all of them |
| `MacroSync.OrderDoesNotMatter` | crates/oslo-base/src/track/stamp.rs:18-31 | machines that met the same copies, in any order and any number of times, hold the same copy |
| `Globals.Attached.constructor` | crates/oslo-luavm/src/globals.rs:54-60 | a table beside the globals, empty and its own |
| `Globals.Attached.Index` | crates/oslo-luavm/src/globals.rs:60-78 | a name absent from the globals reads from the table beside, then from the shell |
| `Globals.Attached.NewIndexed` | crates/oslo-luavm/src/globals.rs:80-108 | a string goes to the shell, nil nowhere, anything else beside, and the name leaves its other home |
| `Globals.Attached.Assign` | crates/oslo-luavm/src/globals.rs:54-113 | an assignment stays in the globals for a name they have and goes through the metamethod otherwise |
| `Globals.LossyKeepsText` | crates/oslo-luavm/src/globals.rs:92-93 | text goes through the lossy conversion unharmed, and ill-formed bytes never do |
| `Globals.IllRunsBecomeOne` | crates/oslo-luavm/src/globals.rs:92-95 | each longest run of bytes that might still have become a character becomes one replacement character |
| `Globals.WriteKeepsOneHome` | crates/oslo-luavm/src/globals.rs:17-35 | every assignment leaves the name in at most one of the shell and the table beside, by the kind of value |
| `Globals.ReadsLastWritten` | crates/oslo-luavm/src/globals.rs:54-113 | an assigned name reads as the value, a string as the text the shell can hold, and every other name as before |
| `Globals.GlobalsComeFirst` | crates/oslo-luavm/src/globals.rs:8-15 | a name the globals have is read and written there alone, and taking it out uncovers the other homes |
| `Globals.OnlyNamesAreKept` | crates/oslo-luavm/src/globals.rs:80-86 | a key that is no string is not kept at all |
| `Globals.OneNamespace` | crates/oslo-luavm/src/globals.rs:1-35 | over every run of assignments to names outside the globals each reads as last assigned and has one home |
| `Globals.KeptIsExact` | crates/oslo-luavm/src/globals.rs:88-94 | a string reads back exactly when it is valid UTF-8 |
| `Globals.ShellWriteIsSeen` | crates/oslo-luavm/src/globals.rs:64-75 | a write from the shell's side is seen exactly when Lua holds nothing under the name |
| `Base64.Encode` | crates/oslo-base/src/base64.rs:15-32 | four characters for each group of up to three bytes |
| `Base64.Decode` | crates/oslo-base/src/base64.rs:38-62 | the bytes, or nothing |
| `Base64Digits.PositionIs` | crates/oslo-base/src/base64.rs:11-12 | the alphabet in its order: upper case from 0, lower case from 26, digits from 52, `+` 62 and `/` 63 |
| `Base64Digits.EncodedWrites` | crates/oslo-base/src/base64.rs:15-32 | each four characters write in base 64 the number three bytes write in base 256, bytes that are not there as zero and one `=` for each of them |
| `Base64Digits.DecodedReads` | crates/oslo-base/src/base64.rs:47-62 | each four characters give the three bytes that write the same number; at the end three give the two of its high bits, and two give one |
| `Base64Digits.StrangersRefuse` | crates/oslo-base/src/base64.rs:38-46 | a character that is none of the alphabet, no blank and no `=` refuses the text wherever it stands before the first `=` |
| `Base64.RoundTrip` | crates/oslo-base/src/base64.rs:14-62 | what is encoded decodes back, whatever bytes it was |
| `Base64.BlanksDoNotMatter` | crates/oslo-base/src/base64.rs:34-46 | blanks may be put in or taken out anywhere |
| `Base64.PaddingIsFree` | crates/oslo-base/src/base64.rs:34-46 | everything from the first `=` on may be dropped |
| `Base64.RefusedIff` | crates/oslo-base/src/base64.rs:38-50 | text is refused exactly for a character outside the alphabet before its first `=`, or for one character too many |
| `Base64.EncodedLength` | crates/oslo-base/src/base64.rs:15-32 | four characters for every three bytes begun |

## Left out

- Extended glob groups, the directory walk and collation: the item type has no group and the compiler is modelled with them off.
- Character tables: case folding and POSIX classes are an arbitrary table the matcher is given, and alphanumeric characters an arbitrary set.
- The VM itself: its collector, its calls into the shell and what a callback does when called; VM tables are raw maps with a metatable, and functions are known by identity alone.
- Numbers: floats are whole, finite or NaN, known by their bits as far as keys can tell them apart.
- BothWays.ThereAndBack: is about tables and what they hold; a function comes back as a new handle to the same Lua function or closure, because that is what the source makes.
- Teardown.Counts.Drop: reference counts stand in a map beside the tables, and owners that are not tables are a number for each.
- ForkGate.ForkFindsEverythingFree: steps are atomic and the gate is a counter and a flag; poisoning, memory order and the operating system's own fork are not modelled, and fairness between threads is not assumed.
- CliProofs.AcceptsExactlyItsGrammar: is for a table of options in which none is spelled `-` and none has an empty name.
- Cli.Parse: the option table and the words that name a tool are given, `--noplugin` changes nothing it answers, and the `argc` build's own flag is not there; the text of the help page is not modelled.
- NestingProofs.ScriptsAreMeasured: is for scripts without here-documents, comments, extended tests, functions and arithmetic, whose command names and patterns are words; here-documents have their own results in Heredoc, HeredocSpellings and HeredocBodies, and comments in NestingText.
- NestingMoves.ScriptReads: where a substitution's bracket has been taken for another's, what follows is given as the scan of its text, because its quoting is no longer the tree's.
- Macros.Store.Put: the store is a map from keys to text, and a failing transaction, the clock and randomness are given; the snapshot and the copies published for other programs are not modelled.
- Globals.Attached.NewIndexed: the shell's variables take every name and value; a host that refuses one is not modelled, nor are raw reads and listings of the globals.
- Base64.Encode: shifts, masks and ors are written as division, remainder and sum.
- Pipes, signals, terminals, sockets, the evaluator, the prompt, completion and the tools' own commands are not part of this model.
