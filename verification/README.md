# A verified model of the session client and the schema generator

This project models, in Dafny, the two parts of the repository that carry the most state: the client that turns
inbound wire frames into a session model (`packages/protocol/src/client`, with the timeline classifier of
`packages/element`, the line framing and the persistence of `packages/client`), and the generator that scans minified
JavaScript for schemas, keys them, patches them and orders them (`codegen`).

Each module follows one shape. The state of a source component is a datatype, and what an operation does to it is a
function on that datatype. The component itself is a class (or a method with loops) in the source's own imperative form,
and every method is proved to compute that function. The theorems are lemmas about the functions over all inputs and,
for the stateful components, over all runs: any sequence of events, in any interleaving, with any clock and any ids.

| module | models |
|---|---|
| `Frames` | the inbound frames, with the fields that are read |
| `Messages`, `StreamRuns`, `Persistence` | the message timeline, streaming assembly, the revision counter; what whole runs leave in it; saving and hydrating |
| `Tasks`, `TaskOrder`, `TaskFields` | the task table, sub-agent transcripts and the orphan buffers; the order of frames; what events say of a task |
| `BashXml`, `Shell` | the bash XML printer and parser; the capture queue, pending exchanges and follow-ups |
| `ShellRuns`, `Attribution`, `Replays` | whole runs of the shell, resets included; whose reply a command is given; from the text of a replay to the model |
| `StateRouting`, `SessionRuns`, `SessionLaws` | the state holder's routing of inbound frames; whole runs of all parts together; what each kind of frame and call does |
| `Correlator`, `Client`, `ClientRuns` | request correlation; the client's `intent` and `handleInbound`; whole runs of the client |
| `Framing` | the JSON line splitter |
| `Classifier`, `Rows` | the stateless and the memoising timeline classifier; which rows the entries of a timeline show |
| `JsLexer` | strings and comments of JavaScript, `findBalanced` |
| `ObjectFields`, `ObjectLiterals`, `Expressions` | the object-literal scanner; printing a literal and extracting its fields again; a grammar of right-hand sides |
| `EnumValues`, `EnumLists` | the enum-member scanner; printing a list and extracting its members again |
| `Lexemes` | strings, comments, white space and names, character by character |
| `CanonicalKeys`, `KeyShapes` | canonical key allocation; the shapes of base keys |
| `Patches`, `PatchConflicts`, `PatchLaws` | the patch engine; patches that share a stable key; the order of application and the effect of each kind |
| `SchemaOrder`, `CycleOrder`, `Alphabet` | schema ordering; the order inside cycles; which way names are sorted |
| `Splitter`, `CallSuffix` | top-level splitting and inline fields, suffix stripping |
| `Prelude`, `Ordering` | array and string built-ins; stable sorting |

Conventions: `undefined` and `null` are `None`; a string field that the source tests for truth is empty when missing.
JSON values are opaque. `JSON.parse`, the hash of a schema body and `inferSchemaName` are parameters, about which only
what a lemma requires is assumed. Ids and clock readings are parameters of each call, so every theorem holds for all of
them; a lemma that needs ids to be unique says so. Callbacks to subscribers are left out, and sending is recorded in an
outbox. The scanners are described by automata that read one character at a time. The source's loops, with their
look-ahead and their jumps, are proved to reach the automaton's answer; where a source loop is long, its branches are
separate methods.

## Where the code does less than it says

These are results: each has a lemma with a concrete input or family that fails, and, where it says "exactly when", a
lemma that gives the condition in both directions.

- `topoSort` is documented to emit cyclic schemas in alphabetical order and to be iterative. It is recursive, and on any
  graph the later entered of two names is emitted first exactly when a path leads to it past the names entered before
  both (`CycleOrder.EmissionOrderIff`). So the member of a cycle that is entered first is emitted last, and of two schemas
  that refer to each other one precedes the other exactly when it is entered after it (`CycleOrder.MutualPairIff`). When
  no smaller name reaches the least member of a cycle, that member comes last (`CycleOrder.LeastComesLast`); when smaller
  names reach the lesser of two only through the greater, the two do come out alphabetically
  (`CycleOrder.ReachedThroughTheGreater`).
- `extractFieldsFromObjectBody` is documented to accept quoted keys. The quote is consumed as a string before the key
  branch can see it, so fields come back exactly when all names are bare (`ObjectLiterals.RoundTripIffBare`).
- `extractEnumValues` is documented to return null for a member that is not a string literal. A member in brackets is
  dropped without a trace instead (`EnumLists.ListReadsBack`).
- `stripCallSuffix` counts parentheses inside strings, so it strips a trailing call exactly when all parentheses of the
  arguments, quoted ones included, are balanced (`CallSuffix.StripsIffBalanced`).
- `applyPatches` checks emitted names for uniqueness with a truthiness test, so an entry whose key is empty is not seen.
  The two name maps are mutually inverse exactly when, in the renamed table the check sees, no other entry shares that
  entry's name (`Patches.SuccessIsCoherent`); always when no key is empty (`Patches.NonEmptyKeysAreInverse`).
- Patches that share a stable key but differ are applied in input order, and the order of application is the same for
  every permutation exactly when there are none (`Patches.ApplicationOrderFixedIff`, `Patches.ConflictsKeepInputOrder`).
  Two patches of one target give different results in the two orders exactly when they are not harmless to the entries
  they meet (`PatchConflicts.ConflictsDependOnOrderIff`; `PatchConflicts.Harmless` lists the cases, kind by kind). Equal
  keys mean one target unless a part has a colon (`PatchConflicts.SameKeySameTarget`, `PatchConflicts.ColonsShareKeys`).
- Schemas of different literals share a base key when a type holds a plus sign in the right place
  (`KeyShapes.PlusSharesKeys`), and otherwise never (`KeyShapes.SameBaseKeyIff`).
- Canonical suffixes count the schemas with a base key exactly when the counted keys do not clash, which a `#` in a
  literal can cause (`CanonicalKeys.SuffixesAreRanksIff`, `CanonicalKeys.HashTakesASuffix`).
- A parsed bash message keeps the text behind it exactly when that text holds no exit-code element (`BashXml.RoundTrip`).
- A `message_start` with the id of a live stream breaks the mirror between stream records and timeline, and is the only
  event that does (`Messages.StepMirrors`).
- A hydrated timeline is numbered exactly when the restored entries are in order (`Messages.StepNumbered`).
- Entries between a bash input and its output, replies included, do not show (`Rows.OtherShows`, `Rows.PairShows`).
- A frame that a notification left waiting comes behind later ones in its task's transcript
  (`TaskOrder.StrandedComesLate`); without such events frames stay in order (`TaskOrder.RunKeepsOrder`).
- `savePersisted` with `maxMessages` of zero keeps everything (`Persistence.SavedIsLastN`, `Persistence.ZeroSavesAll`).
- Dropping a streaming entry leaves the classifier's cache sound exactly when no cached bash pair spans it
  (`Classifier.DropSoundIffUnspanned`); otherwise the canonical reply that replaces the entry does not show
  (`Classifier.CanonicalReplyDisappears`).
- A task that a `task_notification` introduces does not take the frames that wait for it; no other event leaves frames
  waiting for a known task (`Tasks.StepStrandsIff`).
- Registering a request id that is still waiting leaves a promise without a reply and its timer running; no other event
  breaks the correlator's bookkeeping (`Correlator.StepKeepsInvIff`).
- The capture queue knows no ids: a reply goes to the command that waits longest. Commands are taken to be answered in
  the order they were issued, but replies may be lost, as when a process is killed without a reset, or come from elsewhere.
  Every reply goes to its own command exactly when none comes out of turn (`Attribution.AttributionRightIff`,
  `Attribution.Disturbs`): for a command behind the one that is due, whose reply is lost; for a command that a reset
  dropped while a later one is due; or for none. After one loss every reply until the next reset goes to an earlier
  command (`Attribution.SkippedReplyShiftsTheRest`, `Attribution.KilledProcessShiftsReplies`).
- Side-channel output is meant to stay out of user messages. It gets into one exactly when its reply arrives while a
  context command is next in the queue (`Attribution.SideChannelLeaksIff`), for which one reset is enough
  (`Attribution.SideChannelReachesAMessage`).
- A follow-up is recorded after its command was sent, so a reply that arrives inside that send leaves it recorded and
  never sent; with any later reply it is sent exactly once (`ShellRuns.FollowUpSentOnceIff`).
- A message with several exchanges parses back as its first, with the others in the trailing text
  (`ShellRuns.MessageReadsBack`).

## Model

| member | source | states |
|---|---|---|
| `SchemaOrder.DepthFirst.Visit` | codegen/generate.ts:849-868 | one visit does what the exploration function says, on any graph; terminates because each call uses up a name neither on the stack nor visited |
| `SchemaOrder.TopoSort` | codegen/generate.ts:839-880 | the whole sort computes the walk over the sorted names, with its cycle log |
| `Alphabet.LexLeIff` | codegen/generate.ts:858-870 | the comparison holds if and only if the names are equal, or the first is less at the first difference or ends there |
| `Alphabet.LesserComesFirst` | codegen/generate.ts:870-871 | of two names the lesser is entered and emitted first, unless it or a name before it in the alphabet leads to the greater |
| `Alphabet.UnrelatedAreAlphabetical` | codegen/generate.ts:839-880 | schemas without references to known names come out strictly in alphabetical order |
| `Alphabet.LesserReferenceFirst` | codegen/generate.ts:858-861 | of two new references of one schema the lesser is entered and emitted first, unless it or a reference before it leads to the greater past the names entered so far |
| `SchemaOrder.EmitsEachNameOnce` | codegen/generate.ts:839-880 | on every graph, cyclic ones included, every name is emitted exactly once, as the last schema of that name |
| `SchemaOrder.ReferencesPrecede` | codegen/generate.ts:839-880 | every known reference is emitted earlier, unless its name is in the cycle log |
| `SchemaOrder.LoggedNamesCutEveryCycle` | codegen/generate.ts:849-868 | every logged name lies on a cycle, and every cycle contains a logged name |
| `SchemaOrder.CyclesLoggedIffCyclic` | codegen/generate.ts:839-880 | the log is empty if and only if the graph over the known names, self-references included, is acyclic |
| `SchemaOrder.AcyclicIsTopological` | codegen/generate.ts:839-880 | on an acyclic graph the output is a topological order |
| `SchemaOrder.InputOrderIrrelevant` | codegen/generate.ts:870-871 | for distinct names, permuting the input changes neither the order nor the log |
| `CycleOrder.EmissionOrderIff` | codegen/generate.ts:832-871 | on any graph, of two names the one entered later is emitted first if and only if a path leads to it from the other past all names entered before both |
| `CycleOrder.FirstEnteredLast` | codegen/generate.ts:832-871 | the member of a strongly connected component that the walk enters first is emitted after all its other members |
| `CycleOrder.MutualPairIff` | codegen/generate.ts:832-871 | of two schemas that refer to each other, one is emitted before the other if and only if it is entered after it |
| `CycleOrder.LeastComesLast` | codegen/generate.ts:832-871 | when no smaller name reaches x, every other member of its cycle is greater than x and emitted before it |
| `CycleOrder.ReachedThroughTheGreater` | codegen/generate.ts:832-871 | two mutually referring schemas do come out alphabetically when smaller names reach the lesser one, but only through the greater |
| `CycleOrder.TwoSchemaCycle` | codegen/generate.ts:832-838 | two schemas alone that refer to each other come out in reverse alphabetical order, whatever their names, and the lesser name is logged |
| `Splitter.SplitTopLevel` | codegen/generate.ts:640-668 | the index loop with its escape jump computes the split function |
| `Splitter.SplitIsLossless` | codegen/generate.ts:640-668 | joining the pieces with the delimiter restores any input |
| `Splitter.SplitInvertsJoinIff` | codegen/generate.ts:640-668 | splitting a join returns the pieces if and only if there is one and all of them are closed and free of top-level delimiters (the last may stay open) |
| `Splitter.ParseInlineObjectFields` | codegen/generate.ts:562-577 | the accumulating loop parses all top-level pieces, or fails with the first that is no field |
| `Splitter.InlineFieldsRoundTrip` | codegen/generate.ts:562-577 | any printed list of fields, names bare or quoted, is parsed back exactly |
| `Lexemes.QuotedIsGoodName` | codegen/generate.ts:562-577 | any text without the quote and backslashes is a name in double or single quotes |
| `Lexemes.OddPieceFails` | codegen/generate.ts:562-577 | one piece that starts with neither a letter nor a quote makes the parse fail |
| `Lexemes.BlankPieceIsNone` | codegen/generate.ts:562-577 | blank pieces are passed over |
| `Lexemes.SpacedInlineField` | codegen/generate.ts:562-577 | a field with any white space around its colon is read as its name, bare or quoted, and its right-hand side |
| `CallSuffix.MatchFrom` | codegen/generate.ts:617-629 | the forward walk finds the first closing parenthesis that balances, or none |
| `CallSuffix.Fits` | codegen/generate.ts:616-632 | the test of one round is exact: the needle, its position cut off at the start of the body, and a walk that ends at the last character |
| `CallSuffix.StripCallSuffix` | codegen/generate.ts:607-635 | for any name the right-most position that fits decides the slice, negative ends included; for a name without parentheses the result is the body without its trailing call of that name, or the body if it has none |
| `CallSuffix.StripsOnce` | codegen/generate.ts:611-633 | at most one call of a name can be the trailing one, so the right-most match is the only one |
| `CallSuffix.StripsIffBalanced` | codegen/generate.ts:602-606 | a trailing call is stripped if and only if the parentheses of its arguments, quoted ones included, are balanced |
| `CallSuffix.QuotedParenthesisStays` | codegen/generate.ts:602-606 | a call whose argument is a quoted closing parenthesis is not stripped |
| `CallSuffix.PlainCallStripped` | codegen/generate.ts:607-635 | a last call whose arguments have no parenthesis is cut off with its dot and name |
| `CallSuffix.NestedCallStripped` | codegen/generate.ts:607-635 | so is one whose arguments hold one more call |
| `CallSuffix.SliceEnds` | codegen/generate.ts:607-635 | a slice ends at its position, counted from the back when that is negative |
| `JsLexer.FindBalanced` | codegen/extract.ts:225-257 | the flag-driven scanner returns the first position where lexical depth is zero again, and -1 only if there is none |
| `JsLexer.ClosesIffBalanced` | codegen/extract.ts:224-257 | a position closes the parenthesis if and only if it holds `)` and the text between is lexically balanced |
| `JsLexer.PrintedIsBalanced` | codegen/extract.ts:224-257 | everything the grammar of strings, comments and groups prints is balanced |
| `JsLexer.PrintedWordCloses` | codegen/extract.ts:224-257 | in any surroundings, the parenthesis around a printed word is closed where the word ends and nowhere else |
| `Lexemes.StringHides` | codegen/extract.ts:225-257 | in any surroundings a parenthesis is closed behind a string in double, single or back quotes, whatever it holds, escaped characters included |
| `Lexemes.CommentHides` | codegen/extract.ts:225-257 | the same for comments of both kinds |
| `EnumValues.ReadLiteral` | codegen/extract.ts:390-405 | the literal loop reads to the closing quote, unescaping, and reports an unterminated literal |
| `EnumValues.ReadMember` | codegen/extract.ts:384-416 | a string member counts exactly when a comma or bracket follows it behind white space |
| `EnumValues.ReadCode` | codegen/extract.ts:365-422 | the effect of one other character on depths, pending member and the flag for members that are no strings |
| `EnumValues.Skip` | codegen/extract.ts:347-361 | one step inside a comment or a skipped string |
| `EnumValues.ExtractEnumValues` | codegen/extract.ts:332-427 | the scanner, look-ahead and jumps included, answers what the one-character automaton answers |
| `EnumLists.ListReadsBack` | codegen/extract.ts:324-427 | for any printed list (strings, bracketed values, other text, with white space) and any text behind it: null exactly when a member is neither a string nor bracketed, else the unescaped strings in order |
| `Lexemes.SpacedStringsReadBack` | codegen/extract.ts:324-427 | strings in any of the quotes, with spaces, tabs and line ends around them, are read as these strings |
| `Lexemes.CommentedStringReadsBack` | codegen/extract.ts:347-364 | a comment in front of a member is skipped |
| `ObjectFields.ReadKey` | codegen/extract.ts:552-567 | reading a bare key, the colon and the white space moves the automaton to the start of the right-hand side |
| `ObjectFields.LineEnd` | codegen/extract.ts:478-481 | skipping a line comment |
| `ObjectFields.BlockEnd` | codegen/extract.ts:482-487 | skipping a block comment, an unterminated one included |
| `ObjectFields.ScanFields` | codegen/extract.ts:452-575 | the loop with string, comment and bracket modes collects what the automaton collects |
| `ObjectFields.ExtractFieldsFromObjectBody` | codegen/extract.ts:441-575 | the fields of the object literal the body starts with, none if it does not start with one |
| `ObjectLiterals.RunField` | codegen/extract.ts:503-567 | a printed field up to its end yields at most one field, and itself if and only if its name is bare |
| `ObjectLiterals.RoundTripIffBare` | codegen/extract.ts:441-575 | extracting a printed literal gives its fields back, whatever follows it, if and only if every name is bare |
| `Lexemes.SpacedFieldReadsBack` | codegen/extract.ts:441-575 | a field is read back with any white space in front of the literal and around its name and colon |
| `Lexemes.CommentedFieldReadsBack` | codegen/extract.ts:478-487 | and with a comment in front of it |
| `Lexemes.StringIsValue` | codegen/extract.ts:441-575 | a string in any of the quotes is a whole right-hand side, commas and braces in it included |
| `Lexemes.IdentifierIsGoodName` | codegen/extract.ts:548-567 | letters, digits, underscore and dollar make bare names, and the first is no digit |
| `Expressions.ValueIsGoodRhs` | codegen/extract.ts:452-575 | whatever the grammar of strings, comments, operators and paired brackets prints without a top-level comma is a right-hand side that the extractor reads back |
| `Expressions.SimpleValueIsGoodRhs` | codegen/generate.ts:562-577 | the same for the inline parser, which knows neither comments nor template strings |
| `CanonicalKeys.Canonicalize` | codegen/extract.ts:845-917 | the retry loop terminates and fills the table with the allocation function's keys |
| `CanonicalKeys.Pigeons` | codegen/extract.ts:893-897 | as many attempts as there are used keys leave a free one |
| `CanonicalKeys.EverySchemaHasItsOwnEntry` | codegen/extract.ts:893-914 | keys are distinct, the table has exactly one entry per schema, and it is that schema's |
| `CanonicalKeys.SuffixesAreRanksIff` | codegen/extract.ts:893-897 | suffixes number the schemas with a base key if and only if the numbered keys do not clash |
| `CanonicalKeys.SuffixesAreRanks` | codegen/extract.ts:893-897 | without `#` in a base key the n-th schema with it gets `#n`, the first none |
| `CanonicalKeys.HashTakesASuffix` | codegen/extract.ts:860-897 | a literal containing `#2` displaces the numbering |
| `KeyShapes.BaseKeyShape` | codegen/extract.ts:860-875 | the base key of each of the four kinds of schema, empty literals counting as none |
| `KeyShapes.SameBaseKeyIff` | codegen/extract.ts:860-875 | without a plus sign in the types, named schemas share a base key if and only if they have the same literals |
| `KeyShapes.PlusSharesKeys` | codegen/extract.ts:860-862 | with a plus sign different literals can share a base key |
| `KeyShapes.AnonymousApart` | codegen/extract.ts:860-875 | an anonymous schema never has the base key of a named one |
| `KeyShapes.EntryHolds` | codegen/extract.ts:899-914 | what an entry holds of its schema, enum members for enums alone |
| `Patches.ApplyPatches` | codegen/apply-patches.ts:132-289 | clone, sort, rename phase, uniqueness check, field phase and name maps compute the patched tables or the same failure |
| `PatchLaws.AppliedInOrder` | codegen/apply-patches.ts:151-169 | whatever the input order, kinds are applied in their order and patches of one kind alphabetically by their parts |
| `PatchLaws.ClonedInOrder` | codegen/apply-patches.ts:136-149 | the entries are cloned in the alphabetical order of their keys, each under its inferred name and otherwise unchanged |
| `PatchLaws.AdditionAppends` | codegen/apply-patches.ts:225-241 | an addition puts the marked field behind the others of the first entry of that name, and fails, naming it, if it is there |
| `PatchLaws.TypeReplaces` | codegen/apply-patches.ts:260-278 | a type replaces the right-hand side of the first field of that name |
| `PatchLaws.RemovalCuts` | codegen/apply-patches.ts:242-258 | a removal takes the first name and the field beside it away |
| `PatchLaws.HintIsStored` | codegen/apply-patches.ts:214-223 | a hint is stored and nothing else changes |
| `PatchLaws.RenameNames` | codegen/apply-patches.ts:172-192 | a rename gives the first entry of the old name, or the entry of the key, its new name and changes nothing else |
| `PatchLaws.NoFieldToType` | codegen/apply-patches.ts:268-273 | a type for a field that is not there fails and names it |
| `PatchLaws.NothingToRemove` | codegen/apply-patches.ts:250-255 | so does a removal |
| `PatchLaws.NothingToRename` | codegen/apply-patches.ts:172-192 | a rename without its target fails and names it |
| `PatchLaws.AddTypeRemove` | codegen/apply-patches.ts:132-289 | adding, retyping and removing a field, in whatever order the patches are given, leaves the entries as they were |
| `PatchLaws.EditsSeeNewNames` | codegen/apply-patches.ts:132-289 | an edit may use the name a rename gives, in whichever order the two are listed |
| `Patches.RunRenames` | codegen/apply-patches.ts:172-192 | the rename phase, with its failures |
| `Patches.FindClash` | codegen/apply-patches.ts:194-204 | the uniqueness check as the source writes it |
| `Patches.RunEdits` | codegen/apply-patches.ts:206-280 | the field phase, with its failures |
| `Patches.NameMaps` | codegen/apply-patches.ts:282-287 | the two name maps |
| `Patches.PatchOrderIrrelevant` | codegen/apply-patches.ts:151-169 | if equal kinds and stable keys mean equal patches, every permutation gives the same result or the same failure |
| `Patches.ApplicationOrderFixedIff` | codegen/apply-patches.ts:151-169 | every permutation of a list is applied in the same order if and only if equal kinds and stable keys mean equal patches |
| `Patches.ConflictsKeepInputOrder` | codegen/apply-patches.ts:162-169 | patches of one kind and stable key are applied in input order, among any others |
| `PatchConflicts.OrderMattersIff` | codegen/apply-patches.ts:172-280 | on any table, two patches of one target come to the same in both orders if and only if they are harmless to it, which is spelled out for each kind |
| `PatchConflicts.LastHintWins` | codegen/apply-patches.ts:214-223 | of two hints for one schema the second stays |
| `PatchConflicts.LastTypeWins` | codegen/apply-patches.ts:260-278 | of two types for one field the second stays |
| `PatchConflicts.SecondAdditionFails` | codegen/apply-patches.ts:225-241 | of two additions of one field the second always fails, and the failure names it |
| `PatchConflicts.SwapAmongOthers` | codegen/apply-patches.ts:172-280 | swapping two such patches among any others changes nothing when they are harmless to the table they meet, and the failure when they are not and one fails |
| `PatchConflicts.ConflictsDependOnOrderIff` | codegen/apply-patches.ts:132-289 | through the whole engine two patches of one target give different results in the two orders if and only if they are not harmless to the cloned entries and, for edits, the uniqueness check passes |
| `PatchConflicts.SameKeySameTarget` | codegen/apply-patches.ts:301-315 | patches of one kind and stable key have one target when the first parts of the key have no colon |
| `PatchConflicts.ConflictsByKeyIff` | codegen/apply-patches.ts:162-169 | the same equivalence for any two patches of one kind and such a key |
| `PatchConflicts.ColonsShareKeys` | codegen/apply-patches.ts:301-315 | with a colon two renames of different targets share a key, and of the two orders, which sorting leaves alone, one succeeds and one fails |
| `Patches.EditKeepsAligned` | codegen/apply-patches.ts:206-280 | every successful edit keeps `fieldNames` equal to the names of `fields` |
| `Patches.CheckExact` | codegen/apply-patches.ts:194-204 | the check passes if and only if no two entries share a name with the earlier one's key not empty |
| `Patches.ClashReported` | codegen/apply-patches.ts:194-204 | the failure names the first entry that clashes, its name, and the last entry before it of that name |
| `Patches.InverseIffDistinct` | codegen/apply-patches.ts:282-287 | the name maps are mutually inverse if and only if names are distinct |
| `Patches.SuccessIsCoherent` | codegen/apply-patches.ts:132-289 | after success: same keys, all patches counted, alignment kept, and maps mutually inverse if and only if in the renamed table the uniqueness check sees no entry shares the name of one with an empty key |
| `Patches.NonEmptyKeysAreInverse` | codegen/apply-patches.ts:132-289 | without an empty key in the input, success means mutually inverse maps |
| `Patches.EmptyKeySlipsThrough` | codegen/apply-patches.ts:194-204 | two entries of one name pass the check when the first has the empty key |
| `Ordering.SortForgetsOrderIff` | codegen/apply-patches.ts:162-169 | sorting forgets the input order of a list if and only if no two different members compare equal |
| `Ordering.SortStable` | codegen/apply-patches.ts:162-169 | members that compare equal keep their order |
| `BashXml.DecodeEscape` | packages/protocol/src/client/shell.ts:25-31 | decoding an escaped string restores it, for every string |
| `BashXml.EscapedIsTagFree` | packages/protocol/src/client/shell.ts:25-31 | escaped text has no angle bracket |
| `BashXml.ParsePrinted` | packages/protocol/src/client/shell.ts:43-84 | parsing a printed exchange followed by any text gives back command, output and error exactly, and says what becomes of that text |
| `BashXml.RoundTrip` | packages/protocol/src/client/shell.ts:43-84 | an exchange, a blank line and a text parse back with empty exit and the trimmed text if and only if the text has no exit-code element |
| `BashXml.RoundTripAlone` | packages/protocol/src/client/shell.ts:43-84 | an exchange by itself parses back exactly |
| `Replays.ReplayReadsBack` | packages/protocol/src/client/shell.ts:43-76 | a replay of output, error and exit code, each present or not, parses as exactly these, empty where one is missing |
| `Replays.InputReadsBack` | packages/protocol/src/client/shell.ts:67-69 | the echo of a command parses as that command |
| `Replays.MergedReadsBack` | packages/protocol/src/client/shell.ts:53-66 | command, output, error and exit code together parse as exactly these |
| `Replays.UntaggedIsNone` | packages/protocol/src/client/shell.ts:51-51 | a text in which no bash tag opens is no bash frame |
| `Replays.OthersAreNoReplies` | packages/protocol/src/client/shell.ts:145-151 | only replayed plain-text user frames with a bash tag are replies |
| `Replays.ReplayReachesTheModel` | packages/protocol/src/client/shell.ts:145-229 | from the text of the replay of a context command to the next message, which parses as that command with that output and error |
| `Replays.FollowUpReachesTheModel` | packages/protocol/src/client/shell.ts:166-178 | the same for the message a follow-up sends |
| `Shell.ShellClient.HandleShellReplay` | packages/protocol/src/client/shell.ts:145-180 | what a replay does to the capture queue, the entries, the exchanges and the follow-up it sends |
| `Replays.ReplyShows` | packages/protocol/src/client/shell.ts:157-165 | a reply adds one chunk to its command's entry and changes no other |
| `Replays.ShownAs` | packages/protocol/src/client/shell.ts:159-163 | output, labelled error and labelled exit code, a line each, nothing for what is empty or zero |
| `Shell.ShellClient.HandleLocalCommandOutput` | packages/protocol/src/client/shell.ts:182-190 | handled exactly when a command is captured; the chunk goes to the head capture's entry |
| `Replays.LocalOutputShows` | packages/protocol/src/client/shell.ts:182-190 | captured output adds one chunk to the entry of the command that waits longest, and changes nothing else |
| `Shell.ShellClient.IssueContext` | packages/protocol/src/client/shell.ts:192-196 | entry, capture and the command handed to send |
| `Shell.ShellClient.RecordFollowUp` | packages/protocol/src/client/shell.ts:197-200 | a follow-up that is not blank is recorded for its entry |
| `Shell.ShellClient.SendShellContext` | packages/protocol/src/client/shell.ts:192-201 | issuing, whatever arrives inside send, then recording the follow-up |
| `Shell.ShellClient.SendBashSideChannel` | packages/protocol/src/client/shell.ts:203-209 | issuing a side-channel command |
| `Shell.ShellClient.DismissShellEntry` | packages/protocol/src/client/shell.ts:211-214 | only the entry goes; its capture and exchange stay |
| `Shell.ShellClient.DrainPending` | packages/protocol/src/client/shell.ts:220-229 | the payload carries all pending exchanges, which are then gone with their entries |
| `Shell.ShellClient.SendUserMessage` | packages/protocol/src/client/index.ts:267-276 | sends exactly when there is text or something pending, and drains |
| `Shell.ShellClient.SendUserBlocks` | packages/protocol/src/client/index.ts:278-281 | structured content drains nothing |
| `Shell.ShellClient.Reset` | packages/protocol/src/client/shell.ts:231-237 | entries, queue, exchanges and follow-ups are dropped, what was sent is not |
| `ShellRuns.ReplyGoesBehindTheDropped` | packages/protocol/src/client/shell.ts:145-237 | over all runs, the r-th processed reply goes to the command behind the r commands already answered and those that resets have dropped so far |
| `ShellRuns.RunLedger` | packages/protocol/src/client/shell.ts:145-237 | over all runs, resets included: the queue holds the commands neither answered nor dropped, and exchanges sent, discarded and pending are those of the answered context commands |
| `ShellRuns.DeliveredExactlyOnce` | packages/protocol/src/client/shell.ts:145-237 | over all runs the exchange of every answered context command is handed to the transport in exactly one user message, discarded by a reset or still pending, in issue order; each holds a reply that arrived, and no reply is in two |
| `Attribution.AttributionRightIff` | packages/protocol/src/client/shell.ts:145-237 | for any run and any replies lost or coming from elsewhere, every reply goes to its own command if and only if none comes out of turn |
| `Attribution.ReplyOutOfTurnIsMisattributed` | packages/protocol/src/client/shell.ts:145-180 | the first reply out of turn is given to the command that is due, no reply to which it is, and becomes its exchange if that is a context command |
| `Attribution.MessagesCarryTheirOwn` | packages/protocol/src/client/shell.ts:145-237 | in a run without replies out of turn every exchange sent, discarded or pending holds its own command's reply |
| `Attribution.LostReplyShiftsTheRest` | packages/protocol/src/client/shell.ts:145-237 | once the queue lags behind the replies it does so until the next reset: every reply is given to an earlier command than its own |
| `Attribution.SkippedReplyShiftsTheRest` | packages/protocol/src/client/shell.ts:145-237 | a reply that skips the head of the queue starts such a lag: from it on, until the next reset, no reply goes to its own command |
| `Attribution.KilledProcessShiftsReplies` | packages/protocol/src/client/shell.ts:145-209 | two commands and the second one's reply alone: the first is given it |
| `Attribution.SideChannelLeaksIff` | packages/protocol/src/client/shell.ts:145-237 | an exchange holds the output of a side-channel command if and only if that command's reply arrived while a context command was next in the queue |
| `Attribution.SideChannelReachesAMessage` | packages/protocol/src/client/shell.ts:145-237 | a side-channel command, a reset, a context command and the first one's reply: the next user message carries that output |
| `Attribution.LosslessAttributionIff` | packages/protocol/src/client/shell.ts:145-237 | when no reply is lost: right attribution if and only if none arrives between a command issued while replies to dropped commands are outstanding and the next reset |
| `Attribution.LosslessIsInOrder` | packages/protocol/src/client/shell.ts:145-237 | lossless runs are runs in which the k-th reply is the k-th command's, and both conditions say the same of them |
| `ShellRuns.FollowUpSentOnceIff` | packages/protocol/src/client/shell.ts:166-201 | over all runs a fresh entry's follow-up is sent as often as its reply arrives after send returned, at most once; a reply inside send leaves it recorded for good |
| `ShellRuns.FollowUpCarriesItsExchange` | packages/protocol/src/client/shell.ts:166-178 | the reply to a command with a follow-up sends one message that ends with that exchange |
| `ShellRuns.MessageReadsBack` | packages/protocol/src/client/shell.ts:220-229 | a message with any number of exchanges parses back as the first one, exit code and trailing text taken from all that follows it |
| `ShellRuns.SingleReadsBack` | packages/protocol/src/client/shell.ts:220-229 | a message with one exchange parses back to its command, output and text if and only if the text is blank or has no exit-code element |
| `Attribution.LateReplyIsMisattributed` | packages/protocol/src/client/shell.ts:145-237 | in a lossless run with late replies and a command waiting, the next reply belongs to an earlier, dropped command and is given to the waiting one, as its exchange if that is a context command |
| `Attribution.LateReplyIgnored` | packages/protocol/src/client/shell.ts:145-149 | with no command waiting a late reply changes nothing |
| `Attribution.DroppingResetMayBeHarmless` | packages/protocol/src/client/shell.ts:145-237 | a run whose reset drops a waiting command, with two replies behind it, in which every reply still goes to its own command |
| `Messages.MessagesAggregator.constructor` | packages/protocol/src/client/messages.ts:95-107 | a new aggregator has an empty timeline and no stream |
| `Messages.MessagesAggregator.PushLocalUser` | packages/protocol/src/client/messages.ts:116-126 | a local message is numbered and appended, and the revision moves |
| `Messages.MessagesAggregator.Push` | packages/protocol/src/client/messages.ts:128-138 | a frame is numbered and appended, and the revision moves |
| `Messages.MessagesAggregator.StartStreaming` | packages/protocol/src/client/messages.ts:140-151 | a stream's record and its timeline entry |
| `Messages.MessagesAggregator.BumpStreaming` | packages/protocol/src/client/messages.ts:153-173 | the tail or else the first entry of the stream shows its record |
| `Messages.MessagesAggregator.DropStreaming` | packages/protocol/src/client/messages.ts:175-181 | record, active id and entries of the stream go, and the revision moves |
| `Messages.MessagesAggregator.ApplyStreamEvent` | packages/protocol/src/client/messages.ts:183-275 | the effect of every stream event on record and timeline |
| `Messages.MessagesAggregator.Ingest` | packages/protocol/src/client/messages.ts:277-290 | stream events and assistant envelopes are consumed, an envelope replacing its stream |
| `Messages.MessagesAggregator.Hydrate` | packages/protocol/src/client/messages.ts:292-304 | restored entries replace the timeline, and numbering goes on behind them |
| `Messages.MaxOf` | packages/protocol/src/client/messages.ts:298-300 | the greatest arrival index of the restored entries |
| `Messages.MessagesAggregator.Reset` | packages/protocol/src/client/messages.ts:306-313 | everything is cleared and the revision moves |
| `Messages.StepMirrors` | packages/protocol/src/client/messages.ts:140-275 | each step keeps records and streaming entries equal if and only if it starts no id that is live |
| `Messages.RunMirrors` | packages/protocol/src/client/messages.ts:140-275 | over all runs with fresh ids every streaming entry shows its record, the records are those of the streaming entries, and the active stream is one of them |
| `Messages.RestartBreaksMirrors` | packages/protocol/src/client/messages.ts:140-151 | starting a live id always breaks the mirror |
| `Messages.RunFolds` | packages/protocol/src/client/messages.ts:183-275 | over all runs and interleavings every block of a live stream is its latest start followed by the matching deltas since, read off the log of that stream's events |
| `StreamRuns.RunStreams` | packages/protocol/src/client/messages.ts:140-313 | over all runs the live streams are the ids started since the last restore or clear and not finished since their last start, read off the events |
| `StreamRuns.RunShowsOnlyLive` | packages/protocol/src/client/messages.ts:140-313 | and only these are shown, fresh ids or not |
| `StreamRuns.ReplyReplacesStream` | packages/protocol/src/client/messages.ts:175-181 | after a finished reply no entry streams its id, every other entry stays in its order, and the reply is the last entry |
| `StreamRuns.RunLogs` | packages/protocol/src/client/messages.ts:116-313 | over all runs the entries that are not streaming are exactly the pushed frames, replies and local texts since the last clear, behind what the last restore brought, in order |
| `StreamRuns.RunModels` | packages/protocol/src/client/messages.ts:140-151 | every record bears its id and the model its latest start announced |
| `StreamRuns.StartShows` | packages/protocol/src/client/messages.ts:140-151 | a start shows the new, empty stream behind all else and makes it the active one |
| `StreamRuns.DeltaShows` | packages/protocol/src/client/messages.ts:153-173 | a delta changes the active record, and of the timeline the one entry that shows it |
| `StreamRuns.NumberingGoesOn` | packages/protocol/src/client/messages.ts:292-313 | after a restore numbering goes on right behind the greatest number kept, after a clear at zero |
| `Messages.StoppedToolInput` | packages/protocol/src/client/messages.ts:247-265 | a stopped tool block has the parsed concatenation of its deltas as input, its first input if there was no text |
| `StreamRuns.ToolWithoutInput` | packages/protocol/src/client/messages.ts:200-265 | a tool block without input and text has the empty object as its input |
| `Messages.StepNumbered` | packages/protocol/src/client/messages.ts:116-181 | arrival indices stay increasing and below the counter, if and only if a restore brings ordered entries |
| `Messages.RunNumbered` | packages/protocol/src/client/messages.ts:116-181 | the same over all runs |
| `Messages.RevisionIsChangeToken` | packages/protocol/src/client/messages.ts:112-181 | between any two states of a run, equal revisions mean equal persisted entries |
| `Persistence.SavedIsLastN` | packages/client/src/persistence.ts:65-80 | the last entries that are not streaming are saved, exactly when the limit is at least one or nothing is beyond it |
| `Persistence.ZeroSavesAll` | packages/client/src/persistence.ts:70-76 | a limit of zero saves everything |
| `Persistence.SaveHydrate` | packages/client/src/persistence.ts:65-80 | saving any reachable timeline and hydrating any aggregator restores its last entries and all invariants |
| `Persistence.RestoredRun` | packages/client/src/persistence.ts:65-80 | the numbering survives every run after the restore |
| `Tasks.CapTasksKeepRunning` | packages/protocol/src/client/tasks.ts:53-66 | the budget loop computes the eviction |
| `Tasks.CapExact` | packages/protocol/src/client/tasks.ts:53-66 | the kept tasks are a subsequence: every running task, and all but the oldest min(overflow, finished) others |
| `Tasks.TasksAggregator.GcPending` | packages/protocol/src/client/tasks.ts:114-129 | exactly the frames younger than the limit stay, and buffers that lose all are deleted |
| `Tasks.TasksAggregator.FlushPendingFor` | packages/protocol/src/client/tasks.ts:131-151 | waiting frames move to the task's transcript in order |
| `Tasks.TasksAggregator.UpsertTask` | packages/protocol/src/client/tasks.ts:153-167 | update in place or create, then cap |
| `Tasks.TasksAggregator.HandleTaskEvent` | packages/protocol/src/client/tasks.ts:169-270 | the effect of the four task events, and when they are ignored |
| `Tasks.TasksAggregator.HandleSubAgentFrame` | packages/protocol/src/client/tasks.ts:272-305 | a frame with a parent goes to the task's transcript or waits for it |
| `Tasks.TasksAggregator.Reset` | packages/protocol/src/client/tasks.ts:307-311 | tasks and buffers are dropped |
| `Tasks.RunKeepsInv` | packages/protocol/src/client/tasks.ts:100-305 | over all runs ids are unique, the cap holds or all tasks run, transcripts are indexed densely, and buffers hold their own frames |
| `Tasks.OnlyStartedRevives` | packages/protocol/src/client/tasks.ts:169-270 | a finished task runs again only through its own start event |
| `Tasks.FlushFindsStartedTask` | packages/protocol/src/client/tasks.ts:131-151 | after a start event the flush always finds a task, which the cap cannot have evicted |
| `Tasks.FramesAreConserved` | packages/protocol/src/client/tasks.ts:114-305 | over all runs every accepted frame is in a transcript or a buffer, expired by age, evicted with a finished task, or cleared |
| `Tasks.OneHomePerFrame` | packages/protocol/src/client/tasks.ts:272-305 | a frame that arrived once is in exactly one of these places |
| `Tasks.WaitingFramesAreYoung` | packages/protocol/src/client/tasks.ts:114-129 | after a sub-agent frame no waiting frame is as old as the limit, unless it is that frame |
| `TaskOrder.FlushAppends` | packages/protocol/src/client/tasks.ts:131-151 | a flush that finds a task appends the waiting frames one by one behind its transcript, and nothing else changes |
| `TaskOrder.FlushWithoutTask` | packages/protocol/src/client/tasks.ts:131-151 | a flush that finds none deletes that buffer and nothing else |
| `TaskOrder.KnownFrameGoesLast` | packages/protocol/src/client/tasks.ts:272-305 | a frame of a known task goes behind its transcript |
| `TaskOrder.UnknownFrameWaits` | packages/protocol/src/client/tasks.ts:272-305 | another waits behind those that wait for the same task and are young |
| `TaskOrder.RunKeepsOrder` | packages/protocol/src/client/tasks.ts:114-305 | over all runs without stranding events, for each parent the frames in any one transcript, and behind them those that wait, are in the order of arrival |
| `TaskOrder.TranscriptIsTheArrivals` | packages/protocol/src/client/tasks.ts:114-305 | when none was lost and one task shows them, its transcript and then the waiting frames are exactly the frames that arrived for the parent, in order |
| `TaskOrder.StrandedComesLate` | packages/protocol/src/client/tasks.ts:131-305 | a frame stranded by a notification comes behind a later one |
| `TaskFields.RunStatuses` | packages/protocol/src/client/tasks.ts:169-270 | over all runs each task has the status of its last word: started, notified or patched |
| `TaskFields.EventSays` | packages/protocol/src/client/tasks.ts:169-270 | after a task event each task is one of before, untouched or changed as the event says field by field, or the one it introduced |
| `TaskFields.EventClock` | packages/protocol/src/client/tasks.ts:153-167 | the task an event names bears the event's time, every other task is untouched |
| `Tasks.StepStrandsIff` | packages/protocol/src/client/tasks.ts:238-267 | frames wait for a known task after a step if and only if the step introduced that task by a notification the cap kept |
| `Tasks.RunStrandsNone` | packages/protocol/src/client/tasks.ts:131-305 | without such events no frame ever waits for a task in the table |
| `StateRouting.StateHolder.constructor` | packages/protocol/src/client/state.ts:150-203 | a new holder owns new aggregators in their initial states |
| `StateRouting.StateHolder.ApplySystem` | packages/protocol/src/client/state.ts:243-314 | routing of system frames: hooks, tasks, captured output, the first and later init, everything else to the timeline |
| `StateRouting.StateHolder.Sniff` | packages/protocol/src/client/state.ts:333-336 | the shell sees the frame, and a follow-up is announced and handed to send |
| `StateRouting.StateHolder.Route` | packages/protocol/src/client/state.ts:338-352 | after that send, whatever arrived inside it: sub-agent routing, then streaming, then the timeline |
| `StateRouting.StateHolder.ApplyConversation` | packages/protocol/src/client/state.ts:333-352 | both halves, when nothing arrives inside the send of the follow-up |
| `StateRouting.StateHolder.ApplyInbound` | packages/protocol/src/client/state.ts:239-353 | one inbound frame moves every part by the events that part sees of it, and the result says whether a part claimed it |
| `StateRouting.StateHolder.IngestHook` | packages/protocol/src/client/hooks.ts:55-75 | the ring keeps the last entries |
| `StateRouting.StateHolder.SendUserMessage` | packages/protocol/src/client/index.ts:267-276 | a sent text is drained with and pushed to the timeline, an empty one with nothing pending is neither |
| `StateRouting.StateHolder.RespondToPermission` | packages/protocol/src/client/state.ts:407-415 | the answered request leaves the queue, and an empty queue ends the wait for action |
| `StateRouting.StateHolder.ResetTimeline` | packages/protocol/src/client/state.ts:444-461 | all parts but the permission queue are reset |
| `StateRouting.StateHolder.HydrateMessages` | packages/protocol/src/client/state.ts:463-466 | only the timeline is replaced |
| `SessionLaws.AnnouncedState` | packages/protocol/src/client/state.ts:274-283 | an announced state sets the session if it is one of the three known, and changes nothing else |
| `SessionLaws.InitSeen` | packages/protocol/src/client/state.ts:245-272 | the first init makes the session busy, a later one does not, both go to the timeline |
| `SessionLaws.OtherSystemFrames` | packages/protocol/src/client/state.ts:311-313 | status and unknown system frames go to the timeline alone |
| `SessionLaws.CapturedOutput` | packages/protocol/src/client/state.ts:305-308 | captured output goes to the shell, other output to the timeline |
| `SessionLaws.HookFrames` | packages/protocol/src/client/state.ts:284-293 | a hook frame goes to the ring, whose oldest entry leaves when it is full |
| `SessionLaws.TaskFrames` | packages/protocol/src/client/state.ts:295-304 | a task event reaches the tasks and nothing else |
| `SessionLaws.PermissionRequested` | packages/protocol/src/client/state.ts:320-327 | a permission request makes the session wait and joins the queue, unless a callback answers it |
| `SessionLaws.OtherControlFrames` | packages/protocol/src/client/state.ts:316-331 | other control frames change nothing |
| `SessionLaws.PermissionAnswered` | packages/protocol/src/client/state.ts:407-415 | an answered request leaves the queue, the others keep their order, and with the last one the wait ends |
| `SessionLaws.SubAgentFrames` | packages/protocol/src/client/state.ts:338-340 | a frame that names a parent goes to the tasks and nowhere else |
| `SessionLaws.MainFrames` | packages/protocol/src/client/state.ts:342-352 | what goes to the end of the timeline, and what does not show |
| `SessionLaws.StreamedFrames` | packages/protocol/src/client/state.ts:342-346 | replies with an id and stream events are the timeline's own business |
| `SessionLaws.ClaimedIff` | packages/protocol/src/client/state.ts:239-353 | which frames no part claims |
| `SessionLaws.AnnouncedFirst` | packages/protocol/src/client/state.ts:333-352 | a released follow-up is announced in front of the reply's own entry |
| `SessionLaws.TextSent` | packages/protocol/src/client/index.ts:267-276 | a sent text is announced and takes the pending exchanges along |
| `SessionLaws.ResetLeaves` | packages/protocol/src/client/state.ts:444-461 | what a reset empties, and what stays |
| `SessionLaws.CommandIssued` | packages/protocol/src/client/shell.ts:192-209 | a command gets an entry behind the others and waits last |
| `SessionLaws.SentEntriesGo` | packages/protocol/src/client/shell.ts:220-229 | sending takes the entries of its exchanges away, and no other |
| `SessionLaws.DismissedGoes` | packages/protocol/src/client/shell.ts:211-214 | a dismissed entry goes, what it stands for still waits |
| `SessionLaws.EchoNoted` | packages/protocol/src/client/shell.ts:152-156 | the echo of a command is noted at the head of the queue and changes nothing else |
| `SessionRuns.RunProjects` | packages/protocol/src/client/state.ts:239-353 | in every run timeline, tasks and shell behave like runs of their own over the events that reach them, resets included |
| `SessionRuns.OneHome` | packages/protocol/src/client/state.ts:239-353 | each inbound frame is added to one place or none, and nowhere else: the counts in timeline and queue grow by it alone, those in hook ring and task store by it less what the ring pushes out and the store lets go |
| `SessionRuns.RoutedHome` | packages/protocol/src/client/state.ts:338-352 | the same for a frame inside whose follow-up's send others arrived |
| `SessionRuns.StoredAtMostOnce` | packages/protocol/src/client/state.ts:239-353 | over all runs the copies of a frame in timeline, transcripts, buffers, hook ring and queue together never exceed its arrivals |
| `SessionRuns.StepKeepsSubAgentsOutIff` | packages/protocol/src/client/state.ts:338-352 | a step keeps frames of sub-agents out of the timeline if and only if it restores none |
| `SessionRuns.RunKeepsSubAgentsOut` | packages/protocol/src/client/state.ts:338-352 | over all runs with clean restores no frame with a parent but system frames is in the timeline, as the classifier assumes |
| `SessionRuns.SavedIsClean` | packages/client/src/persistence.ts:65-80 | what is saved from such a timeline is a clean restore |
| `SessionRuns.SubAgentFramesAreConserved` | packages/protocol/src/client/state.ts:296-340 | the task invariants and the conservation of sub-agent frames hold in the whole system |
| `SessionRuns.TimelineIsSound` | packages/protocol/src/client/state.ts:311-352 | numbering and mirroring hold in the whole system |
| `SessionRuns.ExchangesDeliveredOnce` | packages/protocol/src/client/state.ts:306-336 | exactly-once delivery holds in the whole system, resets included |
| `SessionRuns.ExchangesAreTheirOwn` | packages/protocol/src/client/state.ts:306-336 | so does the exact condition for right attribution, whatever replies are lost, under which no exchange holds another command's output |
| `Correlator.RequestIdCorrelator.Register` | packages/protocol/src/client/correlate.ts:26-47 | a new promise, its timer and its pending entry |
| `Correlator.RequestIdCorrelator.Settle` | packages/protocol/src/client/correlate.ts:31-46 | a settled promise stays as it is |
| `Correlator.RequestIdCorrelator.OnTimeout` | packages/protocol/src/client/correlate.ts:32-39 | a firing timer removes what waits under its id and rejects its own promise |
| `Correlator.RequestIdCorrelator.TryResolve` | packages/protocol/src/client/correlate.ts:53-77 | a response settles the call waiting under its id, by its subtype, and reports whether there was one |
| `Correlator.RequestIdCorrelator.RejectAll` | packages/protocol/src/client/correlate.ts:80-86 | the deleting loop rejects every waiting promise and clears its timer |
| `Correlator.StepKeepsInvIff` | packages/protocol/src/client/correlate.ts:22-91 | pending and settled calls partition the registered ones, with live timers for the pending, after a step if and only if it registers no waiting id |
| `Correlator.RunPartitions` | packages/protocol/src/client/correlate.ts:22-91 | the same over all runs that register no waiting id |
| `Correlator.UniqueIdsAreClean` | packages/protocol/src/shared/request-id.ts:1-17 | runs with unique ids are such runs |
| `Correlator.SettledForGood` | packages/protocol/src/client/correlate.ts:22-91 | no event changes a settled promise, whatever the ids |
| `Correlator.SettlesOnceByFirstEnding` | packages/protocol/src/client/correlate.ts:22-91 | every promise settles with the first reply to its id, firing of its timer or abort after it was registered, and stays pending exactly until then |
| `Correlator.SynchronousReplyIsKept` | packages/protocol/src/client/index.ts:392-403 | a reply delivered inside send settles the promise, and a failure of that send afterwards does not change it |
| `Client.ClaudeClient.HandleInbound` | packages/protocol/src/client/index.ts:405-453 | a frame reaches the correlator and the session model, except permission requests a low-level callback owns; what arrives inside the send of its follow-up, nested to any depth, is handled before it is routed |
| `Client.ClaudeClient.HandleAll` | packages/protocol/src/client/index.ts:405-453 | all that arrives inside one send, in order |
| `ClientRuns.NothingInside` | packages/protocol/src/client/index.ts:405-453 | when nothing arrives inside, the two halves of handling a frame make up the whole |
| `Client.ClaudeClient.SetPermissionCallback` | packages/protocol/src/client/index.ts:336-338 | the callback is set or removed, and nothing else changes |
| `Client.ClaudeClient.Intent` | packages/protocol/src/client/index.ts:392-403 | registering, then sending, with any frames delivered inside send |
| `Client.ClaudeClient.OnSendFailed` | packages/protocol/src/client/index.ts:399-401 | a failed send rejects every waiting call |
| `Client.ClaudeClient.AbortAllIntents` | packages/protocol/src/client/index.ts:367-369 | every waiting call is rejected |
| `Client.ClaudeClient.SendShellContext` | packages/protocol/src/client/index.ts:290-292 | a context command in the whole client, with any frames delivered inside send |
| `ClientRuns.RunProjects` | packages/protocol/src/client/index.ts:392-453 | in every run of the client the correlator and the session model behave like runs of their own |
| `ClientRuns.IntentSettlesOnce` | packages/protocol/src/client/index.ts:392-403 | with unique ids every intent of any run settles with the first event behind it that ends it (a reply inside its own send or later, its timeout, an abort, any failed send) and is pending exactly until then |
| `ClientRuns.FailedSendSparesTheAnswered` | packages/protocol/src/client/index.ts:396-401 | the failure of a send rejects its intent unless something inside the send had settled it |
| `ClientRuns.PromiseEndsWith` | packages/protocol/src/client/correlate.ts:26-86 | what a promise ends with by the first event behind its intent: the payload of a success, the message of an error or the default one, the whole of another response, its timeout, or the abort |
| `ClientRuns.QueueHoldsUnowned` | packages/protocol/src/client/index.ts:405-447 | over all runs the queue holds only permission requests that arrived while no low-level callback was set |
| `ClientRuns.WiredQueueIsEmpty` | packages/protocol/src/client/index.ts:405-437 | with the callback set throughout, no permission request is ever queued |
| `ClientRuns.CallbackTakesRequestsOnly` | packages/protocol/src/client/index.ts:405-447 | the callback takes permission requests, of which the model sees only the wait, and no other frame |
| `Framing.LineParser.Push` | packages/protocol/src/process/framing.ts:21-29 | the buffer loop yields the non-empty terminated lines of buffer and chunk, and keeps the rest |
| `Framing.LineParser.Flush` | packages/protocol/src/process/framing.ts:32-37 | the partial line, if there is one |
| `Framing.ParseAll` | packages/protocol/src/process/framing.ts:11-37 | a parser fed with chunks and flushed gives the lines and the remainder of their concatenation |
| `Framing.PiecesAreLossless` | packages/protocol/src/process/framing.ts:21-29 | the reference: cutting at newlines loses nothing and leaves no newline in a piece |
| `Framing.LinesComeBack` | packages/protocol/src/process/framing.ts:21-37 | ended lines and a rest are read as the lines that are not empty, in order, and that rest |
| `Framing.ChunkingIsIrrelevant` | packages/protocol/src/process/framing.ts:18-38 | however a stream is divided, lines and remainder are those of the whole stream |
| `Framing.FramesRoundTrip` | packages/protocol/src/process/framing.ts:40-55 | frames written as lines and sent in any chunks are parsed back one by one, with nothing left over |
| `Classifier.ClassifyMessages` | packages/element/src/lib/classify.ts:227-239 | the stateless loop, with its skips, computes the row function |
| `Rows.PartsShow` | packages/element/src/lib/classify.ts:227-239 | two parts of a timeline show what each shows, one after the other, unless a bash input ends the first and its output starts the second |
| `Rows.TextShows` | packages/element/src/lib/classify.ts:191-193 | an ordinary user message shows as exactly its text, wherever it stands |
| `Rows.ToolResultsShow` | packages/element/src/lib/classify.ts:183-189 | a message of tool results alone shows as these |
| `Rows.PairShows` | packages/element/src/lib/classify.ts:128-151 | a bash input and the output that follows show as one row, with that command, output, error and exit code; what is between does not show |
| `Rows.LiveShows` | packages/element/src/lib/classify.ts:152-166 | an input without output shows with what the shell has collected |
| `Rows.LiveRowIs` | packages/element/src/lib/classify.ts:152-166 | that is what the last shell entry of the command collected, pending while it is nothing |
| `Rows.LoneOutputShows` | packages/element/src/lib/classify.ts:169-182 | an output without input shows by itself |
| `Rows.MergedShows` | packages/element/src/lib/classify.ts:112-126 | a message with command and output shows these, and its other text behind them |
| `Rows.OtherShows` | packages/element/src/lib/classify.ts:90-225 | local messages, streams, replies, results and system frames show as their kind demands, or not at all between an input and its output |
| `Classifier.MemoClassifier.Classify` | packages/element/src/lib/classify.ts:263-285 | the caching loop computes the memoising pass and trims the cache |
| `Classifier.MemoClassifier.Trim` | packages/element/src/lib/classify.ts:256-261 | what the collection keeps |
| `Classifier.MemoClassifier.Reset` | packages/element/src/lib/classify.ts:287-289 | the cache is emptied |
| `Classifier.IndependentOfShells` | packages/element/src/lib/classify.ts:90-225 | an analysis not marked as depending on the shells does not |
| `Classifier.NextStable` | packages/element/src/lib/classify.ts:69-76 | the next user frame, once there is one, stays it when entries are appended |
| `Classifier.MemoRefines` | packages/element/src/lib/classify.ts:263-285 | from a sound cache the memoising pass gives exactly the stateless rows and a sound cache |
| `Classifier.GcBounds` | packages/element/src/lib/classify.ts:256-261 | after collection the cache has at most sixteen entries beyond those seen, and all of those |
| `Classifier.AppendKeepsInv` | packages/element/src/lib/classify.ts:128-151 | appending keeps every cached analysis right, paired bash inputs included |
| `Classifier.RestreamKeepsInv` | packages/element/src/lib/classify.ts:263-285 | replacing a streaming entry in place does too |
| `Classifier.RestoreKeepsInv` | packages/element/src/lib/classify.ts:263-285 | restored entries keep the cache right when those with ids still cached look as they did when they were cached |
| `Classifier.DropSoundIffUnspanned` | packages/element/src/lib/classify.ts:128-151 | removing a streaming entry keeps the cache right if and only if no cached pair spans it |
| `Classifier.SpannedDropHidesReply` | packages/element/src/lib/classify.ts:128-151 | otherwise the canonical reply that replaces the entry is missing from the rows |
| `Classifier.RenderingSpans` | packages/element/src/lib/classify.ts:128-151 | one pass over a bash input, a streaming entry and the output leads to such a cache |
| `Classifier.CanonicalReplyDisappears` | packages/element/src/lib/classify.ts:128-151 | after that pass the reply that replaces the streaming entry does not show, for any shells |
| `Classifier.EveryPassIsStateless` | packages/element/src/lib/classify.ts:227-285 | over any sequence of allowed changes and passes, timeline resets and restores included, every pass equals the stateless one |
| `Classifier.FreshCacheInv` | packages/element/src/lib/classify.ts:253-255 | a new classifier starts sound on any timeline with distinct ids |

## Left out

- `translateRhs`, `translateInner`: the semantics of the two schema libraries are not part of the repository.
- Alias detection, binding contexts, report rendering, file templates and everything that starts a process or reads files.
- Transports, the server, timers as wall-clock objects: only "a frame arrives", "a timer fires" and "handed to send".
- Mode and model round trips, the init record and the seeding of session atoms: only the session state and the first init are modelled.
- Replies to permission requests, the `onCanUseTool` promise and `userMessages`: only the queue is modelled.
- `CanonicalKeys.EntryOf` has no union discriminants, description summary or body hash: these do not take part in key allocation.
- `Framing.LineParser.Push`: the generator is drained completely; a consumer that stops half-way is not modelled.
- `Tasks.RunStrandsNone`: says nothing about the order of frames in a transcript that a notification introduced.
- `ObjectLiterals.RoundTripIffBare`: right-hand sides are closed, trimmed and without a top-level comma or closing brace; others are not printed literals (`Expressions.ValueIsGoodRhs` gives a grammar of such right-hand sides).
- `Patches.ApplyPatches`: `inferSchemaName` and `pascalCase` are a parameter, and source positions in error messages are not modelled.
- `Classifier.EveryPassIsStateless`: row ids and keys for the view are the entry ids; rendering is not modelled.
- `Attribution.AttributionRightIff`: a process that answers commands out of their order is not modelled; replies are lost or late, not swapped.
- `StateRouting.StateHolder.ApplyConversation`: as one step, for transports that deliver nothing inside the follow-up's send; `Client.ClaudeClient.HandleInbound` covers the others.
- Identity and aliasing of objects: snapshots handed to subscribers, and stream blocks changed in place behind them.
- Ids of transcript entries, which nothing reads.
- Strings are sequences of Unicode characters; JavaScript compares and indexes UTF-16 code units, which differs outside the basic plane.
- Integers are unbounded; counters and clock readings of the source are doubles.
