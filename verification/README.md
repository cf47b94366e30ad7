# Verified models of six cores

This project models the six parts of the repository that hold real algorithms, and proves what they are for.

- **cJSON** (`Json*.dfy`): the recursive parser, the two printers, string transcoding, the in-place minifier, the child
  lists with their surgery, deep copy and deletion.
- **libconfig** (`Config*.dfy`): the generated LALR(1) tables and their driver, the semantic actions that build the
  settings tree, the string, word and number rules of the scanner, the writer, path lookup, and the tree operations.
- **TCC** (`Tcc*.dfy`, `Ledger.dfy`): the order coordinator with its reservation, order and decision tables.
- **Saga** (`Saga*.dfy`, `Ledger.dfy`): the event-driven order with its log, its workers and its compensation.
- **jvmgo** (`Jvm*.dfy`, `Integers.dfy`, `BitOps.dfy`): byte-code reader, decoder, operand stack, local variables and the interpreter loop.
- **Kernel list** (`KernelList.dfy`) and **UART framing** (`Uart*.dfy`).

Code that works step by step is modelled by methods over arrays, classes and loops. Each such method is proved equal to
a function of its inputs or of the old state, and the lemmas say what that function means.

## How each part is modelled

**cJSON.** A C string is a `string` of characters below 256; reading its terminator is a read just behind its end. The
parser and the printers work on values (`Json`); the buffers that the printers allocate are arrays of exactly the
computed length, so the two-pass sizing is checked by every write. Child lists are heap nodes with `child`, `next` and
`prev`. A number is kept as the exact decimal its text denotes; the printers are modelled on 32-bit integers. The bit
expressions of the transcoder are bit by bit (`BitOps.dfy`). A high surrogate consumes the `\u` escape behind it even
when that escape is no low surrogate; `Transcoding` says exactly when this loses text and `SwallowedLetter` gives an
input. `JsonLanguage` has the grammar of what the parser accepts, which is more than JSON: white space is any character
up to the blank, numbers may start with a zero or lack their digits behind a minus sign, and a literal at the end of the
text needs no closing quote.

**libconfig.** Each table is a function that is defined on the indices of the C array only, so every lookup is also a
range proof. `Run` is the driver with its stacks, its limit of 10000 entries and its three ways to end. Settings live in
one sequence and refer to each other by index; setting 0 is the root. `ConfigStore` has the operations as methods that
update this sequence in place; the parser's actions use the functions these methods are proved against. A missing
setting or string that an action would dereference is the outcome `Crashed`. `Scan` gives the tokens of a text; it
answers nothing where a construct is not part of this model (comments, includes, floats). `ConfigChanges` says what each
operation on the tree does as the functions that read the tree see it. The writer works on the tree
and is proved to emit a text that depends on the contents only.

**TCC and Saga.** A service call is one transaction on its tables. It can fail without effect or behind its effect, with
a negative answer or with an exception. A run is any sequence of arrivals and steps of any number of coordinators or
workers. In the TCC model `Released` is a canceled reservation. `FinishedCarriedOut` allows a canceled order to be
missing, because the row that should block it is inserted without a commit; `OrderMissing` says that this is so exactly
where the try of the order had no effect. `FinishedExactly` says which transactions are ever finished: those of an item
that exists, whose two tries throw nothing, whose last call is not lost and whose other calls do not fail at all. Nobody
takes up a transaction that its coordinator leaves. `TccRows` and `SagaStock` speak about rows and sums in terms of the
orders as they arrived.

Two failures can spoil the outcome of a saga: the insertion of its order's log row is lost although the worker goes on,
and a deduction that finds its stock fails to commit in time behind the event it has already emitted, whether its
rollback succeeds and a second, negative event follows, or fails and none does. Losing the log row of the deduction does
no harm. `OutcomeExactly` proves both halves: from every state reached without the two, a step
leaves the outcomes of all runs that go on without them right if and only if it is none of them. Runs stop and
outcomes are final whatever fails. An outcome can also be missing: `StepExactly` says which failures lose a saga for
good. Even without any failure a saga whose item does not exist never ends, because its compensation looks the item up;
its order stays a normal one (`EndsExactly`).

**jvmgo.** An abstract machine (`JvmTyped`) has a stack and locals of whole ints and longs. The slot machine is a class
per Go struct. `Loop` shows that any number of turns of the slot machine represents the same turns of the abstract one,
for every byte code on which the abstract machine does not get stuck, that is, on well-typed int and long code that
keeps to its declared stack. `JvmOpcodes` says in plain arithmetic what each opcode does there. The slot machine computes on bits (`JvmGo`, `JvmBits`): with a ripple-carry adder, a
complement, shift-and-add multiplication, masks and sign extension, each proved to be the wrapped arithmetic of the
abstract one. The long constants of the repository push one slot instead of two; `LongConstants` states what goes wrong,
and the loop leaves them out.

**Kernel list.** A ring is a sequence of nodes that starts with its head. Every operation says which rings there are
afterwards.

**UART.** `Feed` is the receiver on one byte; `Feeds` collects what it delivers from a stream. A byte that mismatches as
the second head byte is not tried as the first, so a packet behind noise arrives if and only if an even number of first
head bytes stands directly before it. Noise without first head bytes is a special case.

## Model

| member | source | states |
|---|---|---|
| JsonText.Skip | cJSON/cJSON.c:261 | the position found is not behind the text and holds no white space |
| JsonText.SkipWhite | cJSON/cJSON.c:261 | the loop finds that position |
| JsonText.SkipsBlanks | cJSON/cJSON.c:261 | white space is every character up to the blank, and all of it is skipped |
| JsonNumber.NumberBack | cJSON/cJSON.c:96-138 | a printed integer parses to itself and ends where its text ends, for every integer and any delimiter behind it |
| JsonNumber.ParseNumber | cJSON/cJSON.c:96-115 | a number is never refused and takes at least one character |
| JsonNumber.ScanDigits | cJSON/cJSON.c:102-106 | the digit loop reads the decimal value of the digits and stops behind them |
| JsonNumber.ScanWhole | cJSON/cJSON.c:100-102 | one leading zero is skipped, and digits are read from the first one that is not zero |
| JsonNumber.ScanFraction | cJSON/cJSON.c:103 | a point counts only in front of a digit, and each digit lowers the scale by one |
| JsonNumber.ScanExponent | cJSON/cJSON.c:104-107 | sign and digits of the exponent |
| JsonNumber.ScanNumber | cJSON/cJSON.c:96-115 | the three loops together read the exact decimal |
| JsonDecimals.NumberMeans | cJSON/cJSON.c:96-115 | a number is read as integer part plus fraction, times ten to the signed exponent, with its sign, and ends where its text ends |
| JsonString.Hex4 | cJSON/cJSON.c:140-151 | the value of four hex digits is a 16-bit code unit |
| JsonString.Hex4Is | cJSON/cJSON.c:140-151 | four hex digits in upper or lower case are weighted by their places |
| JsonString.CombineIsPair | cJSON/cJSON.c:184-190 | the masks, shift and or on two surrogates give the code point that the pair stands for |
| JsonString.TailBits | cJSON/cJSON.c:196-198 | the or and the mask give a continuation byte with the low six bits |
| JsonString.LeadBits | cJSON/cJSON.c:199 | the or with the mark of a length adds what is left of the code point to it |
| JsonString.WriteTails | cJSON/cJSON.c:195-198 | the falling cases write the tail bytes, last one first, and leave what was written before |
| JsonString.Utf8Correct | cJSON/cJSON.c:192-200 | the bytes emitted for every Unicode scalar value decode to that value (section 3 of RFC 3629) |
| JsonString.WriteUtf8 | cJSON/cJSON.c:192-200 | the backward fall-through writes appends exactly those bytes and leaves what was written before |
| JsonString.TurnDenotes | cJSON/cJSON.c:166-206 | a turn of the loop emits what its escape denotes, unless it consumes an escape that belongs to no pair |
| JsonString.Transcoding | cJSON/cJSON.c:166-206 | for every well-formed body the emitted bytes are the denoted ones if and only if no escape is swallowed; otherwise they are fewer |
| JsonString.SwallowedLetter | cJSON/cJSON.c:184-190 | a lone high surrogate in front of an escaped letter loses the letter |
| JsonString.BodyFits | cJSON/cJSON.c:160-207 | the output of the second pass never exceeds what the first pass counted |
| JsonString.ScanString | cJSON/cJSON.c:155-212 | both passes over the array of the counted size produce the parsed string, without a write outside it |
| JsonString.ScanTurn | cJSON/cJSON.c:168-205 | one turn appends its bytes and moves both cursors accordingly |
| JsonString.EscapedLengthExact | cJSON/cJSON.c:220-246 | the length computed before printing a string is exactly the length of its escaped form |
| JsonString.EscapeCharBack | cJSON/cJSON.c:229-243 | every escaped character reads back as that character in one turn of the parser |
| JsonString.StringBack | cJSON/cJSON.c:155-248 | every NUL-free string that is printed parses back to itself and ends behind its quote |
| JsonString.RenderString | cJSON/cJSON.c:215-248 | filling the array of the computed size gives the quoted form |
| JsonString.RenderChar | cJSON/cJSON.c:229-244 | one character is appended in its escaped form |
| JsonParser.ParseValue | cJSON/cJSON.c:287-299 | a value that is parsed takes at least one character and does not reach behind the text |
| JsonParser.ReadValue | cJSON/cJSON.c:287-299 | the dispatcher returns the item and the end, or the error position |
| JsonParser.ReadArray | cJSON/cJSON.c:320-345 | the loop over the elements builds the array of `ParseArray`, with its end or error position |
| JsonParser.ReadObject | cJSON/cJSON.c:406-439 | the same for objects and their members |
| JsonParser.ReadMember | cJSON/cJSON.c:417-422 | name, colon and value of one member |
| JsonParser.ReadText | cJSON/cJSON.c:264-278 | the whole parse, with and without the check for a terminator |
| JsonLanguage.DocParses | cJSON/cJSON.c:287-439 | the text of every value of the grammar, with any white space, is read to its end, with its meaning, wherever it stands |
| JsonLanguage.DocFound | cJSON/cJSON.c:287-439 | every value that is read is a value of the grammar |
| JsonLanguage.UnclosedParses | cJSON/cJSON.c:155-212 | the end of the text closes a literal as a quote does |
| JsonLanguage.LanguageExactly | cJSON/cJSON.c:264-439 | the parser accepts a text to its terminator if and only if the text is that of a document, and gives the document's meaning |
| JsonPrinter.RenderValue | cJSON/cJSON.c:302-317 | the text printed for a tree at any depth in both formats |
| JsonPrinter.CollectItems | cJSON/cJSON.c:370-376 | the entries of all elements and the sum of their room |
| JsonPrinter.ComposeArray | cJSON/cJSON.c:392-402 | the composition fits the array of the computed length, is terminated, and is the array's text |
| JsonPrinter.RenderArray | cJSON/cJSON.c:348-403 | both passes give the array's text |
| JsonPrinter.CollectMembers | cJSON/cJSON.c:469-476 | names and entries of all members and the sum of their room |
| JsonPrinter.ComposeObject | cJSON/cJSON.c:491-506 | the same for objects, with tabs and line feeds when formatting |
| JsonPrinter.ComposeMember | cJSON/cJSON.c:494-499 | one member is appended and uses no more than its share of the room |
| JsonPrinter.RenderEmptyObject | cJSON/cJSON.c:451-459 | the empty object, including the tabs of its closing brace |
| JsonPrinter.RenderObject | cJSON/cJSON.c:442-507 | both passes give the object's text |
| JsonLayout.ArrayLayout | cJSON/cJSON.c:392-402 | the elements stand between brackets, joined by commas, with a blank behind each when formatting |
| JsonLayout.ObjectLayout | cJSON/cJSON.c:491-506 | a formatted object has one line for each member, a tab deeper than its braces, with a tab behind the colon |
| JsonRoundTrip.ItemsBack | cJSON/cJSON.c:331-343 | the printed elements parse back, whatever was parsed before them |
| JsonRoundTrip.MembersBack | cJSON/cJSON.c:417-437 | the printed members parse back with their names |
| JsonRoundTrip.RoundTrip | cJSON/cJSON.c:264-284 | parsing the formatted or the unformatted print of any printable tree gives that tree and consumes the whole text |
| JsonMinify.Minify | cJSON/cJSON.c:581-596 | the text in the array becomes the minified text with its terminator, in place; nothing behind it changes; `CommentsRemoved` says what the minified text is |
| JsonMinify.MinifyPiece | cJSON/cJSON.c:584-594 | one turn keeps or drops its piece, and the write position never passes the read position; `CommentsRemoved` says which pieces are dropped |
| JsonMinify.SkipLine | cJSON/cJSON.c:590 | a line comment ends at its line feed or at the end of the text |
| JsonMinify.SkipComment | cJSON/cJSON.c:591 | a block comment ends behind the next star and slash |
| JsonMinify.CopyLiteral | cJSON/cJSON.c:592 | a string literal is copied whole, escaped quotes included |
| JsonSegments.CommentsRemoved | cJSON/cJSON.c:581-596 | of any sequence of blanks, line comments, block comments, literals and other characters, minifying leaves the literals and the other characters, in order |
| JsonSegments.SegmentsExactly | cJSON/cJSON.c:584-594 | such sequences make up exactly the texts whose comments and literals are closed |
| JsonSegments.CommentsKeepMeaning | cJSON/cJSON.c:581-596 | what a text parses to with a blank in place of each comment, its minified form parses to as well, comments and all |
| JsonMinifiedPrint.MinifiedPrint | cJSON/cJSON.c:283-284 | minifying the formatted print of any printable tree gives exactly its unformatted print |
| JsonMeaning.MinifyKeepsMeaning | cJSON/cJSON.c:581-596 | whatever a text with closed comments and literals parses to, its minified form parses to the same |
| JsonNodes.GetArraySize | cJSON/cJSON.c:510 | the length of the sequence of children |
| JsonNodes.GetArrayItem | cJSON/cJSON.c:511 | the child at that position, the first one for negative positions, or none |
| JsonNodes.AddItemToArray | cJSON/cJSON.c:515-520 | the item becomes the last child; all links stay inverse with null ends, and nothing but links changes |
| JsonNodes.DetachItemFromArray | cJSON/cJSON.c:525-526 | the child leaves the sequence and is unlinked on both sides; a missing one changes nothing, and nothing but links changes |
| JsonNodes.ReplaceLinks | cJSON/cJSON.c:532-534 | the new item takes the place of the old one in the sequence, and the old one ends up alone |
| JsonDuplicate.ReplaceItemInArray | cJSON/cJSON.c:532-534 | the same, and the nodes freed are those the old item owns; a missing position changes nothing |
| JsonDuplicate.DeleteItemFromArray | cJSON/cJSON.c:527 | the child leaves the sequence and the nodes freed are those it owns |
| JsonNodes.DetachItemFromObject | cJSON/cJSON.c:528 | the first member of that name leaves the sequence, names compared without case; without one nothing changes |
| JsonDuplicate.Duplicate | cJSON/cJSON.c:554-579 | the copy is a well-linked tree of new, pairwise different nodes with equal contents, or the root alone |
| JsonDuplicate.CopyChildren | cJSON/cJSON.c:568-577 | the loop copies the children in order, as well-linked trees of new nodes, and leaves the original alone |
| JsonDuplicate.LinkChild | cJSON/cJSON.c:574-575 | a copied child is linked behind the ones before it |
| JsonDuplicate.Delete | cJSON/cJSON.c:81-93 | the nodes freed are those owned by the list, children first, references without their children |
| JsonDuplicate.FreedOnce | cJSON/cJSON.c:81-93 | deleting a list of trees that share no node frees no node twice |
| JsonDuplicate.TreeFreedOnce | cJSON/cJSON.c:81-93 | the same for one tree |
| ConfigTables.YyDefAct | linux/linux_libconfig/grammar.c:586-593 | every default action is a rule of the grammar or an error |
| ConfigTables.Rhs | linux/linux_libconfig/grammar.c:538-655 | the right-hand sides have the lengths of the table |
| ConfigTables.ShiftEdge | linux/linux_libconfig/grammar.c:1278-1306 | a shift leads to a state that is accessed by the shifted token, along an edge of the automaton |
| ConfigTables.NoErrorToken | linux/linux_libconfig/grammar.c:1765-1780 | no state shifts the error token |
| ConfigTables.PopShape | linux/linux_libconfig/grammar.c:1322-1334 | whatever the stack, the entries a default reduction pops carry exactly the right-hand side of its rule |
| ConfigTables.GotoShape | linux/linux_libconfig/grammar.c:1653-1663 | the goto after a reduction is a state of the automaton that its left-hand side accesses |
| ConfigParser.RunStops | linux/linux_libconfig/grammar.c:1240-1316 | the driver ends with memory exhausted at the limit, accepts in the final state, and ends with a syntax error where the table has none |
| ConfigParser.RunShifts | linux/linux_libconfig/grammar.c:1278-1306 | a shift keeps the stacks sound and consumes input |
| ConfigParser.RunReduces | linux/linux_libconfig/grammar.c:1322-1665 | a reduction performs its action once and keeps the stacks sound |
| ConfigParser.ReduceSound | linux/linux_libconfig/grammar.c:1647-1665 | a reduction finds a goto on every reachable stack and lowers a measure, so that chains of reductions end |
| ConfigParser.Recover | linux/linux_libconfig/grammar.c:1765-1792 | error recovery pops every state without finding one for the error token: each syntax error aborts |
| ConfigParser.YyParse | linux/linux_libconfig/grammar.c:1246-1665 | the loop over state and value stack ends with the outcome of `Parse` on every input |
| ConfigParser.Semantic | linux/linux_libconfig/grammar.c:1338-1633 | an action leaves parent and setting inside the tree; `StringsBuild` and the meanings of values say what actions build |
| ConfigGrammar.AcceptedIsDerived | linux/linux_libconfig/grammar.c:1240-1665 | whatever the driver accepts is derivable from `configuration`: there is a derivation whose leaves are the whole input |
| ConfigSyntax.ValueMove | linux/linux_libconfig/grammar.c:1240-1665 | from a state that wants a value the driver performs the actions of that value in order and recognises it |
| ConfigSyntax.FieldsMove | linux/linux_libconfig/grammar.c:1240-1665 | the same for the settings of a group |
| ConfigSyntax.ParseRuns | linux/linux_libconfig/grammar.c:1240-1665 | on the tokens of every syntax tree that the stack can hold, the driver has the outcome of that tree's actions |
| ConfigStrings.StringsBuild | linux/linux_libconfig/grammar.c:1411-1425 | wherever a value can stand, strings in a row build one string setting that holds their texts in that order |
| ConfigStrings.SplitStrings | linux/linux_libconfig/grammar.c:1411-1425 | the driver has the same outcome however strings are split into parts |
| ConfigStrings.SplitExactly | linux/linux_libconfig/grammar.c:1411-1425 | the tokens of a readable configuration with its strings split in any way are accepted if and only if the stack can hold them, with the contents of the joined strings |
| ConfigDepth.ParseExactly | linux/linux_libconfig/grammar.c:1240-1665 | the driver accepts the tokens of a syntax tree if and only if its actions succeed and its stack stays below the limit |
| ConfigLanguage.LanguageExactly | linux/linux_libconfig/grammar.c:1240-1665 | the driver accepts any sequence of tokens if and only if it is that of a syntax tree whose actions succeed and whose parse the stack can hold |
| ConfigLanguage.ToFields | linux/linux_libconfig/grammar.c:538-655 | every derivation of a configuration has a syntax tree with the same tokens |
| ConfigSafety.ParseSafe | linux/linux_libconfig/grammar.c:1338-1633 | for every token sequence no action uses a missing setting or string, and an accepted tree is well-formed: names valid and different in their group, arrays of one scalar type, nothing left without a type |
| ConfigSafety.RunSafe | linux/linux_libconfig/grammar.c:1338-1633 | the same from every configuration the driver can be in |
| ConfigTree.NameCompare | linux/linux_libconfig/libconfig.c:133-155 | names compare equal exactly when they agree up to the first path token |
| ConfigTree.NameCharacters | linux/linux_libconfig/libconfig.c:535-552 | the characters of a valid name, and those it starts with |
| ConfigTree.Search | linux/linux_libconfig/libconfig.c:416-441 | the first element of that name, and none is missed |
| ConfigStore.Store.constructor | linux/linux_libconfig/libconfig.c:756-768 | a tree of its root group only, which is well-formed |
| ConfigStore.Store.ListSearch | linux/linux_libconfig/libconfig.c:416-441 | the loop finds the first element of that name |
| ConfigStore.Store.GetMember | linux/linux_libconfig/libconfig.c:1523-1530 | the member of a group, and none of other settings |
| ConfigStore.Store.SettingCreate | linux/linux_libconfig/libconfig.c:802-829 | a new setting is the last one of its parent; no other setting changes |
| ConfigStore.Store.SettingAdd | linux/linux_libconfig/libconfig.c:1571-1593 | a setting is added unless its name is invalid or taken or its parent holds no settings; a refusal changes nothing |
| ConfigStore.Store.SettingSet | linux/linux_libconfig/libconfig.c:1024-1163 | a setting without a type takes type and value, one of that type the value; a 64-bit integer is stored in a 32-bit setting when it fits and as zero when not; any other setting refuses |
| ConfigStore.Store.AppendElem | linux/linux_libconfig/libconfig.c:1306-1333 | an element is appended to a list, and to an array of its type; a refusal changes nothing |
| ConfigStore.Store.SettingRemove | linux/linux_libconfig/libconfig.c:1597-1615 | the first member of that name leaves its group; `RemoveReads` says what is found afterwards |
| ConfigStore.Store.SettingRemoveElem | linux/linux_libconfig/libconfig.c:1619-1641 | the element at that index leaves its parent |
| ConfigStore.Store.PerformAll | linux/linux_libconfig/libconfig.c:1024-1641 | any run of these calls on a well-formed tree has the effect of its changes in order and leaves a well-formed tree |
| ConfigChanges.SetReads | linux/linux_libconfig/libconfig.c:833-910 | a setting can be set if and only if it has no type, that of the value, or is a 32-bit integer set to a 64-bit one; the value just set is read back, or zero where a 64-bit one does not fit; no other setting changes |
| ConfigChanges.RemoveReads | linux/linux_libconfig/libconfig.c:1597-1615 | a removal fails if and only if there is no such member; afterwards the name is not found, every other name is found as before, the other elements keep their order and nothing else changes |
| ConfigChanges.RemoveElementReads | linux/linux_libconfig/libconfig.c:1619-1641 | a removal by index fails if and only if there is no such element; the elements behind it move up by one and nothing else changes |
| ConfigChanges.AddReads | linux/linux_libconfig/libconfig.c:1571-1593 | an addition fails if and only if the parent holds no settings or the name is invalid or taken; the new setting is the last one and found under its name, all others as before |
| ConfigChanges.AppendReads | linux/linux_libconfig/libconfig.c:1306-1333 | an element can be appended to any list and to an array that is empty or of its type; it is the last one, its value is read back and nothing else changes |
| ConfigList.ElementList.constructor | linux/linux_libconfig/libconfig.c:823-824 | an empty list |
| ConfigList.ElementList.Reallocate | linux/linux_libconfig/libconfig.c:405-407 | the elements survive a larger and a smaller block |
| ConfigList.ElementList.Add | linux/linux_libconfig/libconfig.c:401-412 | appends to the sequence of elements, and no write is outside the block, after any additions and removals |
| ConfigList.ElementList.Remove | linux/linux_libconfig/libconfig.c:445-460 | takes one element out of the sequence and keeps the order of the others |
| ConfigScanner.NumberBack | linux/linux_libconfig/scanner.c:1143-1164 | every 32-bit and 64-bit integer that is written scans to itself, in its format |
| ConfigScanner.EscapeBack | linux/linux_libconfig/scanner.c:987-1036 | every escaped byte scans to that byte |
| ConfigScanner.StringBack | linux/linux_libconfig/scanner.c:982-1044 | every string that is written scans to itself |
| ConfigScanner.ScanQuoted | linux/linux_libconfig/scanner.c:982-1044 | a written string in front of any text is one string token |
| ConfigScanner.ScanWord | linux/linux_libconfig/scanner.c:1123-1136 | a name is one token: a boolean when it spells one, a name otherwise |
| ConfigScanner.ScanNumber | linux/linux_libconfig/scanner.c:1143-1164 | a written number in front of a delimiter is one token |
| ConfigScanner.LowerReads | linux/linux_libconfig/scanner.c:1154-1164 | hexadecimal digits have the same value in both cases |
| ConfigScanner.LongSuffix | linux/linux_libconfig/scanner.c:1149-1164 | a 64-bit integer may have one or two letters behind its digits |
| ConfigScanner.BooleanWords | linux/linux_libconfig/scanner.c:1123-1129 | the words for booleans are `true` and `false` in any mixture of cases |
| ConfigScanner.WriteChar | linux/linux_libconfig/libconfig.c:261-291 | the escaped form of a byte |
| ConfigScanner.WriteString | linux/linux_libconfig/libconfig.c:251-296 | the quoted form of a string |
| ConfigWriter.WriteValue | linux/linux_libconfig/libconfig.c:173-397 | the text of a setting's contents, whatever settings hold them |
| ConfigWriter.WriteItems | linux/linux_libconfig/libconfig.c:310-320 | the elements of a list or array, separated by commas |
| ConfigWriter.WriteGroup | linux/linux_libconfig/libconfig.c:357-390 | braces, indentation and settings of a group |
| ConfigWriter.WriteSetting | linux/linux_libconfig/libconfig.c:636-670 | name, assignment character, value and separator |
| ConfigWriter.WriteIndent | linux/linux_libconfig/libconfig.c:159-169 | blanks or tabs, one level less than the depth |
| ConfigWriter.IndentIs | linux/linux_libconfig/libconfig.c:159-169 | each level below the first is one tab, or as many blanks as the width says |
| ConfigWriter.StartIs | linux/linux_libconfig/libconfig.c:636-657 | a colon assigns a group when the option for groups is on, any other value when the other option is, and an equals sign does otherwise |
| ConfigWriter.Write | linux/linux_libconfig/libconfig.c:674-681 | the text of the whole configuration |
| ConfigWriter.ContentLocal | linux/linux_libconfig/libconfig.c:802-829 | the contents of a setting depend on itself and on later settings only |
| ConfigRebuild.ValueMeans | linux/linux_libconfig/grammar.c:1338-1633 | the actions on a value's syntax add one setting with exactly that content |
| ConfigRebuild.ItemsMean | linux/linux_libconfig/grammar.c:1358-1410 | the actions on the elements add them in order |
| ConfigRebuild.FieldsMean | linux/linux_libconfig/grammar.c:1340-1356 | the actions on the settings of a group add them in order under their names |
| ConfigRoundTrip.ValueScans | linux/linux_libconfig/libconfig.c:173-397 | the written text of a value scans to the tokens of its syntax |
| ConfigRoundTrip.FieldsScan | linux/linux_libconfig/libconfig.c:636-670 | the written settings of a group scan to the tokens of their syntax, with every writer option |
| ConfigRoundTrip.NestingFits | linux/linux_libconfig/grammar.c:1240-1316 | 1665 levels below the root always fit on the stack |
| ConfigRoundTrip.ReadBack | linux/linux_libconfig/libconfig.c:622-681 | a readable configuration that is written and read back has the same contents |
| ConfigRoundTrip.TooDeep | linux/linux_libconfig/grammar.c:1240-1316 | a configuration that the stack cannot hold is refused |
| ConfigExact.AcceptedIsReadable | linux/linux_libconfig/grammar.c:1338-1633 | whatever text is accepted, the tree it gives can be written and read back |
| ConfigExact.RoundTripExactly | linux/linux_libconfig/libconfig.c:622-681 | writing and reading gives back the contents if and only if they are readable and the stack can hold them, for every tree without floats and every writer option |
| ConfigPath.Atoi | linux/linux_libconfig/libconfig.c:1203-1204 | the index that `atoi` and the conversion to unsigned give |
| ConfigPath.IndexIs | linux/linux_libconfig/libconfig.c:1203-1204 | an index may have white space and a sign in front; a negative one counts down from the end of the unsigned range |
| ConfigPath.LookupSetting | linux/linux_libconfig/libconfig.c:1189-1218 | the loop over the path finds what `Lookup` finds |
| ConfigPath.LookupDescends | linux/linux_libconfig/libconfig.c:1189-1218 | whatever is found is the start or one of its descendants |
| ConfigPath.LookupFinds | linux/linux_libconfig/libconfig.c:1189-1218 | the joined path of names and indices finds exactly the setting it was made from |
| ConfigPath.StrictExactly | linux/linux_libconfig/libconfig.c:1189-1218 | for every path the lookup answers as one that refuses every failed step, if and only if the path does not end in a bare bracket on a setting without elements |
| ConfigPath.SeparatorsAlike | linux/linux_libconfig/libconfig.c:1189-1217 | colons, dots and slashes separate the steps of a path alike |
| ConfigPath.BareBracket | linux/linux_libconfig/libconfig.c:1203-1217 | a bracket alone finds the first element, and the start itself where there is none |
| ConfigRuns.ApplyExactly | linux/linux_libconfig/libconfig.c:1024-1641 | an addition, assignment or removal keeps the tree well-formed if and only if it does not add to an array what its type check would refuse |
| ConfigRuns.RunKeepsProper | linux/linux_libconfig/libconfig.c:1024-1641 | a run of such changes keeps the tree well-formed |
| ConfigRuns.AddToArray | linux/linux_libconfig/libconfig.c:1571-1593 | adding to an array keeps it homogeneous if and only if the type passed is a scalar that fits its first element |
| ConfigRuns.ParsedIsProper | linux/linux_libconfig/libconfig.c:556-618 | every parsed tree can be the start of such a run |
| TccServices.Databases.TryReserveStock | presentations/dtp-in-action/dtp-tcc/src/main/java/com/clpsz/service/ItemStockService.java:29-62 | tables and answer of the transaction under every failure; `RowsCarry` and `StockAccounted` say what a reservation holds |
| TccServices.Databases.ConfirmReserveStock | presentations/dtp-in-action/dtp-tcc/src/main/java/com/clpsz/service/ItemStockService.java:64-90 | the same for the confirmation |
| TccServices.Databases.CancelReserveStock | presentations/dtp-in-action/dtp-tcc/src/main/java/com/clpsz/service/ItemStockService.java:92-129 | the same for the cancellation, which leaves a canceled row when it comes first |
| TccServices.Databases.TryCreateOrder | presentations/dtp-in-action/dtp-tcc/src/main/java/com/clpsz/service/OrderService.java:24-48 | the same for the order |
| TccServices.Databases.ConfirmCreateOrder | presentations/dtp-in-action/dtp-tcc/src/main/java/com/clpsz/service/OrderService.java:50-74 | the same for its confirmation, which is refused unless the order is initial |
| TccServices.Databases.CancelCreateOrder | presentations/dtp-in-action/dtp-tcc/src/main/java/com/clpsz/service/OrderService.java:76-104 | the same for its cancellation, which succeeds without a row for a missing order |
| TccServices.Databases.InsertTccRow | presentations/dtp-in-action/dtp-tcc/src/main/java/com/clpsz/service/TccService.java:20-37 | a new transaction in the initial status |
| TccServices.Databases.UpdateTccFromInit | presentations/dtp-in-action/dtp-tcc/src/main/java/com/clpsz/service/TccService.java:39-59 | the decision is taken from the initial status only |
| TccServices.Databases.UpdateTccToFinished | presentations/dtp-in-action/dtp-tcc/src/main/java/com/clpsz/service/TccService.java:61-83 | the transaction is finished from a decision only |
| TccServices.Databases.GetItemById | presentations/dtp-in-action/dtp-tcc/src/main/java/com/clpsz/service/ItemService.java:18-25 | the item is found exactly when it exists and its query does not fail |
| TccProtocol.PlaceOrder | presentations/dtp-in-action/dtp-tcc/src/main/java/com/clpsz/ShopController.java:26-55 | a coordinator that runs alone makes exactly the steps of the state machine, under every failure of its calls |
| TccProtocol.Settle | presentations/dtp-in-action/dtp-tcc/src/main/java/com/clpsz/ShopController.java:35-54 | the same from the decision on |
| TccProtocol.TurnKeeps | presentations/dtp-in-action/dtp-tcc/src/main/java/com/clpsz/ShopController.java:26-55 | every call, failing or not, keeps the rows of its transaction in line with its decision |
| TccProtocol.RunKeeps | presentations/dtp-in-action/dtp-tcc/src/main/java/com/clpsz/ShopController.java:26-55 | so does every interleaving of any number of coordinators |
| TccProtocol.Agreement | presentations/dtp-in-action/dtp-tcc/src/main/java/com/clpsz/ShopController.java:26-55 | in every reachable state no transaction has a confirmed reservation with a canceled order, or a canceled reservation with a normal order |
| TccProtocol.Confirmable | presentations/dtp-in-action/dtp-tcc/src/main/java/com/clpsz/service/TccService.java:39-59 | once the decision to confirm is recorded both rows exist, none is canceled, and the stock service does not refuse |
| TccProtocol.FinishedCarriedOut | presentations/dtp-in-action/dtp-tcc/src/main/java/com/clpsz/service/TccService.java:61-83 | a finished transaction carries its decision on both sides, except that a canceled order may be missing |
| TccProtocol.DecisionFinal | presentations/dtp-in-action/dtp-tcc/src/main/java/com/clpsz/service/TccService.java:44-47 | a decision never changes |
| TccFinish.FinishesExactly | presentations/dtp-in-action/dtp-tcc/src/main/java/com/clpsz/ShopController.java:26-55 | a coordinator by itself finishes its transaction if and only if the item exists and each call survives its failure |
| TccFinish.FinishedExactly | presentations/dtp-in-action/dtp-tcc/src/main/java/com/clpsz/ShopController.java:26-55 | in every interleaving a transaction is finished if and only if its coordinator orders an item that exists and each of its calls, from the insertion on, survives its failure |
| TccOrders.OrderedExactly | presentations/dtp-in-action/dtp-tcc/src/main/java/com/clpsz/service/OrderService.java:24-48 | in every interleaving a transaction has an order if and only if its coordinator gets past the lookup and the try of the order takes effect, whatever it answers |
| TccOrders.OrderMissing | presentations/dtp-in-action/dtp-tcc/src/main/java/com/clpsz/service/OrderService.java:24-48 | a finished transaction lacks its order if and only if that try had no effect, and has been canceled then |
| TccOrders.SettledOnce | presentations/dtp-in-action/dtp-tcc/src/main/java/com/clpsz/service/OrderService.java:50-104 | an order that is confirmed or canceled is neither confirmed nor canceled again |
| TccRows.RowsCarry | presentations/dtp-in-action/dtp-tcc/src/main/java/com/clpsz/ShopController.java:26-55 | in every interleaving the order of a transaction, and its reservation unless canceled, carry the item and the count that arrived with the coordinator which inserted the transaction |
| TccRows.StockAccounted | presentations/dtp-in-action/dtp-tcc/src/main/java/com/clpsz/service/ItemStockService.java:48-49 | in every interleaving the stock that is left of an item and what was ordered by the transactions with an uncanceled reservation add up to the initial stock |
| TccRows.SoldFromStock | presentations/dtp-in-action/dtp-tcc/src/main/java/com/clpsz/ShopController.java:26-55 | what the transactions with a confirmed order ordered of an item is at most its initial stock |
| TccFinish.StuckTransaction | presentations/dtp-in-action/dtp-tcc/src/main/java/com/clpsz/ShopController.java:37-44 | after one lost answer to a decision the transaction stays decided in every continuation |
| TccStock.CancelConserves | presentations/dtp-in-action/dtp-tcc/src/main/java/com/clpsz/service/ItemStockService.java:99-121 | a cancellation conserves stock if and only if it names the reserved item or releases nothing |
| TccStock.StockConserved | presentations/dtp-in-action/dtp-tcc/src/main/java/com/clpsz/service/ItemStockService.java:29-129 | under any repeated, lost or reordered calls stock plus reservations stays the initial stock of each item, and no stock is negative |
| TccStock.InterleavingsConserve | presentations/dtp-in-action/dtp-tcc/src/main/java/com/clpsz/ShopController.java:26-55 | in every interleaving of coordinators each item is on stock or held by a reservation |
| TccStock.InterleavingsOversellNot | presentations/dtp-in-action/dtp-tcc/src/main/java/com/clpsz/ShopController.java:26-55 | and no stock is negative, when nobody orders less than nothing |
| TccStock.Repeated | presentations/dtp-in-action/dtp-tcc/src/main/java/com/clpsz/service/ItemStockService.java:29-129 | a call of the stock service that is repeated changes nothing more and is answered alike |
| SagaServices.Databases.DoCreateOrder | presentations/dtp-in-action/dtp-saga/src/main/java/com/clpsz/service/OrderService.java:26-54 | tables and queue after the transaction and its event, under every failure |
| SagaServices.Databases.DoDeductStock | presentations/dtp-in-action/dtp-saga/src/main/java/com/clpsz/service/ItemStockService.java:31-69 | the same for the deduction, whose event precedes its commit, also where the rollback behind a lost commit fails |
| SagaServices.Databases.DoCancelDeduct | presentations/dtp-in-action/dtp-saga/src/main/java/com/clpsz/service/ItemStockService.java:71-108 | the same for its compensation |
| SagaServices.Databases.DoCancelOrder | presentations/dtp-in-action/dtp-saga/src/main/java/com/clpsz/service/OrderService.java:56-84 | the same for the order's compensation, which refuses a canceled order |
| SagaServices.Databases.DoInsertLog | presentations/dtp-in-action/dtp-saga/src/main/java/com/clpsz/service/SagaLogService.java:33-50 | one more open row in the saga's log |
| SagaServices.Databases.DoUpdateLog | presentations/dtp-in-action/dtp-saga/src/main/java/com/clpsz/service/SagaLogService.java:52-75 | the row of that phase changes its status, if there is one |
| SagaServices.Databases.DoSetStatus | presentations/dtp-in-action/dtp-saga/src/main/java/com/clpsz/service/SagaService.java:39-59 | the status changes from the initial one only |
| SagaServices.Databases.PutEvent | presentations/dtp-in-action/dtp-saga/src/main/java/com/clpsz/EventCenter.java:23-29 | the event is the last of the queue |
| SagaEvent.ProcessForward | presentations/dtp-in-action/dtp-saga/src/main/java/com/clpsz/CreateOrderEvent.java:64-97 | a worker that runs alone makes exactly the forward steps of the state machine |
| SagaEvent.ReverseLog | presentations/dtp-in-action/dtp-saga/src/main/java/com/clpsz/CreateOrderEvent.java:102 | the log is reversed |
| SagaEvent.CompensateEntry | presentations/dtp-in-action/dtp-saga/src/main/java/com/clpsz/CreateOrderEvent.java:103-124 | one entry is compensated and marked, skipped, or ends the loop |
| SagaEvent.ProcessCancel | presentations/dtp-in-action/dtp-saga/src/main/java/com/clpsz/CreateOrderEvent.java:99-128 | the compensation loop makes exactly the steps of the state machine |
| SagaEvent.ProcessEvent | presentations/dtp-in-action/dtp-saga/src/main/java/com/clpsz/CreateOrderEvent.java:56-62 | both directions |
| SagaProtocol.WorkKeeps | presentations/dtp-in-action/dtp-saga/src/main/java/com/clpsz/CreateOrderEvent.java:56-128 | one step of a worker whose failure is none of the two harmful ones keeps its saga in order |
| SagaProtocol.RunKeeps | presentations/dtp-in-action/dtp-saga/src/main/java/com/clpsz/EventCenter.java:31-55 | so does every interleaving of any number of workers |
| SagaOutcome.Outcome | presentations/dtp-in-action/dtp-saga/src/main/java/com/clpsz/CreateOrderEvent.java:64-128 | in every run without the two harmful failures a finished saga has its order and its stock, a canceled one neither |
| SagaOutcome.OneEvent | presentations/dtp-in-action/dtp-saga/src/main/java/com/clpsz/EventCenter.java:18-43 | in these runs at most one event of a saga is queued or being processed |
| SagaOutcome.BackwardOrder | presentations/dtp-in-action/dtp-saga/src/main/java/com/clpsz/CreateOrderEvent.java:99-125 | in these runs, once the deduction is logged, the order is canceled only after the stock has been given back |
| SagaOutcome.OutcomeFinal | presentations/dtp-in-action/dtp-saga/src/main/java/com/clpsz/service/SagaService.java:44-47 | in every run, whatever fails, the outcome of a saga never changes |
| SagaStops.RunsStop | presentations/dtp-in-action/dtp-saga/src/main/java/com/clpsz/CreateOrderEvent.java:42-128 | from every reachable state, whatever fails, no run has more steps than the measure of its start until new orders are placed |
| SagaEnds.EndsWhenQuiet | presentations/dtp-in-action/dtp-saga/src/main/java/com/clpsz/CreateOrderEvent.java:56-128 | in every run in which the steps about a saga go on it always has a worker, an event or an outcome, and when nothing is left to do an outcome |
| SagaEnds.StepExactly | presentations/dtp-in-action/dtp-saga/src/main/java/com/clpsz/CreateOrderEvent.java:56-128 | from every state reached without the two harmful failures a step leaves its saga a worker, an event or an outcome if and only if it goes on; otherwise the saga has no outcome in any continuation |
| SagaEnds.EndsExactly | presentations/dtp-in-action/dtp-saga/src/main/java/com/clpsz/service/ItemStockService.java:71-108 | in every run in which nothing fails, when nothing is left to do, a saga has an outcome if and only if its item exists; the order for any other item stays normal |
| SagaHarm.OutcomeExactly | presentations/dtp-in-action/dtp-saga/src/main/java/com/clpsz/CreateOrderEvent.java:64-128 | from every state reached without a harmful failure, a step leaves every outcome of every such continuation right if and only if its own failure is not harmful |
| SagaHarm.LostLogBreaks | presentations/dtp-in-action/dtp-saga/src/main/java/com/clpsz/CreateOrderEvent.java:83-86 | a lost log row of an order has a continuation without harmful failures that ends canceled with a normal order |
| SagaHarm.LateCommitBreaks | presentations/dtp-in-action/dtp-saga/src/main/java/com/clpsz/service/ItemStockService.java:57-64 | a deduction whose commit fails behind its event, alone or with its rollback, has a continuation without harmful failures that ends finished without its stock or its order |
| SagaOutcome.SingleAfterDeduct | presentations/dtp-in-action/dtp-saga/src/main/java/com/clpsz/service/ItemStockService.java:57-64 | a deduction leaves at most one event outstanding if and only if no negative event follows its positive one |
| SagaOutcome.LostLog | presentations/dtp-in-action/dtp-saga/src/main/java/com/clpsz/service/SagaLogService.java:43-46 | one such run from the start: a canceled saga with a normal order |
| SagaStock.DeductConserves | presentations/dtp-in-action/dtp-saga/src/main/java/com/clpsz/service/ItemStockService.java:38-59 | a deduction conserves stock, under every failure |
| SagaStock.CancelConserves | presentations/dtp-in-action/dtp-saga/src/main/java/com/clpsz/service/ItemStockService.java:78-100 | so does its compensation |
| SagaStock.Repeated | presentations/dtp-in-action/dtp-saga/src/main/java/com/clpsz/service/ItemStockService.java:48-52 | a call of the stock service that comes again changes no row: a deduction is announced again, a cancellation answered alike |
| SagaStock.OrderedOnce | presentations/dtp-in-action/dtp-saga/src/main/java/com/clpsz/service/OrderService.java:26-84 | an order is neither created, nor announced, nor withdrawn twice |
| SagaStock.SagasConserve | presentations/dtp-in-action/dtp-saga/src/main/java/com/clpsz/service/ItemStockService.java:38-100 | in every run, whatever fails, stock plus reservations stays the initial stock, and no stock is negative when nobody orders less than nothing |
| SagaStock.SagasCarry | presentations/dtp-in-action/dtp-saga/src/main/java/com/clpsz/ShopController.java:16-30 | in every run, whatever fails, there is a saga for each order that was placed, and its order and its uncanceled reservation carry the item and the count that were placed |
| SagaStock.StockAccounted | presentations/dtp-in-action/dtp-saga/src/main/java/com/clpsz/service/ItemStockService.java:54-55 | in every run the stock that is left of an item and what was ordered by the sagas with an uncanceled reservation add up to the initial stock |
| SagaStock.SoldFromStock | presentations/dtp-in-action/dtp-saga/src/main/java/com/clpsz/CreateOrderEvent.java:64-128 | in every run without the two harmful failures what the finished sagas ordered of an item is at most its initial stock |
| JvmWords.JoinSplit | java/jvmgo/ch05/rtda/operand_stack.go:40-49 | the two words of a long give the long back |
| JvmWords.DivisionLaw | java/jvmgo/ch05/instructions/math/rem.go:14-38 | quotient and remainder truncate: they satisfy the division law and the remainder has the sign of the dividend |
| JvmWords.UnsignedShift | java/jvmgo/ch05/instructions/math/sh.go:33-67 | an unsigned shift of a negative number differs from the signed one by the power of two that fills the top bits |
| JvmWords.WrapCongruent | java/jvmgo/ch05/instructions/math/add.go:13-27 | wrapped results differ from the exact ones by a multiple of the modulus |
| JvmWords.SubUndoesAdd | java/jvmgo/ch05/instructions/math/add.go:13-27 | subtracting what was added gives the operand back, also after an overflow |
| JvmWords.BitwiseLaw | java/jvmgo/ch05/instructions/math/and.go:11-25 | and, or and exclusive or divide the bits of two operands among them |
| JvmWords.CompareThenTest | java/jvmgo/ch05/instructions/comparisons/lcmp.go:10-22 | testing the comparison of two longs against zero is testing the longs |
| JvmGo.LongOfIs | java/jvmgo/ch05/rtda/operand_stack.go:45-49 | the shift and the bitwise or of two unsigned words give the long they make up |
| JvmGo.IntOfIs | java/jvmgo/ch05/instructions/base/bytecode_reader.go:33-40 | the shifts and ors of four bytes give the integer they make up |
| JvmBits.ComputedIs | java/jvmgo/ch05/instructions/math/add.go:13-27 | addition with carries, subtraction by complement, multiplication by shifted additions and the bitwise operators, on the bits of two operands, give the wrapped result |
| JvmBits.NegatedIs | java/jvmgo/ch05/instructions/math/neg.go:13-25 | the complement and one give the wrapped negation |
| JvmBits.ConvertedIs | java/jvmgo/ch05/instructions/conversions/i2x.go:15-41 | masks and signs of the low bits, and the repeated sign bit, give the converted value |
| JvmGo.ShiftedIs | java/jvmgo/ch05/instructions/math/sh.go:15-67 | a shift of the bits by the masked distance is the multiplication or division by a power of two |
| JvmCode.BytecodeReader.ReadUint8 | java/jvmgo/ch05/instructions/base/bytecode_reader.go:13-17 | one byte, and the position behind it |
| JvmCode.BytecodeReader.ReadUint16 | java/jvmgo/ch05/instructions/base/bytecode_reader.go:23-27 | two bytes, the first one high |
| JvmCode.BytecodeReader.ReadInt32 | java/jvmgo/ch05/instructions/base/bytecode_reader.go:33-40 | four bytes as a signed integer |
| JvmCode.BytecodeReader.ReadInt32s | java/jvmgo/ch05/instructions/base/bytecode_reader.go:42-49 | a table of them |
| JvmCode.BytecodeReader.SkipPadding | java/jvmgo/ch05/instructions/base/bytecode_reader.go:51-55 | the next multiple of four |
| JvmCode.BytecodeReader.FetchTable | java/jvmgo/ch05/instructions/control/table_switch.go:15-22 | the operands of a tableswitch |
| JvmCode.BytecodeReader.FetchLookup | java/jvmgo/ch05/instructions/control/lookup_switch.go:14-19 | the operands of a lookupswitch |
| JvmCode.BytecodeReader.FetchWide | java/jvmgo/ch05/instructions/extended/wide.go:15-66 | the wide forms of loads, stores and iinc |
| JvmCode.BytecodeReader.Fetch | java/jvmgo/ch05/instructions/factory.go:167-579 | the instruction that the byte code denotes at the position, and the position behind it |
| JvmEncode.DecodeEncode | java/jvmgo/ch05/instructions/factory.go:167-579 | every instruction laid out as section 6.5 of the JVM specification says, at any position with its padding, is decoded to itself |
| JvmEncode.IntsBack | java/jvmgo/ch05/instructions/base/bytecode_reader.go:33-49 | big-endian integers read back |
| JvmFrame.OperandStack.PushLong | java/jvmgo/ch05/rtda/operand_stack.go:40-43 | low word, then high word |
| JvmFrame.OperandStack.PopLong | java/jvmgo/ch05/rtda/operand_stack.go:45-49 | the long of the two words on top |
| JvmFrame.OperandStack.PushSlot | java/jvmgo/ch05/rtda/operand_stack.go:73-76 | one slot more |
| JvmFrame.OperandStack.PopSlot | java/jvmgo/ch05/rtda/operand_stack.go:78-81 | one slot less |
| JvmFrame.OperandStack.Pop | java/jvmgo/ch05/rtda/operand_stack.go:18-49 | popping a value of its kind refines popping a whole value |
| JvmFrame.OperandStack.Push | java/jvmgo/ch05/rtda/operand_stack.go:18-49 | pushing refines pushing a whole value |
| JvmFrame.LocalVars.SetLong | java/jvmgo/ch05/rtda/local_vars.go:35-38 | the two words in two neighbouring slots |
| JvmFrame.LocalVars.GetLong | java/jvmgo/ch05/rtda/local_vars.go:40-44 | the long of the two slots |
| JvmFrame.LocalVars.Set | java/jvmgo/ch05/rtda/local_vars.go:17-44 | storing refines storing a whole value, which destroys a long it overlaps |
| JvmFrame.LocalVars.Get | java/jvmgo/ch05/rtda/local_vars.go:17-44 | loading gives the whole value that was stored |
| JvmShuffle.ShuffleWords | java/jvmgo/ch05/instructions/stack/dup.go:15-76 | on slots, each stack instruction does to the words what every one of its forms in section 6.5 of the JVM specification does to whole ints and longs |
| JvmTyped.PairOffsetIs | java/jvmgo/ch05/instructions/control/lookup_switch.go:24-30 | the linear search finds the offset that belongs to the key |
| JvmTyped.PairOffsetElse | java/jvmgo/ch05/instructions/control/lookup_switch.go:32 | and the default where no key matches |
| JvmLoop.Frame.Branch | java/jvmgo/ch05/instructions/base/branch_logic.go:7-11 | the next position is relative to the current instruction |
| JvmLoop.Frame.ExecuteLoad | java/jvmgo/ch05/instructions/loads/lload.go:17-24 | a load refines the load of a whole value |
| JvmLoop.Frame.ExecuteStore | java/jvmgo/ch05/instructions/stores/lstore.go:14-37 | a store refines the store of a whole value |
| JvmLoop.Frame.ExecuteIinc | java/jvmgo/ch05/instructions/math/iinc.go:13-23 | the increment wraps at 32 bits |
| JvmLoop.Frame.MoveSlots | java/jvmgo/ch05/instructions/stack/dup.go:15-76 | pops and pushes of slots have the effect of their pattern |
| JvmLoop.Frame.ExecuteShuffle | java/jvmgo/ch05/instructions/stack/dup.go:15-76 | the stack instructions refine their typed forms |
| JvmLoop.Frame.ExecuteBinary | java/jvmgo/ch05/instructions/math/div.go:13-33 | arithmetic refines that of whole values; division by zero throws and nothing else does |
| JvmLoop.Frame.ExecuteShift | java/jvmgo/ch05/instructions/math/sh.go:15-67 | shifts take their masked distance from an int also for longs |
| JvmLoop.Frame.ExecuteNeg | java/jvmgo/ch05/instructions/math/neg.go:13-25 | the negation wraps |
| JvmLoop.Frame.ExecuteConvert | java/jvmgo/ch05/instructions/conversions/i2x.go:15-41 | conversions change the width of the value on the stack |
| JvmLoop.Frame.ExecuteLcmp | java/jvmgo/ch05/instructions/comparisons/lcmp.go:10-22 | the comparison of two longs is an int |
| JvmLoop.Frame.ExecuteIf | java/jvmgo/ch05/instructions/comparisons/ifcond.go:15-61 | the branch is taken exactly when the condition holds |
| JvmLoop.Frame.ExecuteIfIcmp | java/jvmgo/ch05/instructions/comparisons/if_icmp.go:15-67 | the same for two operands |
| JvmLoop.Frame.ExecuteGoto | java/jvmgo/ch05/instructions/control/goto.go:10-12 | the branch is always taken |
| JvmLoop.Frame.ExecuteTableSwitch | java/jvmgo/ch05/instructions/control/table_switch.go:24-36 | the indexed offset, or the default outside the range |
| JvmLoop.Frame.ExecuteLookupSwitch | java/jvmgo/ch05/instructions/control/lookup_switch.go:21-33 | the search loop branches by the offset of its key |
| JvmLoop.Frame.LoopTurn | java/jvmgo/ch05/interpreter.go:36-48 | one turn of the loop simulates one turn of the typed machine |
| JvmLoop.Frame.Loop | java/jvmgo/ch05/interpreter.go:33-49 | any number of turns on well-typed int and long code simulates the typed machine, and throws exactly when it does |
| JvmLoop.Frame.StartsEmpty | java/jvmgo/ch05/interpreter.go:17-22 | a new frame represents the typed machine at its start |
| JvmOpcodes.OperandsExactly | java/jvmgo/ch05/interpreter.go:36-48 | arithmetic, conversions, comparisons and conditional branches go on, or throw, if and only if their operands are on the stack |
| JvmOpcodes.IfTurn | java/jvmgo/ch05/instructions/comparisons/ifcond.go:15-61 | each of the opcodes 0x99 to 0x9e branches by its signed offset if and only if the int on top is zero, is not, is negative, is not, is positive, is not |
| JvmOpcodes.IfIcmpTurn | java/jvmgo/ch05/instructions/comparisons/if_icmp.go:15-67 | the same for the two ints on top and the opcodes 0x9f to 0xa4 |
| JvmOpcodes.GotoTurn | java/jvmgo/ch05/instructions/control/goto.go:10-12 | the next position is the current one plus the signed offset of two or four bytes |
| JvmOpcodes.TableTurn | java/jvmgo/ch05/instructions/control/table_switch.go:24-36 | a key from the low to the high end takes its own offset, any other key the default |
| JvmOpcodes.LookupTurn | java/jvmgo/ch05/instructions/control/lookup_switch.go:21-33 | the first pair with the key on top gives the offset, the default does where there is none |
| JvmOpcodes.ArithmeticTurn | java/jvmgo/ch05/instructions/math/add.go:13-27 | the opcodes for sum, difference and product push the number of their width that is congruent to the exact result |
| JvmOpcodes.DivideTurn | java/jvmgo/ch05/instructions/math/div.go:13-33 | the opcodes for quotient and remainder round towards zero, and throw if and only if the divisor is zero |
| JvmOpcodes.BitwiseTurn | java/jvmgo/ch05/instructions/math/and.go:11-25 | each bit of what the opcodes for and, or and exclusive or push is that of the two bits of their operands |
| JvmOpcodes.NegTurn | java/jvmgo/ch05/instructions/math/neg.go:13-25 | the opcodes for negation push the number of their width that adds up to zero with the operand |
| JvmOpcodes.ShiftTurn | java/jvmgo/ch05/instructions/math/sh.go:15-67 | the opcodes for shifts multiply or divide by a power of two, to the low five or six bits of the int on top |
| JvmOpcodes.ConvertTurn | java/jvmgo/ch05/instructions/conversions/i2x.go:15-41 | the opcodes for conversions push the number of the new range that is congruent to the old one |
| JvmOpcodes.LcmpTurn | java/jvmgo/ch05/instructions/comparisons/lcmp.go:10-22 | the opcode pushes minus one, zero or one as the first long is less, equal or greater |
| JvmOpcodes.ConstTurn | java/jvmgo/ch05/instructions/constants/ipush.go:11-25 | the opcodes push the constants minus one to five, or their signed operand |
| JvmOpcodes.LoadTurn | java/jvmgo/ch05/instructions/loads/iload.go:17-40 | a load in its short, one-byte or wide form pushes the value of its variable |
| JvmOpcodes.StoreTurn | java/jvmgo/ch05/instructions/stores/istore.go:17-37 | a store in any form puts the value on top into its variable; other variables stay, unless a half of a long is overwritten |
| JvmOpcodes.IincTurn | java/jvmgo/ch05/instructions/math/iinc.go:13-23 | the increment, also in its wide form, adds its signed constant |
| JvmOpcodes.StackTurn | java/jvmgo/ch05/instructions/stack/dup.go:15-76 | each of the nine stack opcodes arranges the words on top as its name says |
| JvmLoop.LongConstants | java/jvmgo/ch05/instructions/constants/const.go:76-82 | pushing the int zero or one leaves one word less than pushing the long, and different words |
| KernelList.ListHead.constructor | linux/linux_kernel_list/list.h:29-31 | a node that is a ring by itself |
| KernelList.InsertBetween | linux/linux_kernel_list/list.h:39-47 | the links around the new node, also when both neighbours are one |
| KernelList.Add | linux/linux_kernel_list/list.h:57-60 | the node follows the head |
| KernelList.AddTail | linux/linux_kernel_list/list.h:70-73 | the node precedes the head |
| KernelList.Unlink | linux/linux_kernel_list/list.h:82-86 | the two neighbours are linked to each other |
| KernelList.Delete | linux/linux_kernel_list/list.h:93-98 | the ring without the entry, whose links are null |
| KernelList.DeleteInit | linux/linux_kernel_list/list.h:104-108 | the ring without the entry, which is a ring of its own |
| KernelList.Move | linux/linux_kernel_list/list.h:115-119 | the entry leaves one ring and follows the head of another |
| KernelList.MoveTail | linux/linux_kernel_list/list.h:126-131 | the entry leaves one ring and precedes the head of another |
| KernelList.MoveToFront | linux/linux_kernel_list/list.h:115-119 | the same within one ring |
| KernelList.MoveToBack | linux/linux_kernel_list/list.h:126-131 | the same within one ring |
| KernelList.Empty | linux/linux_kernel_list/list.h:137-140 | true exactly when the ring has no entry |
| KernelList.SpliceEntries | linux/linux_kernel_list/list.h:142-154 | the entries of one ring follow the head of the other, in order, then its own entries |
| KernelList.Splice | linux/linux_kernel_list/list.h:161-165 | the same, also for an empty list |
| KernelList.SpliceInit | linux/linux_kernel_list/list.h:174-181 | the same, and the list is an empty ring afterwards |
| KernelList.Entries | linux/linux_kernel_list/list.h:197-199 | the walk visits every entry once, in order |
| UartFrame.CalcChecksum | linux/uart_communicate_protocol/ser_cmd.c:43-56 | the sum of all bytes but the checksum |
| UartFrame.BuildPacket | linux/uart_communicate_protocol/ser_cmd.c:84-99 | the packet with head, length, number, command, payload and checksum |
| UartFrame.Receiver.Receive | linux/uart_communicate_protocol/ser_cmd.c:172-238 | one byte: what is kept of the packet so far, and the packet that is complete, with every index inside its buffer |
| UartFrame.Receiver.ReceiveHead | linux/uart_communicate_protocol/ser_cmd.c:174-206 | one of the first three bytes: kept, or the start over, and the buffer that the length sizes |
| UartFrame.Receiver.ReceiveRest | linux/uart_communicate_protocol/ser_cmd.c:207-238 | a later byte: kept, and the packet that the last one completes, if its heads and checksum are right |
| UartFrame.Receiver.ReceiveAll | linux/uart_communicate_protocol/ser_cmd.c:164-240 | the same for a stream |
| UartFrame.XorLaws | linux/uart_communicate_protocol/ser_cmd.c:50-54 | the checksum operation is associative, commutative and its own inverse |
| UartStream.BuiltParses | linux/uart_communicate_protocol/ser_cmd.c:58-99 | a built packet has a right length and checksum and carries its payload |
| UartStream.PacketFeeds | linux/uart_communicate_protocol/ser_cmd.c:164-240 | a framed packet is delivered exactly when its checksum is right, and the receiver is ready again either way |
| UartStream.PacketAfterNoise | linux/uart_communicate_protocol/ser_cmd.c:177-182 | a packet behind noise arrives if and only if an even number of first head bytes stands directly before it |
| UartStream.StreamDelivered | linux/uart_communicate_protocol/ser_cmd.c:164-240 | every packet of a stream is delivered once, in order and unchanged |
| UartStream.CorruptedDropped | linux/uart_communicate_protocol/ser_cmd.c:206-218 | a packet with one changed byte behind its length is dropped and does not disturb what follows |
| UartStream.PayloadLimit | linux/uart_communicate_protocol/ser_cmd.c:84-99 | a built packet is delivered if and only if its payload has at most 249 bytes |

## Left out

- Floating point everywhere: `%e` and `%f` in cJSON, fractions as doubles, libconfig floats beyond their token, and the float and double instructions of jvmgo.
- Allocation failure, custom allocators and null pointers passed as arguments, in cJSON, libconfig and the UART code.
- JsonString.ScanString: a `\u` whose next four characters include a quote, a backslash or the end of the text, where the two passes over the literal disagree about where it ends; the parser model answers `Malformed`, and the methods that read values exclude it. Other escapes without four hex digits are modelled.
- JsonMinify.Minify: texts with a comment or literal that is never closed, where the C code reads behind the text.
- JsonParser.ReadValue: builds values, not linked nodes; the links that the parser sets are those of the child lists, which are modelled by the surgery and copy methods.
- Reference items and array helpers of cJSON (`cJSON_Create...`, `...ReferenceTo...`): they only allocate and delegate.
- The generated scanner automaton of libconfig, buffer refilling, comments and include files; `Scan` answers nothing on them.
- ConfigStore.Store.SettingSet: automatic conversion to and from floats is off, as it is by default.
- ConfigStore.Store.SettingAdd: a null name for a group, which the C code would compare with the names of its members.
- Source positions, hooks, destructors and locale switching of libconfig.
- ConfigStore.Store.SettingRemove: the removed setting stays in the sequence of settings, unreachable; freeing it is not modelled. Settings are entries of one sequence, so aliasing between C structures is not captured.
- ConfigPath.Atoi: a 64-bit `long` inside `atoi`, as on LP64 systems, is assumed.
- Database drivers, threads, clocks and payment amounts of the shops; a transaction is one atomic step, and so is the query for an item. An insertion of a transaction or saga row that fails ends its order before it starts.
- TccProtocol.Agreement: each transaction has the one coordinator that created it, as in the repository; `StockConserved` covers services called by anybody.
- SagaOutcome.Outcome: is about runs without the two harmful failures; `OutcomeExactly` proves that each of these failures has a continuation with a wrong outcome, and that no other failure has.
- The capacity and blocking of the event queue, the interruption of its threads, and the order of log rows other than by insertion.
- References, objects, method calls and class files of jvmgo; the tests of references; the null constant.
- JvmLoop.Frame.Loop: runs a given number of turns, since the Go loop has no end; the long and float constants, which push the wrong width, are not part of the typed machine.
- Reply matching, the handler table and sending over the serial line; a null payload in `_build_pkt`.
- User interfaces, network demos, sharding and string utilities of the repository: plumbing around libraries, or easy members only.
