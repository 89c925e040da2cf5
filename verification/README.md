# Verified models of the bundled Expat parser and of the signalling protocol

This project models the two parts of the repository with the most state in them and proves
what they are for.

**The XML parser** (`win/libexpat`, Expat 2.0.1, configured by `winconfig.h`: namespaces and
DTDs on, 1024 context bytes; UTF-8 documents). It reads its input in whatever pieces the
application has, so its scanners must be able to stop anywhere; it compiles content models,
expands entities, scopes namespaces, hands out string pointers that stay valid, and keeps its
names in open-addressed hash tables.

**The signalling protocol** (`dialog_server/index.js`, `peer.cpp`, `ppsession.cpp`,
`prober.cpp`). Two probers find each other through a relay server and agree on a session.
What has to hold is about whole runs of all parts together.

Code that changes things step by step is imperative here too: the scanners, the content loop,
the declaration parser, the tables, the pool, the buffers, the server and the session are
methods and classes with the source's loops and fields. Each is proved against functions on
values, and the results about runs are lemmas about those functions. `dafny verify
dfyconfig.toml` checks everything.

The results that the others lead to:

- `ContentIs.AcceptedIff` and `Documents.ContentMeans`: the content loop accepts exactly the
  texts of the grammar (XML 1.0 with namespaces, given as data and its print) and reports
  exactly what their pieces mean, entities included; `TagMeaning.TagStored` does the same for
  the attributes of a tag.
- `Content.ChunkedEqualsOneShot`: how the input is cut changes nothing.
- `LineEndAtts.LineEndsNormalised`: nor does how its lines end.
- `TagNames.EndsSpellStarts`, `Content.DocumentNested`: every end tag spells the start tag it
  closes, over whole documents.
- `DeclParser.Parser.ParseDecl`: a content model is accepted if and only if it is the print of
  a specification, and the block delivered reads as that specification.
- `HashTable.Table.Lookup`, `StringPool.Pool.Grow`, `InputBuffer.Input.Finish`,
  `DtdCopies.ChildReadsAlike`, `Context.RoundTrip`, `Utf.RoundTrip`: the data structures
  refine maps, strings and streams.
- `Presence.PresenceSignalled`, `Delivery.CandidatesDelivered`, `PPSessions.ExactlyOnce`,
  `HandshakeOnWire.Refines`: the signalling protocol over whole runs.

| files | what they model |
|---|---|
| `Scanner`, `Tokenizer` | contentTok, cdataSectionTok and the scan functions; all of them are one automaton, which is the specification |
| `Content`, `ContentLoop`, `Lines` | doContent, doCdataSection, processInternalEntity, normalizeLines; chunks, nesting, entities |
| `Tokens`, `TagNames`, `CharRefs` | what tokens look like byte for byte: kinds, comments, instructions, names in tags, character references |
| `Grammar`, `Accepted`, `Exact` | the grammar of content as data and print; all of it is accepted, and nothing else |
| `CharData`, `Documents`, `ContentIs`, `TagMeaning` | what a text of the grammar means, and that the content loop and storeAtts make of it just that |
| `LineEnds`, `LineEndAtts` | a text and the same text with its line ends normalised |
| `References`, `AttributeValue`, `StartTag` | character references and the entity table; attribute value normalisation; getAtts and the fast path |
| `Attributes`, `AttributeLists` | storeAtts as a whole, put together from the parts, and content runs with it in them; which attributes a tag ends up with |
| `ContentModel`, `Scaffold`, `DeclParser` | element declarations: role machine, scaffold, build_model |
| `Probing`, `HashTable`, `NsAtts` | double hashing, lookup, the version-stamped attribute table |
| `Namespaces`, `Context`, `DtdCopies` | addBinding and unwinding; getContext and setContext; dtdCopy, and what a parser for an external entity makes of tags |
| `StringPool`, `InputBuffer`, `Utf` | STRING_POOL; XML_GetBuffer and XML_ParseBuffer; UTF-8 and UTF-16 |
| `Wire`, `PeerClient`, `DialogServer`, `Presence` | framing, the client's socket, the relay and its table of peers, and what a client is signalled of it |
| `Candidates`, `Delivery` | the stride-10 encoding of candidates, and its way through both hops |
| `PPSessions`, `Handshake` | the session state machine; two probers, the server and four channels |
| `HandshakeOnWire` | the same two probers with the server's own code between them, character by character and among any other clients |
| `Orders` | the order in which JavaScript's `for in`, the proxy map and the hash tables visit their keys, which is left open |

## Findings

Four places where the code does something else than its comments or the standards lead one to
expect. Each is a proved member.

- `NsAtts.DifferentNamesRejected`: an element with `p:aodpoeqd` and then `p:a`, both in the
  namespace `u`, is refused for a duplicate attribute. The comparison stops at the end of the
  new name, and these two names have the same 32-bit hash. `NsAtts.RejectedIff` says exactly
  when a list of attributes is refused; equal names always are.
- `DialogServer.NameLeftBehind`: a client that logs in again under another name leaves its
  first name in the table when it closes; `DialogServer.NameLeftExample` is such a run. The
  name stays until a connection with that name and the same sid closes, and by
  `DialogServer.NameLeavesIff` nothing else takes it off. `DialogServer.InvNext` says exactly
  which events keep the table and the clients' lists right.
- The comment on the size of the attribute table asks for at least twice the number of
  prefixed attributes; the code makes it more than twice (`NsAtts.NsTable.Prepare`).
- `TagNames.MaskedHides`: the macros that look up name characters beyond ASCII use the lower
  six bits of all bytes but the first, so a byte that is no trail byte can pass for one: in the
  bytes 3C C3 3E 3E the first `>` counts as part of the name. `TagNames.BytewiseIff` has the
  condition: reading a name up to its first delimiter byte is right for all texts if and only
  if no character that the name tests let through has a delimiter among its bytes.
  Well-formed UTF-8 has none (`LineEndAtts.WellFormedSteady`), and read character by
  character the law holds for every text (`TagNames.StartTagName`).

## Assumptions

Allocation succeeds and sizes stay below the limits of `int`. No handler suspends or stops
the parser. `unsigned long` has 32 bits. Tests for multi-byte name characters are abstract.
The texts of entities are well-formed UTF-8 where `Attributes` uses them. Each of the two
probers connects to the server once in `Handshake` and `HandshakeOnWire`; live connections
differ in `sid`; transports report candidates only after their session has created proxies;
words put on the wire hold no `:` and no `>`.

## Model

| member | source | states |
|---|---|---|
| `ContentModel.OnlyPrinted` | win/libexpat/xmlrole.c:1002-1212 | whatever the role machine and the connector check accept is, blanks aside, the print of a well-formed content specification, and of the one returned |
| `ContentModel.RoundTrip` | win/libexpat/xmlrole.c:1002-1212 | the print of any well-formed specification, of any depth and with blanks anywhere, is accepted as that specification |
| `Scaffold.LinkPush` | win/libexpat/xmlparse.c:6157-6203 | a new group node, linked as the source links it, keeps the scaffold a picture of the open groups |
| `Scaffold.LinkLeaf` | win/libexpat/xmlparse.c:4490-4526 | the same for an element name added to the innermost group |
| `Scaffold.LinkRetype` | win/libexpat/xmlparse.c:4343-4363 | the same when a connector decides that a group is a choice |
| `Scaffold.LinkClose` | win/libexpat/xmlparse.c:4527-4556 | a closed group occupies exactly as many nodes as its tree has, and becomes the last child of the group around it |
| `Scaffold.LaidReads` | win/libexpat/xmlparse.c:6205-6262 | a block laid out from a tree reads back as that tree |
| `Scaffold.ReadsUnique` | win/libexpat/xmlparse.c:6205-6262 | a block of XML_Content denotes at most one tree |
| `DeclParser.Parser.TokenRole` | win/libexpat/xmlrole.c:1002-1212 | each handler's next state, level and role are a step of the automaton; the level does not underflow |
| `DeclParser.Parser.GrowGroups` | win/libexpat/xmlparse.c:4310-4331 | groupConnector and scaffIndex grow together and keep their contents, so that every index into them is in range |
| `DeclParser.Parser.NextScaffoldPart` | win/libexpat/xmlparse.c:6157-6203 | the next node is cleared and linked as last child of the open group; older nodes only gain links |
| `DeclParser.Parser.GroupOpen` | win/libexpat/xmlparse.c:4310-4342 | a group is pushed on the open ones |
| `DeclParser.Parser.GroupSequence` | win/libexpat/xmlparse.c:4343-4349 | a comma after a bar is an error; otherwise the innermost group is a sequence |
| `DeclParser.Parser.GroupChoice` | win/libexpat/xmlparse.c:4350-4363 | a bar after a comma is an error; otherwise the innermost group is a choice, unless it is mixed |
| `DeclParser.Parser.ContentElement` | win/libexpat/xmlparse.c:4490-4526 | the name becomes the last child, and the string length grows by its length and terminator |
| `DeclParser.Parser.GroupClose` | win/libexpat/xmlparse.c:4527-4556 | the innermost group gets its quantifier and is closed; with the outermost one the model is complete |
| `DeclParser.Parser.BuildNode` | win/libexpat/xmlparse.c:6205-6241 | the subtree at a node is laid out in the block, its children side by side, its strings after one another, nothing else touched |
| `DeclParser.Parser.BuildModel` | win/libexpat/xmlparse.c:6243-6262 | the block is filled exactly: as many cells as nodes, as many characters as were counted |
| `DeclParser.Parser.ParseDecl` | win/libexpat/xmlparse.c:4310-4556 | a declaration succeeds if and only if its tokens are the print of a well-formed specification, and then the block delivered reads as that specification |
| `Scanner.ScanStable` | win/libexpat/xmltok_impl.c:92-780 | a scan that is decided on part of the input gives the same result on more input |
| `Scanner.DataTailResumes` | win/libexpat/xmltok_impl.c:837-879 | a run of character data cut short goes on where it stopped |
| `Scanner.ContentTokStable` | win/libexpat/xmltok_impl.c:784-879 | a decided content token stays the same when more input arrives, except that character data may go on |
| `Scanner.CdataTokStable` | win/libexpat/xmltok_impl.c:304-378 | the same in CDATA sections |
| `Scanner.ScanLocal` | win/libexpat/xmltok_impl.c:92-780 | a scan looks at no byte from its end on |
| `Scanner.ScanShift` | win/libexpat/xmltok_impl.c:92-780 | nor does it matter where in the buffer the text stands |
| `Tokenizer.ScanComment` | win/libexpat/xmltok_impl.c:92-127 | the loop is the automaton from its comment state |
| `Tokenizer.ScanPi` | win/libexpat/xmltok_impl.c:222-281 | the same for processing instructions, with the spellings of `xml` told apart |
| `Tokenizer.ScanCdataSection` | win/libexpat/xmltok_impl.c:284-301 | the same for the opening of a CDATA section, which wants six characters before it compares any |
| `Tokenizer.ScanEndTag` | win/libexpat/xmltok_impl.c:382-428 | the same for end tags |
| `Tokenizer.ScanHexCharRef` | win/libexpat/xmltok_impl.c:431-460 | the same for hexadecimal character references |
| `Tokenizer.ScanCharRef` | win/libexpat/xmltok_impl.c:463-492 | the same for character references |
| `Tokenizer.ScanRef` | win/libexpat/xmltok_impl.c:495-520 | the same for references |
| `Tokenizer.ScanAtts` | win/libexpat/xmltok_impl.c:525-680 | the same for the attributes of a tag, nested loops and jumps included |
| `Tokenizer.ScanLt` | win/libexpat/xmltok_impl.c:684-780 | the same for whatever begins with a less-than sign |
| `Tokenizer.NextContentTok` | win/libexpat/xmltok_impl.c:784-879 | contentTok returns the token, or the way of being undecided, that the automaton defines |
| `Tokenizer.NextCdataTok` | win/libexpat/xmltok_impl.c:304-378 | cdataSectionTok likewise |
| `Tokens.CommentShape` | win/libexpat/xmltok_impl.c:92-127 | a comment token is `<!--`, text without two hyphens in a row and with none at its end, and `-->` |
| `TagNames.StartTagName` | win/libexpat/xmltok_impl.c:525-780 | in every start or empty-element tag the name begins as names do, consists of whole characters of names and ends at the first blank, slash, equals sign or `>`; nameLength finds that end |
| `TagNames.EndTagName` | win/libexpat/xmltok_impl.c:382-428 | the same for end tags, whose names end at a blank or `>` |
| `TagNames.AttNames` | win/libexpat/xmltok_impl.c:525-680 | every attribute found in a tag has a name that ends at the first blank or equals sign |
| `TagNames.PiShape` | win/libexpat/xmltok_impl.c:222-281 | an instruction is `<?`, a target that is not `xml` in any case, and text up to the first `?>` |
| `TagNames.BytewiseIff` | win/libexpat/xmltok.c:52-80 | reading names byte by byte is right for all texts if and only if no character the tests let through hides a delimiter byte |
| `TagNames.MaskedHides` | win/libexpat/xmltok.c:52-80 | tests that look at the lower six bits of trailing bytes, as the source's do, let such a character through |
| `LineEnds.NewlineIs` | win/libexpat/xmltok_impl.c:804-811 | contentTok and cdataSectionTok return a newline token from one place to another if and only if a carriage return with its line feed, a line feed, or a carriage return without one stands there |
| `LineEnds.BlankIs` | win/libexpat/xmltok_impl.c:1202-1258 | attributeValueTok takes the same line ends, and tab and space, as one blank |
| `CharRefs.NumberIs` | win/libexpat/xmltok_impl.c:1524-1548 | a reference written with any digits in either case and any leading zeros has the number that they write in base ten or sixteen, if that is an XML character, and is refused otherwise |
| `CharRefs.PrintNumber` | win/libexpat/xmltok_impl.c:1524-1548 | every number has digits that write it |
| `CharRefs.InContent` | win/libexpat/xmlparse.c:2466-2495 | in content such a reference is a token and its character is reported, or BAD_CHAR_REF |
| `CharRefs.InContentOnly` | win/libexpat/xmltok_impl.c:431-492 | every token of a character reference has this form |
| `CharRefs.InValue` | win/libexpat/xmlparse.c:4849-4882 | in an attribute value its character is put in the value, or BAD_CHAR_REF |
| `CharRefs.InValueOnly` | win/libexpat/xmltok_impl.c:431-492 | every character reference in a value has this form |
| `Accepted.TagFound` | win/libexpat/xmltok_impl.c:525-780 | every tag of the grammar is one token of its kind, whatever follows it, and its attributes are found exactly where they are written |
| `Accepted.EndFound` | win/libexpat/xmltok_impl.c:382-428 | every end tag of the grammar is a token |
| `Accepted.RefFound` | win/libexpat/xmltok_impl.c:431-520 | every reference of the grammar is a token |
| `Accepted.InstructionFound` | win/libexpat/xmltok_impl.c:222-281 | every processing instruction of the grammar is a token |
| `Accepted.RemarkFound` | win/libexpat/xmltok_impl.c:92-127 | every comment of the grammar is a token |
| `Exact.TagFrom` | win/libexpat/xmltok_impl.c:525-780 | the converse: an accepted tag is the print of a tag of the grammar, with names, blanks, quotes, references and values as that asks |
| `Exact.MarkupFrom` | win/libexpat/xmltok_impl.c:784-879 | every token of markup that contentTok accepts is the print of a piece of the grammar, the opening of a CDATA section, or an XML declaration |
| `Content.Cut` | win/libexpat/xmlparse.c:2147-2602 | stopping a call at any byte and calling again with more reports what one call would have reported |
| `Content.ChunkedEqualsOneShot` | win/libexpat/xmlparse.c:1549-1598 | for every input and every way of cutting it: accepted or refused alike, with the same error, the same end state and the same events once adjacent character data is merged |
| `Content.RunLocal` | win/libexpat/xmlparse.c:2147-2602 | a call, entities included, depends on no byte of the buffer from its end on |
| `Content.RunNested` | win/libexpat/xmlparse.c:2298-2465 | on every accepted call, entities included, start and end events nest, with equal raw names, on top of the stack the call began with |
| `Content.EntityBalance` | win/libexpat/xmlparse.c:4682-4737 | replacement text of an internal entity leaves the whole tag stack as it found it |
| `Content.DocumentNested` | win/libexpat/xmlparse.c:2016-2028 | a document accepted in pieces has matching starts and ends throughout and ends with no open tag, in the epilog |
| `TagNames.EndsSpellStarts` | win/libexpat/xmlparse.c:2411-2465 | in every accepted run, entities included, each end tag spells, byte for byte, the name in the start tag that it closes |
| `Lines.NormalizeLines` | win/libexpat/xmlparse.c:5142-5162 | the loop leaves in place the string with each line end made a line feed |
| `LineEnds.LineEndsDoNotMatter` | win/libexpat/xmlparse.c:2147-2602 | a text and its normalised form are accepted alike, with the same events and the same stack; storeAtts is assumed blind to line ends here |
| `LineEndAtts.ParserBlind` | win/libexpat/xmlparse.c:2614-2940 | storeAtts is blind to line ends: section 2.11 and section 3.3.3 of XML 1.0 together |
| `LineEndAtts.LineEndsNormalised` | win/libexpat/xmlparse.c:2147-2940 | so for every well-formed UTF-8 text, any entities and any declarations: accepted alike, with the same events |
| `CharData.CharsRun` | win/libexpat/xmlparse.c:2522-2590 | character data is reported as the text that stands there, line ends normalised, however the tokenizer cuts it, brackets and a last carriage return included |
| `CharData.SectionRun` | win/libexpat/xmlparse.c:3088-3197 | the same for a CDATA section, up to its end and no further |
| `Documents.ContentMeans` | win/libexpat/xmlparse.c:2147-2602 | of every text of the grammar the content loop makes what its pieces mean: the same events, stack and end, or the same error; internal entities mean their content in place |
| `ContentIs.ContentIsGrammar` | win/libexpat/xmlparse.c:2147-2602 | the converse: every text that the content loop accepts is of the grammar, up to where it stops, and means what was reported |
| `ContentIs.AcceptedIff` | win/libexpat/xmlparse.c:2147-2602 | a text is accepted to its end if and only if it is of the grammar and its pieces have a meaning |
| `ContentLoop.XmlParser.HandleOpenTag` | win/libexpat/xmlparse.c:2298-2410 | start and empty-element tags: stack with the bindings of each tag, level, processor and handler calls, and what storeAtts refuses under the entities open now |
| `ContentLoop.XmlParser.HandleCloseTag` | win/libexpat/xmlparse.c:2411-2465 | end tags: refused at the start level or under another name, otherwise the tag is popped |
| `ContentLoop.XmlParser.ReportProcessingInstruction` | win/libexpat/xmlparse.c:5165-5191 | the target, and the text after the blanks with its line ends normalised |
| `ContentLoop.XmlParser.ReportComment` | win/libexpat/xmlparse.c:5194-5213 | the text between the delimiters with its line ends normalised |
| `ContentLoop.XmlParser.DoCdataSection` | win/libexpat/xmlparse.c:3088-3197 | the CDATA loop does what the specification of runs says |
| `ContentLoop.XmlParser.HandleReference` | win/libexpat/xmlparse.c:2209-2297 | all outcomes of an entity reference: predefined, undeclared, declared elsewhere, recursive, binary, skipped, internal, and external with a handler that succeeds or fails |
| `ContentLoop.XmlParser.ProcessInternalEntity` | win/libexpat/xmlparse.c:4682-4737 | the replacement text is parsed with the flag set, and the flags are as before when it succeeds |
| `ContentLoop.XmlParser.DoContent` | win/libexpat/xmlparse.c:2147-2602 | the loop, with its stack, level, processor and open flags, is the specified run for every input, encoding and start level; tagLevel is always the depth of the stack |
| `AttributeValue.StreamingIsTwoPhase` | win/libexpat/xmlparse.c:4809-4824 | dropping a space after a space and chopping the last one is stripping and collapsing, defined by words |
| `AttributeValue.WalksClean` | win/libexpat/xmltok_impl.c:1202-1258 | in well-formed UTF-8 no run of plain characters that attributeValueTok returns hides a space |
| `AttributeValue.EntitiesClean` | win/libexpat/xmlparse.c:4883-4962 | so entities whose texts are well-formed UTF-8 meet the condition of StoreAttributeValue |
| `AttributeValue.ValueBuilder.NextTok` | win/libexpat/xmltok_impl.c:1202-1258 | attributeValueTok returns the token that the specification defines |
| `AttributeValue.ValueBuilder.AppendReference` | win/libexpat/xmlparse.c:4883-4962 | a reference is replaced, or refused with the right error, and the open flag is put back also on error |
| `AttributeValue.ValueBuilder.AppendAttributeValue` | win/libexpat/xmlparse.c:4825-4973 | for every entity table, cyclic or not, it terminates, appends the replacement of the value, and leaves every open flag as it was |
| `AttributeValue.ValueBuilder.StoreAttributeValue` | win/libexpat/xmlparse.c:4809-4824 | fails exactly when replacement fails, with that error; on success the value is that of section 3.3.3 of XML 1.0 for CDATA and for tokenised types |
| `StartTag.ValueScan` | win/libexpat/xmltok_impl.c:571-625 | a value that scanAtts accepts ends at its quote, and attributeValueTok finds no fault in it |
| `StartTag.GetAtts` | win/libexpat/xmltok_impl.c:1430-1521 | on every accepted tag the loop, which has no end to stop at, stays inside the tag, finds exactly the attributes the tokenizer saw, fills no slot past the count or the maximum, and sets normalized exactly when no character needs normalising |
| `StartTag.FastPath` | win/libexpat/xmlparse.c:2680-2711 | a value called normalized is its own replacement and its own tokenised form, so copying it is what storeAttributeValue would do; every accepted value meets the condition of StoreAttributeValue |
| `Attributes.Store.StoreAtts` | win/libexpat/xmlparse.c:2614-2940 | for every accepted tag, with any entities, defaults, open flags and declarations around it: the error, or the reported names and values and the new declarations, are those defined from the tokenizer's spans, section 3.3.3 of XML 1.0, the namespace rules and the verdict on expanded names |
| `Attributes.TagsStored` | win/libexpat/xmlparse.c:2298-2410 | in a content run storeAtts is only asked about texts that are, alone, accepted tags, and its refusals carry an error |
| `Attributes.ExpandedDiffer` | win/libexpat/xmlparse.c:2772-2879 | the prefixed attributes of a tag that is not refused are all bound and have different expanded names |
| `AttributeLists.WhichAttributes` | win/libexpat/xmlparse.c:2614-2770 | of every tag that is not refused: names differ; those in the tag come first, in order, each with its own value; a declared default is there if and only if it has a value, declares no namespace and the tag does not name it, and then with its first declared value; the namespaces declared are those of the attributes and defaults named for it |
| `AttributeLists.StoredIff` | win/libexpat/xmlparse.c:2614-2940 | a tag is accepted if and only if its names differ, each attribute has a value that it may have, no default declares what is reserved, the prefixed attributes pass and the element's prefix is bound |
| `AttributeLists.ReportedIs` | win/libexpat/xmlparse.c:2800-2870 | a prefixed name is reported as its namespace name, the separator and the local part, with the prefix after another separator if triplets are wanted |
| `AttributeLists.PlainReported` | win/libexpat/xmlparse.c:2876-2877 | any other name is reported as it is |
| `TagMeaning.ReplaceMeans` | win/libexpat/xmlparse.c:4825-4973 | the value of any items, characters and references of every kind: each line end or other blank a space, each reference what it stands for, or the error of the first one that stands for nothing |
| `TagMeaning.EveryTag` | win/libexpat/xmltok_impl.c:525-780 | every text that comes to storeAtts is a tag of the grammar |
| `TagMeaning.TagStored` | win/libexpat/xmlparse.c:2614-2940 | of every such tag that is not refused: the attributes written in it, in order, each with the value of its items for its declared type, then the defaults it does not name, and the namespaces declared |
| `Probing.ComputeHash` | win/libexpat/xmlparse.c:5845-5852 | the loop computes the hash that the tables use |
| `Probing.StepOdd` | win/libexpat/xmlparse.c:115-126 | the step is odd and no larger than the table, cut to eight bits or not |
| `Probing.Coverage` | win/libexpat/xmlparse.c:115-126 | stepping by an odd number visits every slot of a table whose size is a power of two |
| `Probing.Reaches` | win/libexpat/xmlparse.c:115-126 | so the probe sequence of any hash reaches any slot |
| `HashTable.FoundOnTheWay` | win/libexpat/xmlparse.c:5874-5886 | a name in the table is met before an empty slot |
| `HashTable.PutHolds` | win/libexpat/xmlparse.c:5924-5930 | an entry put into the first empty slot on its way keeps every entry findable |
| `HashTable.Table.Find` | win/libexpat/xmlparse.c:5874-5886 | the probe loop terminates, at the entry or at the first empty slot |
| `HashTable.Table.Grow` | win/libexpat/xmlparse.c:5889-5914 | growing moves the very same entries to a table that holds the same map |
| `HashTable.Table.Lookup` | win/libexpat/xmlparse.c:5854-5931 | the table refines a finite map: finds exactly what was created, creates only what was not there, keeps all other entries, and stays at most half full |
| `NsAtts.NsTable.Prepare` | win/libexpat/xmlparse.c:2777-2799 | when a tag begins no slot carries its version, also after growth and wrap-around, and the table has more than twice as many slots as there are prefixed attributes |
| `NsAtts.NsTable.Seek` | win/libexpat/xmlparse.c:2830-2850 | the probe loop terminates and reports a duplicate exactly when an earlier attribute clashes |
| `NsAtts.NsTable.ExpandNames` | win/libexpat/xmlparse.c:2772-2879 | over any run of tags the verdict on each is the one defined without a table |
| `NsAtts.EqualNamesRejected` | win/libexpat/xmlparse.c:2830-2850 | two attributes with the same expanded name never pass |
| `NsAtts.RejectedIff` | win/libexpat/xmlparse.c:2830-2850 | bound attributes are called duplicate if and only if a later name has the hash of an earlier one and is a prefix of what is stored for it |
| `NsAtts.DifferentNamesRejected` | win/libexpat/xmlparse.c:2838-2845 | two different names that are called duplicate |
| `Namespaces.MeaningIsInnermost` | win/libexpat/xmlparse.c:3030-3050 | the newest declaration of a prefix in force is the one on the innermost open element that declares it |
| `Namespaces.ScopesMeaning` | win/libexpat/xmlparse.c:2945-3057 | in every state: xml has its own name or none, xmlns none, and no other prefix has a reserved name |
| `Namespaces.Scopes.AddBinding` | win/libexpat/xmlparse.c:2945-3057 | refuses exactly what section 3 of Namespaces in XML 1.0 reserves, with the right error; otherwise the declaration is in force, shadowing what the prefix had; every BINDING is on exactly one list |
| `Namespaces.Scopes.Unwind` | win/libexpat/xmlparse.c:2453-2461 | the bindings of the innermost tag go back to the free list and every prefix gets back what it had |
| `Namespaces.Scopes.StartTag` | win/libexpat/xmlparse.c:2703-2720 | the open elements gain one with these declarations, or the error is that of the first one refused |
| `Namespaces.Scopes.EndTag` | win/libexpat/xmlparse.c:2411-2465 | the open elements lose the innermost one with its declarations |
| `Namespaces.Scopes.EmptyElement` | win/libexpat/xmlparse.c:2398-2406 | an empty element leaves all declarations as they were |
| `Namespaces.Scopes.Lookup` | win/libexpat/xmlparse.c:2885-2905 | a prefix leads to the URI of its innermost declaration, with the separator, and an empty default to none |
| `Context.ParsePrint` | win/libexpat/xmlparse.c:5449-5508 | reading a list of items undoes writing it |
| `Context.GetContext` | win/libexpat/xmlparse.c:5380-5446 | writes the bindings in force and the open entities, in the order in which the tables yield them |
| `Context.SetContext` | win/libexpat/xmlparse.c:5449-5508 | applies the items of the string in turn, until one is refused |
| `Context.RoundTrip` | win/libexpat/xmlparse.c:5380-5508 | into a parser with no bindings the string restores the meaning of every prefix and exactly the open entities, whatever the order |
| `DtdCopies.Dtd.Copy` | win/libexpat/xmlparse.c:5638-5766 | a deep copy, whatever the order of the tables: no entry is shared, contents are equal, every pointer leads to the entry that stands where the old one's target stood and none is lost, no prefix is bound and no entity open |
| `DtdCopies.CopyEntityTable` | win/libexpat/xmlparse.c:5768-5832 | all entities with their texts or identifiers, the base kept from the last one included, and none open |
| `DtdCopies.SameView` | win/libexpat/xmlparse.c:5638-5832 | to storeAtts the copy is the same DTD |
| `DtdCopies.ChildReadsAlike` | win/libexpat/xmlparse.c:1044-1049 | a parser made for an external entity, from the copied DTD and the context string, makes of every tag what its parent would make of it at the reference |
| `StringPool.Pool.Grow` | win/libexpat/xmlparse.c:6094-6155 | the unfinished string survives, room strictly increases, finished strings stay put and unaltered, and no block is lost or on two lists |
| `StringPool.Pool.AppendChar` | win/libexpat/xmlparse.c:446-449 | one more character at the end of the unfinished string; finished ones unaltered |
| `StringPool.Pool.AppendText` | win/libexpat/xmlparse.c:6029-6080 | the same for a text |
| `StringPool.Pool.Finish` | win/libexpat/xmlparse.c:440-445 | the string is handed out where it stands and will be intact from then on |
| `StringPool.Pool.Discard` | win/libexpat/xmlparse.c:444-445 | drops the unfinished string only |
| `StringPool.Pool.Clear` | win/libexpat/xmlparse.c:5992-6010 | every block, and no other, is free |
| `InputBuffer.Input.GetBuffer` | win/libexpat/xmlparse.c:1600-1677 | room for the bytes asked for; all pending bytes and at least 1024 bytes of context, or all there are, are kept |
| `InputBuffer.Input.Begin` | win/libexpat/xmlparse.c:1549-1575 | the new bytes join the stream and the pending ones |
| `InputBuffer.Input.ByteIndex` | win/libexpat/xmlparse.c:1760-1766 | during a callback the index is the event's offset in the whole stream |
| `InputBuffer.Input.Finish` | win/libexpat/xmlparse.c:1575-1598 | consumed and pending together are everything fed |
| `InputBuffer.Input.Parse` | win/libexpat/xmlparse.c:1536-1546 | the same for a call of XML_Parse |
| `Utf.CharSound` | win/libexpat/xmltok.c:91-122 | a character that the byte types and UTF8_INVALIDn let through is the UTF-8 form of an XML character |
| `Utf.CharComplete` | win/libexpat/xmltok.c:91-122 | every XML character is let through, whole |
| `Utf.WalkIff` | win/libexpat/xmltok.c:91-122 | a text of any length is let through if and only if it encodes XML characters |
| `Utf.CharConverts` | win/libexpat/xmltok.c:1190-1245 | the bits that the converters move about are those of XmlUtf8Encode and XmlUtf16Encode |
| `Utf.ConvertTo8` | win/libexpat/xmltok.c:538-589 | the loop converts whole characters as long as they fit |
| `Utf.ConvertTo16` | win/libexpat/xmltok.c:340-380 | the same in the other direction, with a plain char signed or not |
| `Utf.Resume8` | win/libexpat/xmltok.c:538-589 | stopping at any output limit and going on with more room gives the same output |
| `Utf.Resume16` | win/libexpat/xmltok.c:340-380 | the same in the other direction |
| `Utf.RoundTrip` | win/libexpat/xmltok.c:340-380 | UTF-16 to UTF-8 and back is the identity on well-formed text |
| `Wire.SplitSentence` | dialog_server/index.js:25-27 | splitting at colons undoes joining, for words without delimiters |
| `Wire.ReadConcat` | peer.cpp:118-124 | how a stream is cut does not matter to a reader |
| `Wire.ReadFrames` | peer.cpp:106-140 | any list of frames is read as its words |
| `DialogServer.Server.OnAccept` | dialog_server/index.js:75-81 | a new connection, with no name and nothing written to it |
| `DialogServer.Server.ProcessDialog` | dialog_server/index.js:22-73 | login, send and everything else, as text is pasted and split, undefined words included |
| `DialogServer.Server.OnClose` | dialog_server/index.js:86-104 | the table loses the name if the connection has the sid of its owner, and the others are told |
| `DialogServer.Server.OnData` | dialog_server/index.js:106-116 | a segment of any size is its characters one by one |
| `DialogServer.InvLogin` | dialog_server/index.js:28-52 | a login keeps table and lists right if and only if the connection is not on the table under another name |
| `DialogServer.InvClose` | dialog_server/index.js:86-104 | only the owner's close takes a name off the table; a rejected connection's never does |
| `DialogServer.InvNext` | dialog_server/index.js:28-116 | an event keeps the invariant if and only if it is orderly |
| `DialogServer.PresenceReplicated` | dialog_server/index.js:28-116 | in every orderly run, whatever the interleaving and the cuts, what was written to a registered client tells it exactly which other names are registered |
| `Presence.SignalsTell` | dialog_server/index.js:28-116 | the signals that the written frames stand for add up to exactly the other registered names |
| `DialogServer.NameLeftBehind` | dialog_server/index.js:28-52 | after a second login under another name the first name outlives its connection |
| `DialogServer.NameLeavesIff` | dialog_server/index.js:86-104 | in any state a name leaves the table if and only if a connection with that name and its holder's sid closes; otherwise its holder stays the same |
| `DialogServer.NameStays` | dialog_server/index.js:28-116 | so in every run, orderly or not, a name stays until such a close |
| `DialogServer.NameLeftExample` | dialog_server/index.js:28-104 | one connection logs in as x, then as y, and closes: x is left in the table and no connection is live |
| `PeerClient.Peer.SendMessage` | peer.cpp:35-53 | one frame is sent, or nothing when offline |
| `PeerClient.Peer.ProcessXML` | peer.cpp:128-158 | the buffer is cut into words and raises the signal of its verb |
| `PeerClient.Peer.OnReadEvent` | peer.cpp:106-126 | a segment of any size raises the signals of the frames that it completes |
| `Presence.PresenceSignalled` | peer.cpp:106-158 | in every orderly run, what was written to a registered client, given to its OnReadEvent in any segmentation, raises signals that add up to exactly the other registered names: RemoteOnline and RemoteLogin add one, RemoteOffline takes one away |
| `Candidates.BodyUnderstood` | prober.cpp:118-141 | what onOutgoingMessage sends, onRemoteMessage understands |
| `Candidates.AtoiDecimal` | ppsession.cpp:324-324 | a port survives the text form |
| `Candidates.TransportMessage` | ppsession.cpp:343-363 | ten words for each candidate after the content name |
| `Candidates.ParseCandidates` | ppsession.cpp:317-335 | as many candidates as full tens of words, each from its own ten |
| `Candidates.StrideRoundTrip` | ppsession.cpp:317-363 | indexing with a stride of ten undoes the flattening |
| `Delivery.ServerRelays` | dialog_server/index.js:54-70 | a list of messages is written to the addressee, in order, and nothing else changes |
| `Delivery.MessagesDelivered` | dialog_server/index.js:54-116 | for any segmentation on both hops the addressee is signalled exactly these messages |
| `Delivery.CandidatesDelivered` | ppsession.cpp:317-363 | every list of batches of candidates arrives as it was sent, same order and length |
| `PPSessions.PPSession.Initiate` | ppsession.cpp:71-97 | only from the initial state; then the message is out and candidates wait |
| `PPSessions.PPSession.Accept` | ppsession.cpp:99-118 | only after an initiate; accept goes out first, then every queue, which is then empty |
| `PPSessions.PPSession.Reject` | ppsession.cpp:120-134 | only after an initiate or a modify was received |
| `PPSessions.PPSession.TerminateWithReason` | ppsession.cpp:136-160 | once, and silently after a reject |
| `PPSessions.PPSession.SendAllUnsentTransportInfoMessages` | ppsession.cpp:365-378 | one message for each queue that is not empty, and all queues are empty |
| `PPSessions.PPSession.OnTransportCandidatesReady` | ppsession.cpp:230-243 | queued while candidates are pending, sent otherwise |
| `PPSessions.PPSession.OnRemoteCandidates` | ppsession.cpp:177-202 | handed to the transport of their content, if there is one |
| `PPSessions.PPSession.OnInitiateMessage` | ppsession.cpp:250-273 | only in the initial state |
| `PPSessions.PPSession.OnAcceptMessage` | ppsession.cpp:275-295 | only after an initiate was sent; the queues go out before the state changes |
| `PPSessions.PPSession.OnIncomingMessage` | ppsession.cpp:37-69 | every message in every state |
| `PPSessions.ExactlyOnce` | ppsession.cpp:230-378 | over every sequence of calls: what was sent, followed by what is queued, is what was reported, for each content; nothing is sent between initiate and accept; after accept no queue holds anything |
| `PPSessions.WireRoundTrip` | ppsession.cpp:317-363 | a message of a session, put into the words of a PPMessage and taken out again, is itself |
| `Handshake.IceProber.Forward` | prober.cpp:118-141 | the messages of the session that have a word on the wire go to the remote name, in order; the others are dropped |
| `Handshake.IceProber.OnRemoteLogin` | prober.cpp:192-197 | the first login of the remote name posts the initiate |
| `Handshake.IceProber.OnRemoteMessage` | prober.cpp:211-230 | the session gets the message, and an initiate for our content posts the accept |
| `Handshake.IceProber.OnMessage` | prober.cpp:97-112 | the posted initiate or accept is done |
| `Handshake.InvNext` | prober.cpp:97-312 | every step of either prober, the server or the network keeps the exchange at one of its stages |
| `Handshake.HandshakeSafe` | ppsession.cpp:71-295 | in every run: at most one endpoint ever initiates; no message reaches a session in a state that does not expect it, and none is refused; an accept received was sent for the same content; what one got is a prefix of what the other said |
| `HandshakeOnWire.Refines` | dialog_server/index.js:22-116 | every run of the two probers and the server, one character at a time on every connection and interleaved in any way with other clients that come, talk and go, is a run of the exchange in Handshake: frames half sent, half read and half relayed included |
| `HandshakeOnWire.SafeOnWire` | prober.cpp:97-312 | so on the wire too: never two initiators; a message frame that a prober completes finds its session in a state that expects it; an accept received means that the other session has sent one for the same content |

## Left out

- AttributeValue.ValueBuilder.StoreAttributeValue: for tokenised types the value is stated for texts in which no malformed multi-byte character hides a space byte. StartTag.FastPath shows this of every value in an accepted tag and AttributeValue.EntitiesClean of entities in well-formed UTF-8; that the prolog scanner lets no other entity literal through is not part of this model.
- AttributeValue.ValueBuilder.AppendAttributeValue: the same condition.
- AttributeValue.ValueBuilder.NextTok: a lead byte whose character is cut off by the end of the text counts as a character that ends there, where the source would step past the end; no text that a scanner accepted has one.
- Delivery.CandidatesDelivered: preference and generation travel as the text that libjingle prints for them; that parsing this text gives back the float and the number is not modelled.
- Delivery.MessagesDelivered: between the characters of one connection no others are interleaved; DialogServer.PresenceReplicated and HandshakeOnWire.Refines have all interleavings.
- PeerClient.Peer.ProcessXML: frames of one word only, such as `<online>`, are not modelled, since the source reads the missing word out of range; the server sends none.
- PeerClient.Peer.OnReadEvent: the same.
- PPSessions.PPSession.OnRemoteCandidates: VerifyCandidate and HasChannel of libjingle are taken to succeed.
- Handshake.HandshakeSafe: the channels carry whole messages; HandshakeOnWire.Refines has the characters. Messages from third clients to the two probers are excluded in both, since onRemoteMessage ignores the sender.
- DtdCopies.Dtd.Copy: the string pools and the scaffold, which the source shares with the old DTD, are not modelled, and tables are the maps that HashTable.Table was proved to be.
- Utf.WalkIff: encodings other than UTF-8 and UTF-16, and their detection, are not modelled.
- LineEnds.LineEndsDoNotMatter: a text that is refused and its normalised form can be refused with different errors; which of them is reported is not stated.
- Documents.ContentMeans: entities whose text is not of the grammar are run as they stand.
- TagMeaning.ReplaceMeans: the same.
- Presence.PresenceSignalled: that IceProber.onRemoteOffline (prober.cpp:203-209) exits on the offline signal of any name, not only the remote one, is outside the client's own list.
- Suspending, resuming and stopping the parser from a handler; allocation failure; overflow of sizes.
- The prolog outside element declarations, the epilog beyond the hand-over to it, conditional sections, parameter entities and external subsets, including a DTD shared between parsers.
- The order of events before an error: a refused text gives the same error however it is cut, but the character data reported before it may differ.
- An entity reference where no element is open is refused as for lack of elements; the document processor cannot meet one there.
- The default handler, positions by line and column, and all handler setters.
- The scratch use of a binding's URI buffer for expanded element names, and triplets in element names.
- Ids that break a JavaScript object (`hasOwnProperty`, `__proto__`) and the socket's own state after `end`.
- Terminate and reject on the wire, which onOutgoingMessage drops, and the state in progress, which libjingle sets.
- The copy of the parser under android/jni/expat, the user interfaces, monitors, certificates and tools.
