# Verified models of five vendored Go libraries

A Dafny model of the parts of this vendor tree where the behaviour is hardest to see from the
code, with the properties that their callers rely on. To verify all of it, use
`dafny verify dfyconfig.toml`.

**YAML (gopkg.in/yaml.v2).**
`YamlChars` holds bytes, UTF-8 and the character classes. `ReaderModel` and `Reader` are the
decoder from raw UTF-8 or UTF-16 bytes to the scanner's buffer, for input that arrives in pieces
of any size. `TokenQueue`, `TokenLayout` and `TokenScanner` are the tokenizer above the level of
characters: simple keys, flow levels, the indentation stack and the queue into which KEY tokens are
inserted after the fact; `TokenLayout` says what one lexeme does to all of it and where blocks are
then opened and closed. `EventGrammar` is the event grammar, as trees and as a stack automaton.
`ParserModel` gives the parser's productions as functions, `Parser` is the object that runs them,
`ParserSoundness` shows that its events are well nested, `ParserTermination` that every parse comes
to a stop, and `Derivations`, `ParserBrackets`, `ParserRuns`, `ParserCompleteness` and
`ParserStreams` on exactly which sentences of the documented token grammar it succeeds;
`ParserAcceptance` shows that it succeeds on nothing else.
`EmitterModel`, `EmitterSoundness`, `EmitterRuns` and `Emitter` do the same for the emitter with its
event queue, and `EmitterStyles` says from the events alone which style, indentation and state every
open collection has. `QuotedScanner`, `QuotedWriter`, `QuotedRoundTrip` and `SingleRoundTrip` are the
quoted scalar styles, written and scanned back, and `QuotedThroughReader` puts the reader in between.
`QuotedGrammar` says what may stand between quotes and what it means, `QuotedMeaning` that the scanner
reads exactly that; `QuotedWidth` and `QuotedEscapes` say where the writers fold lines and what they
escape.
`NodeGraph`, `NodeBuilder` and `AliasDecoding` are the node graph that decoding goes through, with
aliases that may lead back into themselves.

**Decimals (gopkg.in/inf.v0).** `NumberTheory`, `DecimalValues`, `Rounding`, `Dec` and
`DecimalText`: exact division, the eight rounding modes, and text.

**Combined errors (go.uber.org/multierr).** `Multierr`: value semantics over backing arrays that
are shared and written to in place.

**Round robin (google.golang.org/grpc).** `RoundRobin`: the balancer's critical sections as atomic
steps, with callers blocked on channels.

**Traces and tags (go.opencensus.io).** `SpanBucket`, `LatencyReport` and `SpanStore` are the
ring buffer of sampled spans, the store of such buffers and the reports over it, `SpanIds` the
identifier generator, and `TagCodec` the binary form of tag maps.

Bytes and words are integers in range; wrap-around is written out where the source relies on it.
`big.Int` is `int` with truncated division where the source truncates.

## Where the code and its own description differ

- The quoted writers, used with no indentation, can begin a line with `---` or `...`, where the
  scanner stops at a document indicator; and the single-quoted one adds a line break of its own
  before the first line that it begins. `DoubleRoundTrip` and `SingleRoundTrip` have the exact
  conditions, `UnindentedDoubleFails` and `UnindentedSingleFails` an input each. The emitter always
  indents scalars (`Emitter.IncreaseIndent`), and then the round trips hold without condition
  (`IndentedDoubleRoundTrip`, `IndentedSingleRoundTrip`).
- The parser's grammar comments make the KEY of a block mapping entry optional, and allow a pair
  with an empty key inside a flow sequence. The productions demand the KEY, and after an empty key
  they skip a token too many. `StreamParsesIffKeyed` says for every sentence of the documented
  grammar whether it is parsed or ends in an error; `KeylessRefused` and `EmptyKeyRefused` are a
  sentence of each kind that is refused. `ParsedIsSentence` shows that the skipped token is the only
  liberty: whatever else is parsed is a sentence of the grammar.
- Decoding a tag map does not give a map or an error for all bytes. The end of a field is computed
  in 64 bits, and where it passes 2^63 - 1 the slice expression has its bounds in the wrong order.
  `DecodeCrashesIff` says on exactly which bytes, `DecodeCrashes` gives two of them.
- The latency report skips the first bucket for a negative upper bound, although spans with a
  negative duration are kept there. `ReportIsAlwaysFilterIff` says for which bounds this matters.
- The balancer wakes blocked callers only when exactly one entry is connected. With an address
  listed twice, as a second `Start` without a resolver does, that is one too few
  (`WakesIffSingleEntry`, and the run in `LoseWakeUp`); the resolver's updates keep addresses distinct.
- A span identifier generator seeded with zero gives out zero first (`NeverZeroIff`).

## Model

| member | source | states |
|---|---|---|
| `YamlChars.EncodeInverse` | gopkg.in/yaml.v2/yamlprivateh.go:156-173 | Decoding the octets of a well-formed character (section 4 of RFC 3629) gives a scalar value whose encoding is those octets, and the leading octet tells their number |
| `YamlChars.DecodeInverse` | gopkg.in/yaml.v2/readerc.go:365-391 | Encoding any Unicode scalar value gives well-formed octets that decode to it |
| `ReaderModel.Utf8Accepted` | gopkg.in/yaml.v2/readerc.go:159-359 | A UTF-8 character is accepted if and only if its octets are well formed and it is in the allowed range; it is then stored as those octets |
| `ReaderModel.Utf16Accepted` | gopkg.in/yaml.v2/readerc.go:254-359 | A character is accepted from UTF-16 if and only if it is an allowed scalar value and the bytes in front are its UTF-16 form in that byte order |
| `ReaderModel.NextStable` | gopkg.in/yaml.v2/readerc.go:153-359 | What is decided about a character does not change when more bytes follow |
| `ReaderModel.Utf8Kept` | gopkg.in/yaml.v2/readerc.go:138-400 | UTF-8 input without an error is valid UTF-8 of allowed characters and is stored byte for byte |
| `ReaderModel.Utf8Read` | gopkg.in/yaml.v2/readerc.go:138-400 | Valid UTF-8 of allowed characters is read without an error |
| `ReaderModel.Utf8ReadAs` | gopkg.in/yaml.v2/readerc.go:138-400 | Any allowed code points written in UTF-8 are read as those code points |
| `ReaderModel.Utf16Read` | gopkg.in/yaml.v2/readerc.go:254-391 | Any allowed code points written in UTF-16 are read as those code points |
| `ReaderModel.Utf16Only` | gopkg.in/yaml.v2/readerc.go:254-391 | UTF-16 input without an error is the UTF-16 form of allowed code points |
| `ReaderObject.ReadUtf8` | gopkg.in/yaml.v2/readerc.go:159-252 | The loop over trailing octets decides as the specification of one character does |
| `ReaderObject.Reader.UpdateRawBuffer` | gopkg.in/yaml.v2/readerc.go:56-85 | Nothing of the input is lost or reordered, whatever a read delivers, and a read that is not at the end makes progress |
| `ReaderObject.Reader.DetermineEncoding` | gopkg.in/yaml.v2/readerc.go:25-53 | The encoding and the mark that is skipped are those of the whole input, however few bytes a read delivers |
| `ReaderObject.MarksAnnounce` | gopkg.in/yaml.v2/readerc.go:25-53 | Code points in UTF-16 behind FF FE are read low byte first and behind FE FF high byte first; behind EF BB BF, or without a mark, the input is UTF-8: each is read as the code points it was written from |
| `ReaderObject.Reader.DecodeRaw` | gopkg.in/yaml.v2/readerc.go:138-388 | The characters decoded stay the first ones of the text of the whole input; failure means that the input has an error there and all before it is decoded |
| `ReaderObject.Reader.UpdateBuffer` | gopkg.in/yaml.v2/readerc.go:91-412 | At least the requested bytes are available: the untaken characters of the text, then NULs only behind its end; the fixed-size buffer is never exceeded; it fails only on input with an error |
| `ReaderObject.Reader.TakeChar` | gopkg.in/yaml.v2/scannerc.go:491-496 | The scanner takes exactly the next character of the text |
| `ReaderObject.ReadEverything` | gopkg.in/yaml.v2/readerc.go:91-412 | Success and the bytes read are functions of the input alone, independent of how the handler splits it; before an error a prefix of the text is read |
| `TokenQueue.KeysAfterSave` | gopkg.in/yaml.v2/scannerc.go:867-891 | Recording a key under the number its first token gets keeps every possible key on its own token in the live queue, with numbers increasing by level |
| `TokenQueue.KeysAfterInsert` | gopkg.in/yaml.v2/scannerc.go:1268-1291 | Inserting in front of the deepest key moves no other key off its token |
| `TokenQueue.LastKey` | gopkg.in/yaml.v2/scannerc.go:1268-1293 | The deepest possible key has the largest number, its token is still queued and starts where the key does |
| `TokenQueue.KeysAfterTake` | gopkg.in/yaml.v2/scannerc.go:571-597 | Handing out a head where no possible key starts keeps all keys in the queue |
| `TokenQueue.BlocksRoll` | gopkg.in/yaml.v2/scannerc.go:931-955 | A deeper level with its start token anywhere in the queue keeps levels increasing from -1, their number equal to starts minus ends, and no end before its start |
| `TokenQueue.BlocksUnroll` | gopkg.in/yaml.v2/scannerc.go:960-981 | Where the level is above -1 there is a level to pop, and popping it with one block end keeps all of that |
| `TokenQueue.BlocksClosed` | gopkg.in/yaml.v2/scannerc.go:1010-1038 | At level -1 the stack is empty and starts and ends are equally many |
| `TokenScanner.Scanner.InsertToken` | gopkg.in/yaml.v2/apic.go:7-24 | Through compaction, growth and shifting, the live queue becomes the old one with the token at the given place or at the end |
| `TokenScanner.Scanner.StaleSimpleKeys` | gopkg.in/yaml.v2/scannerc.go:842-863 | Exactly the keys on an earlier line or more than 1024 characters back are dropped; it is an error if and only if one of them is required |
| `TokenScanner.Scanner.RemoveSimpleKey` | gopkg.in/yaml.v2/scannerc.go:894-907 | The key of the current level is dropped, or reported if it is possible and required |
| `TokenScanner.Scanner.SaveSimpleKey` | gopkg.in/yaml.v2/scannerc.go:867-891 | Where a key may start, it is recorded with the number of the next token; whether it is required follows level and column |
| `TokenScanner.Scanner.DecreaseFlowLevel` | gopkg.in/yaml.v2/scannerc.go:920-926 | One level and its key go, and none below zero; one key entry per level remains |
| `TokenScanner.Scanner.RollIndent` | gopkg.in/yaml.v2/scannerc.go:931-955 | In block context a deeper column pushes one level and puts the start token at the asked place; otherwise nothing changes |
| `TokenScanner.Scanner.UnrollIndent` | gopkg.in/yaml.v2/scannerc.go:960-981 | Exactly the levels deeper than the column are popped, one block end for each; the pop never underflows |
| `TokenScanner.Scanner.FetchStreamStart` | gopkg.in/yaml.v2/scannerc.go:984-1007 | The first token, one key entry, level -1, and a key may start |
| `TokenScanner.Scanner.FetchStreamEnd` | gopkg.in/yaml.v2/scannerc.go:1010-1038 | With no flow collection open, all blocks are closed in the tokens produced: as many ends as starts, empty stack; an error if and only if a required key is left over |
| `TokenScanner.Scanner.FetchDocumentMark` | gopkg.in/yaml.v2/scannerc.go:1041-1096 | A directive or document indicator comes after the ends of all open blocks |
| `TokenScanner.Scanner.FetchFlowCollectionStart` | gopkg.in/yaml.v2/scannerc.go:1099-1127 | The opening token is appended, recorded as a possible key where allowed, and a new level starts without a key |
| `TokenScanner.Scanner.FetchFlowCollectionEnd` | gopkg.in/yaml.v2/scannerc.go:1130-1159 | The closing token is appended and the level with its key is left |
| `TokenScanner.Scanner.FetchFlowEntry` | gopkg.in/yaml.v2/scannerc.go:1162-1184 | The comma is appended, the level has no possible key, and one may start |
| `TokenScanner.Scanner.FetchBlockIndicator` | gopkg.in/yaml.v2/scannerc.go:1187-1265 | A `-` or `?` appends its token, after the start of the block its column opens; in block context it is an error where no key may start |
| `TokenScanner.Scanner.FetchSimpleValue` | gopkg.in/yaml.v2/scannerc.go:1273-1294 | The KEY lands immediately before the first token of the key, which is still in the queue, with the BLOCK-MAPPING-START it opens just ahead of it; nothing handed out changes |
| `TokenScanner.Scanner.FetchValue` | gopkg.in/yaml.v2/scannerc.go:1268-1330 | The queue before the VALUE is the one with the simple key inserted, or with the block opened; it is an error exactly for a value in block context without key where none may start |
| `TokenScanner.Scanner.FetchPossibleKey` | gopkg.in/yaml.v2/scannerc.go:1333-1425 | Anchor, alias, tag or scalar: appended, and recorded as a possible key under its own number |
| `TokenScanner.Scanner.FetchBlockScalar` | gopkg.in/yaml.v2/scannerc.go:1371-1387 | The scalar is appended and is no key; one may follow |
| `TokenScanner.Scanner.Approach` | gopkg.in/yaml.v2/scannerc.go:671-692 | A new line outside flow collections allows a key again; exactly the stale keys are given up, and it is an error if and only if one of them is required; outside flow collections exactly the levels deeper than the column of the lexeme are popped, and the queue is the old one and one BLOCK-END for each, at the start of the lexeme |
| `TokenScanner.Scanner.FetchNextToken` | gopkg.in/yaml.v2/scannerc.go:665-838 | A lexeme is accepted if and only if no required key goes stale and its token fits where a key may start and what key is pending, a new line counted; then the queue is the old one, one BLOCK-END per level deeper than its column, and what the lexeme adds, and the levels, keys, flow level and whether a key may start are those that go with it |
| `TokenLayout.KeptExactly` | gopkg.in/yaml.v2/scannerc.go:960-981 | Of increasing levels exactly those not deeper than the column are kept, and there always is one |
| `TokenLayout.LexemeLaid` | gopkg.in/yaml.v2/scannerc.go:665-981 | Every accepted lexeme in reading order keeps this: the levels are the columns of the blocks open in the tokens, the flow level is theirs too, outside flow collections no token but a BLOCK-END is left of an open block and a new block is right of it, each block start stands right in front of its first entry, key or value, and every possible key is at its own token, at its flow level, on the line of the lexeme |
| `TokenLayout.KeyedLaid` | gopkg.in/yaml.v2/scannerc.go:1268-1294 | So does turning a simple key into a KEY in the middle of the queue, with the start of the mapping that it opens |
| `TokenScanner.Scanner.FetchSeen` | gopkg.in/yaml.v2/scannerc.go:694-838 | A token is produced if and only if what is seen fits: not malformed, allowed in this context, and no required key in the way; the tokens, levels, keys and flow level are then the old ones with what this kind of lexeme adds |
| `TokenScanner.Scanner.FetchMoreTokens` | gopkg.in/yaml.v2/scannerc.go:626-662 | When a token is declared available, the queue is not empty and no possible key starts at its head |
| `TokenScanner.Scanner.SkipToken` | gopkg.in/yaml.v2/parserc.go:54-59 | The head is handed out, and every possible key still has its first token in the queue |
| `TokenScanner.ScanAll` | gopkg.in/yaml.v2/scannerc.go:571-662 | Over any sequence of lexemes, what reaches the parser never ends a block that was not started, and all invariants hold at the end of a run without error; if nothing but the end of input follows the end of input and no flow collection is left open, starts and ends of blocks balance; if the lexemes come in reading order, no token but a BLOCK-END is to the left of a block open around it unless a flow collection is open, and each block start is followed by its first entry, key or value at the same place |
| `EventGrammar.AcceptedIffStream` | gopkg.in/yaml.v2/emitterc.go:212-270 | The stack automaton accepts exactly the event streams that are flattened trees: one root per document, keys and values in turn |
| `EventGrammar.ViableIffPrefix` | gopkg.in/yaml.v2/emitterc.go:212-270 | The automaton survives exactly the prefixes of such streams |
| `ParserSoundness.StepFollows` | gopkg.in/yaml.v2/parserc.go:93-169 | Every production that emits an event keeps the stacks fitting the state, and the event grammar takes the event from the nesting before to the nesting after |
| `ParserSoundness.EventsAreWellNested` | gopkg.in/yaml.v2/parserc.go:62-169 | Over any token stream and any number of steps, the events are a prefix of a well-nested stream |
| `ParserBrackets.StepConserves` | gopkg.in/yaml.v2/parserc.go:93-169 | No step creates closing brackets of flow sequences: what is unread less what is open never grows, and tokens are only consumed |
| `ParserBrackets.ShortOfBrackets` | gopkg.in/yaml.v2/parserc.go:770-901 | A run that is short of a closing bracket never reaches the end of the stream |
| `ParserRuns.TagAgrees` | gopkg.in/yaml.v2/parserc.go:430-452 | A tag with a handle is the prefix of the first directive for that handle, followed by its suffix; there is none for an unknown handle or if both are empty |
| `ParserRuns.NodeContent` | gopkg.in/yaml.v2/parserc.go:359-560 | Anchor and tag in either order are read, the tag is resolved to its prefix and suffix, an unknown handle is an error, and the content token decides the event and the next state |
| `ParserCompleteness.NodeFate` | gopkg.in/yaml.v2/parserc.go:359-992 | From a node of the documented grammar the parser emits its events and returns to the caller, or is bound never to finish, as the node has a key everywhere it needs one |
| `ParserStreams.StandardTags` | gopkg.in/yaml.v2/parserc.go:1007-1010 | Unless a document declares the handle itself, `!!x` is `tag:yaml.org,2002:x` and `!x` is itself |
| `ParserStreams.ScopeAgrees` | gopkg.in/yaml.v2/parserc.go:1055-1066 | The handles in force are those of the directives and the two standard ones that they do not declare |
| `ParserStreams.DirectivesReadIff` | gopkg.in/yaml.v2/parserc.go:1013-1073 | Directives are accepted if and only if they are well formed, and otherwise the parse fails |
| `ParserStreams.GoodDirectivesMeans` | gopkg.in/yaml.v2/parserc.go:1020-1053 | That is: at most one version, which is 1.1, and no handle twice |
| `ParserStreams.StreamParsesIffKeyed` | gopkg.in/yaml.v2/parserc.go:7-43 | For every derivation of the documented token grammar: the whole parse gives exactly its events, with tags in full and the marks of implicit scalars, and ends, if every block mapping entry has its KEY and no empty key makes the parser skip a token it needs; otherwise the parse ends in an error |
| `ParserAcceptance.NodeTaken` | gopkg.in/yaml.v2/parserc.go:359-560 | What is read as a node in a parse that ends is a node of the grammar that may stand there, the events are its events, and the parser is back in its caller with the tokens after it |
| `ParserAcceptance.ParsedIsSentence` | gopkg.in/yaml.v2/parserc.go:7-43 | Whatever is parsed to its end begins with a stream of the documented grammar, but for tokens skipped right after a KEY, and the events are exactly those of that stream |
| `ParserAcceptance.AcceptedIff` | gopkg.in/yaml.v2/parserc.go:7-43 | Where no KEY is followed by a token that could be skipped and nothing follows the stream end, a parse ends without error if and only if the tokens are a stream of the grammar in which every block mapping entry has its KEY and no empty key is in the way |
| `ParserStreams.KeylessRefused` | gopkg.in/yaml.v2/parserc.go:664-722 | The tokens of `: x` as a block mapping are a sentence of the grammar, and are refused |
| `ParserStreams.EmptyKeyRefused` | gopkg.in/yaml.v2/parserc.go:829-848 | The tokens of `[? : x]` are a sentence of the grammar, and are refused |
| `ParserTermination.StepSpends` | gopkg.in/yaml.v2/parserc.go:93-992 | Every event uses up some of a finite stock, also where no token is read; while the stream-end token is ahead, no step asks for a token that is not there |
| `ParserTermination.RunStops` | gopkg.in/yaml.v2/parserc.go:62-73 | Every parse stops after at most six events a token, and with an error unless the stream has ended |
| `ParserObject.Parser.ProcessDirectives` | gopkg.in/yaml.v2/parserc.go:1013-1073 | The loop accepts at most one compatible version and distinct tag handles, and adds the default handles |
| `ParserObject.Parser.StateMachine` | gopkg.in/yaml.v2/parserc.go:93-169 | Each event takes the event grammar from the nesting of the object before it to the nesting after it, the stacks fit, and some of the stock is used up |
| `ParserObject.Parser.ParseAll` | gopkg.in/yaml.v2/parserc.go:62-73 | Over any tokens the loop ends with a prefix of a well-nested stream, with all of one if it reports the end; on the tokens of a sentence of the documented grammar, with the events of the sentence or with an error, as the sentence is keyed |
| `EmitterSoundness.StepFollows` | gopkg.in/yaml.v2/emitterc.go:212-738 | An event with acceptable contents is taken if and only if the event grammar takes its kind; the stacks of states and indents never underflow, their depths and the flow level are those of the open collections, and inside flow style everything is flow style |
| `EmitterRuns.RunIffViable` | gopkg.in/yaml.v2/emitterc.go:114-270 | A run over acceptable events goes exactly as far as the grammar does |
| `EmitterRuns.RunExtends` | gopkg.in/yaml.v2/emitterc.go:745-761 | What has been processed does not depend on events that come later, because the event after every collection start was already known |
| `EmitterRuns.CompleteWaitsForNothing` | gopkg.in/yaml.v2/emitterc.go:137-171 | Once the stream is complete, no head of the queue is held back for more events |
| `EmitterRuns.ProcessedIsPrefix` | gopkg.in/yaml.v2/emitterc.go:114-130 | What the emitter has processed is a prefix of a well-formed stream |
| `EmitterRuns.RefusedIff` | gopkg.in/yaml.v2/emitterc.go:114-270 | The next event is processed if and only if its content is acceptable and the processed events with it begin a well-formed stream |
| `EmitterRuns.CompleteIsDone` | gopkg.in/yaml.v2/emitterc.go:114-171 | With a complete stream given and the queue waiting, everything is processed, the state is the final one and both stacks are empty |
| `EmitterRuns.ParsedIsComplete` | gopkg.in/yaml.v2/emitterc.go:114-130 | The events of any parse that ends are a complete stream, so the emitter processes all of it |
| `EmitterStyles.RunDescribed` | gopkg.in/yaml.v2/emitterc.go:212-738 | After any number of events, and from them alone: the stack holds one state for each open collection, of its kind and style, with keys and values in turn and a simple key exactly for one of at most 128 characters on one line outside canonical output; the levels grow by the indentation asked for if it is 2 to 9 and by 2 otherwise, from 0, or from that step for a flow root, and stay for a block sequence right inside a mapping |
| `EmitterStyles.FlowIff` | gopkg.in/yaml.v2/emitterc.go:707-738 | A collection is in flow style if and only if the emitter is canonical, or it or one around it asks for flow style or is empty; the flow level is the number of such collections entered |
| `EmitterObject.Emitter.NeedMoreEvents` | gopkg.in/yaml.v2/emitterc.go:137-171 | The counting loop decides exactly whether the head has fewer than its 1, 2 or 3 further events and does not end within the queue |
| `EmitterObject.Emitter.CheckSimpleKey` | gopkg.in/yaml.v2/emitterc.go:764-795 | An alias, a scalar on one line or an empty collection whose anchor, tag and value take at most 128 characters |
| `EmitterObject.Emitter.IncreaseIndent` | gopkg.in/yaml.v2/emitterc.go:197-209 | The level is pushed; for a scalar the new one leaves at least the configured indentation, which is two or more |
| `EmitterObject.Emitter.EmitScalar` | gopkg.in/yaml.v2/emitterc.go:683-704 | The scalar is written one level in, and the level and the state to return to are restored |
| `EmitterObject.Emitter.StateMachine` | gopkg.in/yaml.v2/emitterc.go:212-270 | An event with acceptable content is processed if and only if the event grammar takes its kind from the nesting of the object, which moves on accordingly; a collection starts in flow style if and only if one is open, the emitter is canonical, it asks for it or the next event ends it |
| `EmitterObject.Emitter.Emit` | gopkg.in/yaml.v2/emitterc.go:114-130 | The event is queued and all that need not wait is processed, leaving states, levels and styles as the processed events say; on failure everything before the head of the queue was processed and the head is what must be refused |
| `EmitterObject.EmitAll` | gopkg.in/yaml.v2/emitterc.go:114-270 | Whatever the events, those processed are a prefix of a well-formed stream and the states, levels and styles are as they say, and the first that is refused has unacceptable content or cannot continue it; a complete stream with acceptable contents is processed through STREAM-END, leaving no event, state or level |
| `QuotedScanner.Scanner.ReadHex` | gopkg.in/yaml.v2/scannerc.go:2423-2436 | Exactly the given number of hexadecimal digits, with the value that `DigitsRead` finds in them |
| `QuotedScanner.Scanner.ReadEscape` | gopkg.in/yaml.v2/scannerc.go:2346-2463 | Every escape of YAML, including the folded line break, is read as its character in UTF-8 or refused |
| `QuotedScanner.Scanner.ScanNonBlank` | gopkg.in/yaml.v2/scannerc.go:2333-2471 | The run of non-blank characters with escapes and doubled quotes |
| `QuotedScanner.Scanner.ScanBlanks` | gopkg.in/yaml.v2/scannerc.go:2486-2513 | Spaces are kept only when no break follows, the first break and the further ones are kept apart |
| `QuotedScanner.Scanner.ScanFlowScalar` | gopkg.in/yaml.v2/scannerc.go:2299-2552 | The loop computes the specified scalar or the specified error, with folding, document indicators and the end of input |
| `QuotedMeaning.DigitsRead` | gopkg.in/yaml.v2/yamlprivateh.go:46-57 | Digits of either case, mixed as they may be, are read as the number that they are in base sixteen |
| `QuotedMeaning.EscapeMeans` | gopkg.in/yaml.v2/scannerc.go:2346-2463 | An escape that is accepted is one of eighteen characters behind a backslash, standing for its code point, or `x`, `u` or `U` with 2, 4 or 8 digits of a Unicode scalar value |
| `QuotedMeaning.QuotedReads` | gopkg.in/yaml.v2/scannerc.go:2299-2552 | Every text between quotes that is made of characters, doubled quotes, escapes, blanks, folded lines and escaped line breaks is read as what these stand for: blanks around a line break go, one break is a space, of several the first goes, an escaped one vanishes; and the scan stops behind the closing quote |
| `QuotedMeaning.QuotedMeans` | gopkg.in/yaml.v2/scannerc.go:2299-2552 | Whatever is scanned without an error is such a text, read so |
| `QuotedMeaning.QuotedIff` | gopkg.in/yaml.v2/scannerc.go:2299-2552 | A scan succeeds if and only if the input starts with such a scalar |
| `QuotedWriter.AnalyzeScalar` | gopkg.in/yaml.v2/emitterc.go:984-1130 | The flags say exactly whether the value has a line break, and whether it has only printable characters and no space next to a break |
| `QuotedWriter.Writer.WriteIndent` | gopkg.in/yaml.v2/emitterc.go:1201-1219 | A break unless the line is still at its indentation, and spaces up to it |
| `QuotedWriter.Writer.WriteEscape` | gopkg.in/yaml.v2/emitterc.go:1440-1519 | The short escape where there is one, otherwise the shortest of two, four or eight digits |
| `QuotedWriter.Writer.WriteDoubleQuoted` | gopkg.in/yaml.v2/emitterc.go:1429-1548 | The loop writes the specified double-quoted form, whose folds and escapes `DoubleWidth`, `NeedsEscapeIff` and `EscapeForm` pin down |
| `QuotedWriter.Writer.WriteSingleQuoted` | gopkg.in/yaml.v2/emitterc.go:1370-1427 | The loop writes the specified single-quoted form, with doubled quotes, doubled first breaks and folds |
| `QuotedWidth.DoubleWidth` | gopkg.in/yaml.v2/emitterc.go:1520-1536 | On the double-quoted text alone: a line break stands only where breaks are allowed and the line before it has more columns than the width, is followed by exactly the indentation, and every space between two characters where it could have stood is within the width |
| `QuotedWidth.SingleWidth` | gopkg.in/yaml.v2/emitterc.go:1376-1421 | The same of the single-quoted text, for line breaks that stand alone: those of the value come at least in twos or are separators |
| `QuotedWidth.NarrowDouble` | gopkg.in/yaml.v2/emitterc.go:1520-1536 | A value whose form without folds ends within the width is written in that form |
| `QuotedWidth.NarrowSingle` | gopkg.in/yaml.v2/emitterc.go:1376-1421 | A value of which no line passes the width is written with its own line breaks only |
| `QuotedEscapes.PrintableIff` | gopkg.in/yaml.v2/yamlprivateh.go:63-78 | The printable characters by code point: LF, 20 to 7E, A0 to D7FF and E000 to FFFD without FEFF |
| `QuotedEscapes.NeedsEscapeIff` | gopkg.in/yaml.v2/emitterc.go:1436-1438 | In a value that does not start with a byte order mark, a character is escaped if and only if it is not printable, is a quote, a backslash or a line break, or is beyond ASCII where that is not wanted |
| `QuotedEscapes.EscapeForm` | gopkg.in/yaml.v2/emitterc.go:1442-1519 | An escape is one that the grammar of quoted scalars has for the character, with digits in upper case |
| `QuotedEscapes.EscapeIsShortest` | gopkg.in/yaml.v2/emitterc.go:1442-1519 | No escape of the character other than those of space and single quote is shorter |
| `QuotedRoundTrip.EscapeInverse` | gopkg.in/yaml.v2/emitterc.go:1440-1519 | Scanning the escape written for a character gives that character |
| `QuotedRoundTrip.DoubleRoundTrip` | gopkg.in/yaml.v2/emitterc.go:1429-1548 | For every valid UTF-8 value, indent, width, column and setting: scanning the double-quoted form returns the value if and only if no fold lands on a document indicator, and otherwise stops with that error |
| `QuotedRoundTrip.IndentedDoubleRoundTrip` | gopkg.in/yaml.v2/emitterc.go:683-704 | With any indentation, the double-quoted form always scans back to the value |
| `QuotedRoundTrip.UnindentedDoubleFails` | gopkg.in/yaml.v2/emitterc.go:1520-1534 | A value that does not scan back when written without indentation at a narrow width |
| `SingleRoundTrip.SingleRoundTrip` | gopkg.in/yaml.v2/emitterc.go:1370-1427 | Where analysis allows the single-quoted style, scanning what is written returns the value if and only if the writer does not slip: with nothing to indent, no line begins with a document indicator and no line is begun after line breaks before another |
| `SingleRoundTrip.IndentedSingleRoundTrip` | gopkg.in/yaml.v2/emitterc.go:1370-1427 | With any indentation it always does: runs of breaks, LS and PS, doubled quotes and folds included |
| `SingleRoundTrip.UnindentedSingleFails` | gopkg.in/yaml.v2/emitterc.go:1370-1427 | A value of two lines that does not come back without indentation |
| `QuotedThroughReader.DoubleThroughReader` | gopkg.in/yaml.v2/readerc.go:91-412 | Whatever is written in double quotes passes the reader without an error and unchanged, in pieces of any size, and then scans back to the value |
| `QuotedThroughReader.SingleThroughReader` | gopkg.in/yaml.v2/readerc.go:91-412 | The same for single quotes where analysis allows them |
| `QuotedThroughReader.PrintableIsAllowed` | gopkg.in/yaml.v2/yamlprivateh.go:63-73 | Every character that the emitter writes as it is, is one the reader accepts |
| `NodeBuilder.Builder.AddNode` | gopkg.in/yaml.v2/decode.go:162-198 | A node gets the next number and its anchor, if any, leads to it from then on |
| `NodeBuilder.NodeEndSound` | gopkg.in/yaml.v2/decode.go:201-221 | Nothing is recognised as a node but a whole node of the event grammar |
| `NodeBuilder.NodeEndComplete` | gopkg.in/yaml.v2/decode.go:201-221 | Every whole node of the event grammar is recognised, up to its own end |
| `NodeBuilder.Builder.Parse` | gopkg.in/yaml.v2/decode.go:141-160 | Succeeds if and only if a whole node starts here and its aliases name earlier anchors of the document; the node built, flattened, is the events it was read from, and aliases lead to the latest node of their name |
| `NodeBuilder.Builder.ParseCollection` | gopkg.in/yaml.v2/decode.go:201-221 | All children in order, in pairs for a mapping, up to the matching end; fails exactly when there is no such whole collection with known aliases |
| `NodeBuilder.Builder.Document` | gopkg.in/yaml.v2/decode.go:170-178 | Succeeds if and only if one buildable node stands between the document events; anchors of an earlier document are forgotten |
| `NodeGraph.UnfoldsUnique` | gopkg.in/yaml.v2/decode.go:317-339 | A node unfolds to at most one tree |
| `AliasDecoding.DecodeUnfolds` | gopkg.in/yaml.v2/decode.go:317-359 | A decoded value is the node with every alias replaced by what it stands for |
| `AliasDecoding.FailureIsCycle` | gopkg.in/yaml.v2/decode.go:350-359 | The alias reported to contain itself does reach itself, and decoding reached it |
| `AliasDecoding.CycleDoesNotUnfold` | gopkg.in/yaml.v2/decode.go:350-359 | An alias that reaches itself has no finite unfolding |
| `AliasDecoding.DecodeIff` | gopkg.in/yaml.v2/decode.go:317-359 | Decoding ends on every graph; it fails if and only if a reachable alias reaches itself, naming one, and otherwise gives the one tree the graph unfolds to |
| `AliasDecoding.Decoder.Unmarshal` | gopkg.in/yaml.v2/decode.go:317-339 | The recursion over the object computes that outcome and leaves the set of aliases in progress as it was |
| `AliasDecoding.Decoder.UnmarshalAlias` | gopkg.in/yaml.v2/decode.go:350-359 | An alias in progress is refused; otherwise it is in progress while its target is decoded |
| `AliasDecoding.Load` | gopkg.in/yaml.v2/decode.go:141-359 | Events to graph to value: a graph is built if and only if the events are a document with known aliases, it flattens to them, every alias leads to the latest node of its name, and decoding it fails exactly on reachable cycles |
| `NumberTheory.DividesPowTen` | gopkg.in/inf.v0/dec.go:344-354 | A number divides a power of ten if and only if it consists of twos and fives only, neither more than the exponent |
| `NumberTheory.ClearedBy` | gopkg.in/inf.v0/dec.go:344-354 | A divisor divides a multiple of the dividend if and only if the reduced denominator divides the multiplier |
| `DecimalValues.FiniteIffEnough` | gopkg.in/inf.v0/dec.go:275-284 | A quotient is a finite decimal if and only if some number of further digits makes the division exact |
| `DecimalValues.LeastEnough` | gopkg.in/inf.v0/dec.go:344-354 | The larger of the two factor counts is the least number of digits that is ever enough |
| `DecObject.FractionIsQuotient` | gopkg.in/inf.v0/dec.go:297-318 | A decimal at the requested scale is the quotient if and only if it equals the fraction that is divided |
| `DecObject.Factor` | gopkg.in/inf.v0/dec.go:356-369 | The loop counts exactly how often the prime divides |
| `DecObject.Factor2` | gopkg.in/inf.v0/dec.go:371-377 | The lowest set bit is the number of factors of two |
| `DecObject.ExactScale` | gopkg.in/inf.v0/dec.go:344-354 | The scale beyond the canonical one is the least that can hold the quotient, if any can |
| `DecObject.Dec.QuoRem` | gopkg.in/inf.v0/dec.go:297-334 | Quotient at the scale and remainder satisfy the documented equation, toward zero, with the remainder smaller than the divisor and of the sign of the dividend, also when receiver and operands coincide |
| `DecObject.Dec.RoundHalf` | gopkg.in/inf.v0/rounder.go:69-95 | The unit is added exactly as comparing twice the remainder with the divisor asks; the bit-length shortcuts never decide differently |
| `DecObject.Dec.Round` | gopkg.in/inf.v0/rounder.go:97-145 | Each rounder gives the result its mode defines on the exact fraction; only the exact one refuses, and only when a remainder is left |
| `DecObject.Dec.QuoRound` | gopkg.in/inf.v0/dec.go:256-273 | The result is the exact quotient at the scale, rounded as the mode defines |
| `DecObject.Dec.QuoExact` | gopkg.in/inf.v0/dec.go:275-284 | Succeeds if and only if the quotient is a finite decimal; the result equals it, at the canonical scale plus the least number of digits that makes the division exact |
| `Rounding.RoundedUnique` | gopkg.in/inf.v0/rounder.go:16-32 | Each mode's definition allows one result |
| `Rounding.ShortIsBelowHalf` | gopkg.in/inf.v0/rounder.go:73-76 | Two bits shorter than the divisor is less than half of it |
| `Rounding.LongIsAboveHalf` | gopkg.in/inf.v0/rounder.go:87-90 | As long as the divisor is more than half of it |
| `Rounding.HalfRounds` | gopkg.in/inf.v0/rounder.go:131-144 | The three tie rules give the nearest integer, ties down, up or to even |
| `DecimalText.AppendZeros` | gopkg.in/inf.v0/dec.go:415-424 | Exactly the requested number of zeros, in runs of 64 |
| `DecimalText.Print` | gopkg.in/inf.v0/dec.go:426-457 | Sign, padding and point are placed as the printed form says, in all cases |
| `DecimalText.TextForm` | gopkg.in/inf.v0/dec.go:426-457 | An optional minus and digits with a leading zero only in `0`; at a scale above zero then the point and exactly that many digits |
| `DecimalText.Scan` | gopkg.in/inf.v0/dec.go:470-518 | The longest prefix of sign, digits and one point is read, with the value and scale it denotes, or an error without digits |
| `DecimalText.SetString` | gopkg.in/inf.v0/dec.go:525-537 | Succeeds exactly on texts that are such a number as a whole |
| `DecimalText.PrintThenRead` | gopkg.in/inf.v0/dec.go:426-537 | Reading what was printed gives the same coefficient and scale for scales from zero up, and otherwise the same value at scale zero |
| `DecimalText.PrintKeepsValue` | gopkg.in/inf.v0/dec.go:426-537 | Whatever the scale, reading what was printed gives the same value |
| `Multierr.Package.Inspect` | go.uber.org/multierr/error.go:272-293 | Counts the errors, the space they need, the first one and whether any is combined |
| `Multierr.Package.FromSlice` | go.uber.org/multierr/error.go:296-325 | The result lists the inputs' lists in order; nil only for none, and flat |
| `Multierr.Package.Combine` | go.uber.org/multierr/error.go:358-360 | The same for any arguments |
| `Multierr.Package.WriteBehind` | go.uber.org/multierr/error.go:385-391 | Writing into shared spare capacity keeps the list of every error made so far |
| `Multierr.Package.Append` | go.uber.org/multierr/error.go:377-401 | The result lists left then right, flat and not empty, and every error made so far keeps its list |
| `Multierr.Package.Errors` | go.uber.org/multierr/error.go:144-165 | What is read from the array now is the list the error was made with |
| `Multierr.Perform` | go.uber.org/multierr/error.go:272-401 | Any program of Append and Combine over earlier results, reused any number of times: at the end every value shows what immutable lists would give |
| `RoundRobin.AppliedMeans` | google.golang.org/grpc/balancer.go:166-194 | An update lists or removes its address and touches no other |
| `RoundRobin.WakesIffSingleEntry` | google.golang.org/grpc/balancer.go:247-262 | With nothing connected, marking an address counts one, and so wakes the blocked, if and only if it has exactly one entry; something is connected if it has any |
| `RoundRobin.TwoEntriesLoseTheWakeUp` | google.golang.org/grpc/balancer.go:247-262 | An address listed twice connects without waking anyone |
| `RoundRobin.LoseWakeUp` | google.golang.org/grpc/balancer.go:213-335 | The run that shows it: two starts without a resolver, a blocked caller and a connection leave the caller on an open channel |
| `RoundRobin.Rotation` | google.golang.org/grpc/balancer.go:290-310 | While the list stays as it is, as many searches in a row as there are connected entries pick each of them once, wherever the first begins |
| `RoundRobin.Balancer.NoLostWakeUp` | google.golang.org/grpc/balancer.go:244-398 | With an address connected or the balancer closed, there is no wait channel and every blocked caller holds a closed one |
| `RoundRobin.Balancer.WatchAddrUpdates` | google.golang.org/grpc/balancer.go:158-211 | All updates are applied in order and the newest list is in the channel, sent without blocking and never after closing |
| `RoundRobin.Balancer.Start` | google.golang.org/grpc/balancer.go:213-240 | Without a resolver the target is listed, with one the address channel is made; addresses stay distinct unless the target was listed and there is no resolver |
| `RoundRobin.Balancer.Up` | google.golang.org/grpc/balancer.go:244-267 | The entries of the address are connected; blocked callers are woken if that makes one connected entry, and stay stranded if and only if the address has more; with distinct addresses nobody waits any more |
| `RoundRobin.Balancer.Down` | google.golang.org/grpc/balancer.go:270-279 | The address, and no other, is disconnected |
| `RoundRobin.Balancer.Scan` | google.golang.org/grpc/balancer.go:290-312 | At most one turn from the next index finds the first connected address, if there is any, and moves on behind it |
| `RoundRobin.Balancer.Get` | google.golang.org/grpc/balancer.go:282-330 | Closing; else the connected address whose turn it is, with the turn moved on behind it; else the caller blocks on the current open channel, or takes the next address, or is told that there is none |
| `RoundRobin.Balancer.Resume` | google.golang.org/grpc/balancer.go:336-372 | A woken caller learns of the closing, or gets the connected address whose turn it is, or blocks again on the current open channel |
| `RoundRobin.Balancer.Close` | google.golang.org/grpc/balancer.go:380-398 | Done once; the wait channel and the address channel are closed |
| `RoundRobin.Interleave` | google.golang.org/grpc/balancer.go:158-398 | After any interleaving of all steps the invariant holds and no blocked caller is left behind |
| `SpanBucket.Bucket.Add` | go.opencensus.io/trace/spanbucket.go:52-66 | A span that comes late enough is appended and the oldest is dropped from a full bucket; the next one is taken a second after its end; unused slots are exactly the nil ones |
| `SpanBucket.Bucket.At` | go.opencensus.io/trace/spanbucket.go:77-85 | The i-th oldest span |
| `SpanBucket.Bucket.Resize` | go.opencensus.io/trace/spanbucket.go:88-106 | The newest spans that fit are kept, in order |
| `SpanBucket.Replay` | go.opencensus.io/trace/spanbucket.go:45-106 | Any run of additions and resizings keeps what a plain list with the same rules keeps |
| `LatencyReport.LatencyBucket` | go.opencensus.io/trace/spanbucket.go:109-115 | The range whose bounds contain the latency: by powers of ten from ten microseconds to ten seconds, then a minute |
| `LatencyReport.BoundsAreRanges` | go.opencensus.io/trace/spanbucket.go:122-130 | The bounds say exactly which latencies are in a bucket, and none is in two |
| `LatencyReport.ReportIsFilterIff` | go.opencensus.io/trace/spanstore.go:146-179 | The report that skips buckets equals the plain filter if and only if the skipped first bucket has nothing to find |
| `LatencyReport.ReportIsAlwaysFilterIff` | go.opencensus.io/trace/spanstore.go:146-179 | It equals the plain filter for every store if and only if the upper bound is not negative or is below the lower one |
| `SpanStore.Store.Finished` | go.opencensus.io/trace/spanstore.go:282-306 | A successful span is offered to the bucket of its latency, a failed one to that of its code, which is made for the first; no other bucket changes and every kept span stays where it belongs |
| `SpanStore.Store.ReportSpansByLatency` | go.opencensus.io/trace/spanstore.go:146-179 | The loop computes that report over the buffers; for non-negative upper bounds it is, up to order, the plain filter over what the lists keep |
| `SpanStore.Store.ReportSpansByError` | go.opencensus.io/trace/spanstore.go:60-87 | The spans kept for a code, or for zero those of all codes, each as often as it is kept |
| `SpanStore.Store.Resize` | go.opencensus.io/trace/spanstore.go:261-271 | Every bucket keeps the newest spans that fit its new size; later error buckets get it too |
| `SpanStore.RunSorted` | go.opencensus.io/trace/spanstore.go:261-306 | After any run every kept span is where its code and latency say, and no list is longer than its size |
| `SpanStore.Replay` | go.opencensus.io/trace/spanstore.go:261-306 | After any run of finished spans and new sizes the store keeps what plain lists keep, and the report is the plain filter over them |
| `SpanIds.IdsAreDistinct` | go.opencensus.io/trace/trace.go:416-439 | From a non-zero seed and an odd increment, no two of 2^64 - 1 identifiers in a row are the same |
| `SpanIds.IdsComeAgainIff` | go.opencensus.io/trace/trace.go:416-439 | Two identifiers are the same if and only if their distance is a multiple of 2^64 - 1: all words but zero are gone through |
| `SpanIds.NeverZeroIff` | go.opencensus.io/trace/trace.go:428-439 | No identifier is ever zero if and only if the seed is not |
| `SpanIds.Generator.NewSpanID` | go.opencensus.io/trace/trace.go:430-439 | The state is given out and moves on by the increment, over zero, with wrap-around |
| `SpanIds.Generate` | go.opencensus.io/trace/trace.go:416-439 | Any number of identifiers: none is zero, and two are the same exactly at multiples of 2^64 - 1 |
| `TagCodec.VarintInverse` | go.opencensus.io/tag/map_codec.go:65-72 | A length is read back from its variable-size form whatever follows, and takes at most ten bytes |
| `TagCodec.RoundTrip` | go.opencensus.io/tag/map_codec.go:164-221 | Decoding the encoding of a map with valid keys and values gives the map, for every order of its entries and any length that a slice can have |
| `TagCodec.OneTag` | go.opencensus.io/tag/map_codec.go:178-221 | One tag is read if its key has 1 to 255 and its value at most 255 bytes from 32 to 126, and refused otherwise |
| `TagCodec.Encoder.GrowIfRequired` | go.opencensus.io/tag/map_codec.go:146-152 | The requested room is there and what was written is kept |
| `TagCodec.Encoder.WriteBytesWithVarintLen` | go.opencensus.io/tag/map_codec.go:65-72 | The room is always enough: length and bytes are appended to what was written |
| `TagCodec.Encode` | go.opencensus.io/tag/map_codec.go:164-175 | Whatever order the map yields, the bytes decode to the map |
| `TagCodec.ReadBytesWithVarintLen` | go.opencensus.io/tag/map_codec.go:119-136 | The field at the index, in plain numbers; a run-time error exactly where its claimed end passes 2^63 - 1, and an error for a truncated or overlong one |
| `TagCodec.Decode` | go.opencensus.io/tag/map_codec.go:178-221 | For any bytes after the version: a map if and only if whole entries lead to the end, and a run-time error if and only if they lead to a field whose claimed end passes 2^63 - 1 |
| `TagCodec.DecodesIff` | go.opencensus.io/tag/map_codec.go:178-221 | Bytes decode to a map if and only if they are empty or the version and a run of whole entries |
| `TagCodec.DecodeCrashesIff` | go.opencensus.io/tag/map_codec.go:119-136 | Decoding ends in a run-time error if and only if whole entries lead to a key or value whose claimed end passes 2^63 - 1 |
| `TagCodec.LongLengthCrashes` | go.opencensus.io/tag/map_codec.go:127-135 | Any such length right after the version and the type of a key is enough |
| `TagCodec.DecodeCrashes` | go.opencensus.io/tag/map_codec.go:127-135 | Two inputs: a length that is negative as an `int`, and one that only the sum takes beyond its range |

## Left out

- Multierr.Package.FromSlice: stated for an array that the caller owns and does not use again, because a list that is already flat is kept without copying.
- ReaderObject.Reader.Read: errors of the read handler, and a handler that returns neither bytes nor the end of input forever.
- ReaderObject.Reader.UpdateBuffer: stated for requests of up to 64 characters, which always fit the fixed buffer; the scanner asks for at most eight.
- TokenScanner: what a lexeme is, and where it starts and ends, is a parameter; plain and block scalars, anchors, tags and directives are not scanned character by character.
- ParserAcceptance.ParsedIsSentence: for tokens in which no anchor has an empty name, which the scanner never produces and the parser takes for no anchor.
- TokenScanner.ScanAll: the layout is stated for lexemes in reading order, which is how a text has them.
- YAML positions: line and index of marks in events and errors, the output buffer with its flushing and write errors, and error messages.
- YAML folded, literal and plain writers, anchors and tags as written text, and the choice of scalar style: they depend on the context around a scalar and add cases.
- EmitterModel: the checks on anchors, tags, directives and scalar flags are one bit of the event, and so is whether only indentation is on the line; texts appear by their lengths.
- AliasDecoding: the result is an untyped tree; merge keys, typed decoding by reflection and `Unmarshaler` callbacks are not modelled.
- inf: scales are unbounded integers, the 32-bit range of `Scale` is not modelled; addition, comparison, formatting verbs and gob encoding add easy members.
- Multierr: the flag is swapped in sequential steps; formatting of messages.
- RoundRobin: contexts, the watcher's goroutine and mutexes are steps that happen at any time; `Notify` only returns the channel.
- SpanStore: the report of active spans, the summary per name and the registry of stores by name; durations do not saturate.
- SpanIds: the seed and increment are inputs; trace identifiers are random.
- TagCodec: integer and boolean tags, which the codec never writes.
