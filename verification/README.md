# ECHO Brain: verified models

A Dafny model of the parts of ECHO Brain whose correctness is more than the check of a
field, with proofs of what they are for:

- the permission-partitioned search index: building a generation, warming it, searching,
  listing and reading it, and publishing and retiring generations on disk;
- canonical JSON (RFC 8785) and the reader that takes nothing else;
- strict DER P-256 signatures, their low-S normal form and their base64 in a record;
- the Ask progress stream: its frames and the decoder that reads them in arbitrary pieces;
- the routing of an approved brief to the records of its destinations;
- the staging release host: guard, operation log and install, with crashes between any two steps;
- the Confluence evidence reader: batch revalidation and the paging of a page's sections;
- the byte recognisers for UTF-8 and for Word documents, and the timestamps compared as strings.

Each program part that changes state step by step is a method or a class whose contract ties
it to a function or predicate. The lemmas beside it say what that function or predicate means.
Names and texts of the search, JSON and stream parts are sequences of UTF-16 code units.

Files, by part:

- `Wrappers`, `Octets`, `Sequences`, `Sorting`, `Whitespace`: shared definitions.
- `SearchModel`, `SearchFlat` (the simple specification), `SearchIndex`, `SearchRefinement`,
  `SearchScope`, `SearchInventory` (searching), `SearchBuild`, `SearchGeneration`,
  `SearchStorable`, `SearchWarm`, `SearchWarmed`, `SearchLifecycle`, `SearchEngine` (building and
  warming), `SearchRebuild` (two generations, one answer), `SearchStorage` (the directory).
- `Json`, `JsonParser`, `JsonRoundTrip`, `JsonCanonical`, `JsonAcceptance`, `JsonGraph`.
- `SignatureDer`, `RecordSignature`; `Utf8`; `Timestamps`.
- `AskEvents`, `AskFraming`, `AskDecoder`, `AskChunks`, `AskStream`, `AskRoundTrip`.
- `ApprovalBrief`, `ApprovalSubset`, `ApprovalGroups`, `ApprovalRecords`.
- `ReleaseHost`, `ReleaseSafety`, `ReleaseReplay`, `ReleaseExecution`.
- `ConfluenceModel`, `ConfluenceRevalidation`, `ConfluencePaging`, `ConfluenceReader`.
- `ZipHeaders`, `WordContainer`.

What is abstract: the analyzer, the score, and what a plane's lineage manifest says if its
text is canonical JSON, are parameters of a search (`Kernel`); digests are injective functions
of what they digest, except on raw text with lone surrogates, which the code digests alike; the
clock, the file system's failures, the Confluence server and the release wrapper decide
through parameters that every theorem quantifies over.

## Where the code does not do what its documentation or its neighbours suggest

- A decoder fed a line over the bound accepts it when the line's end comes in the same push and
  refuses it when it does not (`AskRoundTrip.LongCommentDependsOnCutting`). The result depends on the
  text alone exactly when every line fits (`AskChunks.CuttingShowsOnlyInLongLines`).
- After the terminal event the decoder still takes blank lines (`AskStream.AcceptsExactlyFrames`).
- An execution of a release operation that dies between creating `result.json` and writing it
  leaves a replay an error, neither the result nor `operation_incomplete`
  (`ReleaseReplay.UnfinishedResultRaises`, a run from the start). What the log holds decides the
  answer: `ReleaseReplay.ReplayToTheEnd` for a replay left to itself, `ReleaseReplay.ReplayAnswers`
  among any other executions and crashes.
- A build of atoms that pass every check before the first write, lineage manifests included, still
  fails, and fails exactly then, when two atoms under one policy share a log position with an
  order or a signal, which the tables keep unique, or when a name that nothing has checked has a
  lone surrogate, of which no canonical digest is taken: an approval, an audit event, a text, a
  version or the revision, or with no atoms a lineage name or manifest (`SearchStorable.BuildableExactly`; for such inputs
  `SearchStorable.SomeAcceptedInputFails` and `SearchStorable.SomeNameFails`).
- A reason that supports nothing is kept exactly when some destination is private
  (`ApprovalRecords.LooseReasonKept`).

## Model

| member | source | states |
|---|---|---|
| SearchIndex.SegmentStatistics | packages/organization-retrieval/src/readable-search-engine-v1.ts:1314-1330 | One pass over the postings counts, for each term, its postings, and for each atom and in all, its terms, as sums over the whole list |
| SearchIndex.UnionStatistics | packages/organization-retrieval/src/readable-search-engine-v1.ts:1333-1350 | The merged statistics are the segment-wise sums, and a query term is listed exactly when some segment lists it |
| SearchIndex.MatchedFrequencies | packages/organization-retrieval/src/readable-search-engine-v1.ts:1463-1473 | The one scan of the postings finds an atom exactly when it has a query term, with all its query-term frequencies |
| SearchIndex.ScoreAdmittedCandidates | packages/organization-retrieval/src/readable-search-engine-v1.ts:1448-1485 | The nested loops give the candidates of each segment in order, scored by the statistics of all admitted segments together |
| SearchRefinement.UnionIsFlat | packages/organization-retrieval/src/readable-search-engine-v1.ts:1333-1350 | Merged statistics of segments that hold groups of atoms are the statistics counted atom by atom over the atoms of all groups |
| SearchRefinement.AllCandidates | packages/organization-retrieval/src/readable-search-engine-v1.ts:1448-1485 | The candidates found through postings are exactly the atoms that hold a query term and score above zero, atom by atom |
| SearchScope.ScopeHolds | packages/organization-retrieval/src/readable-search-engine-v1.ts:1417-1442 | After admission and narrowing, the segments index exactly the atoms whose policy, project and record the request may see |
| SearchScope.SearchSegments | packages/organization-retrieval/src/readable-search-engine-v1.ts:2215-2233 | Searching segment by segment gives the same items, order and truncated flag as filtering all atoms by policy and scope, counting statistics over those, scoring, sorting and cutting |
| SearchScope.AsIfRebuilt | packages/organization-retrieval/src/readable-search-engine-v1.ts:1304-1310 | Looking at all atoms one by one answers as looking at only those the request may see, in any order |
| SearchRebuild.SearchRebuilt | packages/organization-retrieval/src/readable-search-engine-v1.ts:1304-1350 | A search of a full generation equals a search of a generation built of only the atoms the request may see: no statistic comes from an unseen atom |
| SearchRebuild.ListRebuilt | packages/organization-retrieval/src/readable-search-engine-v1.ts:2236-2277 | A listing of a full generation equals a listing of a generation built of only the atoms the request may see |
| SearchRebuild.ReadRebuilt | packages/organization-retrieval/src/readable-search-engine-v1.ts:2332-2348 | And so does reading by ids |
| SearchRebuild.RecordsRebuilt | packages/organization-retrieval/src/readable-search-engine-v1.ts:2284-2330 | And so does the record list, row by row in one order, even where records share a position |
| SearchRebuild.SameView | packages/organization-retrieval/src/readable-search-engine-v1.ts:1407-1442 | What a request sees of the two generations is the same atoms in the same order |
| SearchRebuild.SeenBuildable | packages/organization-retrieval/src/readable-search-engine-v1.ts:891-948 | Whatever can be built of all atoms can be built of those a request may see |
| SearchFlat.FlatSearchSeesOnlyVisible | packages/organization-retrieval/src/readable-search-engine-v1.ts:1407-1442 | Two collections with the same visible atoms give the same search result |
| SearchInventory.ListSegments | packages/organization-retrieval/src/readable-search-engine-v1.ts:2252-2276 | Listing segment by segment is listing the visible wanted atoms, newest record first, cut at the limit |
| SearchInventory.ListAsIfRebuilt | packages/organization-retrieval/src/readable-search-engine-v1.ts:2236-2241 | Listing all atoms one by one answers as listing only those the request may see |
| SearchInventory.ReadSegments | packages/organization-retrieval/src/readable-search-engine-v1.ts:2340-2348 | Reading by ids gives, in the order asked, exactly the visible atoms with those ids |
| SearchInventory.ListRecords | packages/organization-retrieval/src/readable-search-engine-v1.ts:2296-2329 | One row for each record with a visible atom, newest first, counting its visible atoms and agreeing with each of them; refused exactly when two visible atoms of a record disagree; the rows depend on the visible atoms, as they are met, alone |
| SearchBuild.CheckAtoms | packages/organization-retrieval/src/readable-search-engine-v1.ts:891-897 | The loop accepts exactly atoms that are each valid for the input, their numbers safe integers and their project ids scalar, sorted and unique, and that have different ids |
| SearchBuild.CheckBudget | packages/organization-retrieval/src/readable-search-engine-v1.ts:821-844 | The loop accepts exactly inputs within all four limits whose segment identities can be digested and whose texts the analyzer takes, and names what is wrong otherwise |
| SearchBuild.GroupAtoms | packages/organization-retrieval/src/readable-search-engine-v1.ts:924-948 | Each group holds exactly the atoms of its segment id, in input order, and the ids are listed once each |
| SearchBuild.InsertRows | packages/organization-retrieval/src/readable-search-engine-v1.ts:669-697 | Row by row insertion succeeds exactly when every row passes the table's checks and no two agree on a unique key, and then stores all rows |
| SearchBuild.BuildSegment | packages/organization-retrieval/src/readable-search-engine-v1.ts:608-802 | A segment is written exactly when its identity and its atoms' bindings can be digested, its planes' lineage manifests have their digest and bind the lineage and the frozen schema, its policy is valid and its rows can all be stored; its manifest binds the rows in key order |
| SearchGeneration.Build | packages/organization-retrieval/src/readable-search-engine-v1.ts:847-1007 | A build succeeds exactly on accepted input within the budget whose groups can be bound and stored and whose whole input and identity can be digested, and then the tree has one segment for each segment id, sorted, under an identity over all of it |
| SearchStorable.StorableExactly | packages/organization-retrieval/baselines/readable-search-facts-baseline-v3.sql:16-29 | A segment of accepted atoms can be stored exactly when no two of them share a position with an order or a signal: no other key or check ever refuses |
| SearchStorable.BuildableExactly | packages/organization-retrieval/src/readable-search-engine-v1.ts:850-965 | A build succeeds exactly on accepted, in-budget input with bound lineage manifests in which no two atoms under one policy tuple share a position with an order or a signal and no unchecked name has a lone surrogate |
| SearchStorable.SomeAcceptedInputFails | packages/organization-retrieval/baselines/readable-search-facts-baseline-v3.sql:28 | Two decisions of one reviewer at one place, all their names printable, pass every check before the tables and are refused by them |
| SearchStorable.SomeNameFails | packages/federation-protocol/src/canonical-json.ts:15-30 | One decision whose approval is named by half of a surrogate pair passes every check before its binding is digested, and is not built |
| SearchWarmed.BuiltSegmentHolds | packages/organization-retrieval/src/readable-search-engine-v1.ts:669-741 | The rows read back from a built segment hold exactly the atoms of its group in key order |
| SearchWarmed.GroupsPartition | packages/organization-retrieval/src/readable-search-engine-v1.ts:924-965 | The groups of distinct segment ids together are exactly the atoms of those segments, each once |
| SearchWarm.ReadSegment | packages/organization-retrieval/src/readable-search-engine-v1.ts:1864-2044 | Reading a segment succeeds exactly when its metadata, roots, counts and every row bind each other, and returns its rows |
| SearchWarm.CheckDeclared | packages/organization-retrieval/src/readable-search-engine-v1.ts:2112-2120 | Comparing the declared ids, each once, with the directories accepts exactly a tree whose segment directories are the declared ids, each declared once |
| SearchWarm.CheckRowBudget | packages/organization-retrieval/src/readable-search-engine-v1.ts:2150-2167 | The rows pass exactly when atoms, segments, postings and every text are within the admission budget |
| SearchWarm.ValidateTree | packages/organization-retrieval/src/readable-search-engine-v1.ts:2080-2167 | The validation loop accepts exactly a tree that its pointer names, whose segments are each valid and declared once and whose atoms are all different and within the budget |
| SearchLifecycle.BuildThenWarm | packages/organization-retrieval/src/readable-search-engine-v1.ts:2046-2175 | Every built generation passes the full warm validation, and its rows are exactly the input atoms, each in one segment |
| SearchLifecycle.WarmedHoldsAtoms | packages/organization-retrieval/src/readable-search-engine-v1.ts:2130-2149 | The warmed segments hold exactly the input atoms, each in one segment |
| SearchLifecycle.WarmedWithinBudget | packages/organization-retrieval/src/readable-search-engine-v1.ts:2150-2167 | What the build budget admits, the warm budget admits |
| SearchLifecycle.IdentityForgetsOrder | packages/organization-retrieval/src/readable-search-engine-v1.ts:1000-1006 | The manifest, and so the generation id, does not depend on the order of the input atoms |
| SearchLifecycle.PointerBindsRows | packages/organization-retrieval/src/readable-search-engine-v1.ts:2096-2104 | Any two trees that pass validation under one pointer have the same rows, whatever else lies on disk |
| SearchEngine.Engine.WarmActive | packages/organization-retrieval/src/readable-search-engine-v1.ts:2188-2199 | For any pointer the handle is set exactly when what lies in the directory passes; under the pointer of a built generation it then serves the atoms that was built from, and an untouched built tree always passes |
| SearchEngine.Engine.Search | packages/organization-retrieval/src/readable-search-engine-v1.ts:2202-2234 | With its refusals in order, a search of the warm handle is the flat search of the atoms the generation was built from |
| SearchEngine.Engine.List | packages/organization-retrieval/src/readable-search-engine-v1.ts:2242-2277 | The same for the inventory |
| SearchEngine.Engine.Records | packages/organization-retrieval/src/readable-search-engine-v1.ts:2284-2330 | The same for the records |
| SearchEngine.Engine.Read | packages/organization-retrieval/src/readable-search-engine-v1.ts:2332-2348 | The same for reading by ids, one to ten different ones |
| SearchStorage.WritesComplete | packages/organization-retrieval/src/readable-search-engine-v1.ts:953-1008 | The writes of a build, one after the other, leave exactly the complete tree |
| SearchStorage.RetrievalRoot.Stage | packages/organization-retrieval/src/readable-search-engine-v1.ts:917-1008 | Writing the staging directory never changes `generations/`, whatever write it stops at |
| SearchStorage.RetrievalRoot.Publish | packages/organization-retrieval/src/readable-search-engine-v1.ts:907-1040 | At every step `generations/` is as before or has exactly the new complete generation more; debris of earlier builds is gone; it fails exactly when a write fails or another manifest stands under the same id, and says which |
| SearchStorage.SameIdentity | packages/organization-retrieval/src/readable-search-engine-v1.ts:1000-1026 | In a state that holds only complete built generations, the id of a build names no other manifest than its own |
| SearchStorage.BuildOrDie | packages/organization-retrieval/src/readable-search-engine-v1.ts:907-1044 | So from such a state publishing what was built succeeds exactly when no write fails, and every state it goes through is such a state |
| SearchStorage.RetrievalRoot.Retire | packages/organization-retrieval/src/readable-search-engine-v1.ts:1052-1092 | At every step the kept generation is unchanged and the others are whole or gone; in the end only it and no debris is left, with the number removed |
| SearchStorage.Run | packages/organization-retrieval/src/readable-search-engine-v1.ts:1045-1051 | Over any sequence of builds and retirements, each killed at any step or not, every state's `generations/` holds only complete built generations |
| SearchStorage.EveryGenerationWarms | packages/organization-retrieval/src/readable-search-engine-v1.ts:907-917 | In any such state every generation passes the full warm validation under its own pointer and holds exactly the atoms it was built from |
| SearchStorage.One | packages/organization-retrieval/src/readable-search-engine-v1.ts:907-917 | A finished build leaves no staging debris and a finished retirement no retired debris, and a killed retirement still has its kept generation unchanged |
| Json.CheckScalar | packages/federation-protocol/src/canonical-json.ts:15-30 | The index loop accepts exactly strings in which surrogates come in pairs |
| JsonRoundTrip.StringRoundTrip | packages/federation-protocol/src/canonical-json.ts:43-46 | Parsing a printed string, before any further text, gives back the string, lone surrogates included |
| JsonRoundTrip.NumberRoundTrip | packages/federation-protocol/src/canonical-json.ts:47-52 | A number in its normal form is read back whole before any text that cannot continue it |
| JsonRoundTrip.ValueRoundTrip | packages/federation-protocol/src/canonical-json.ts:115-129 | Parsing a printed value before any boundary gives back the value and the rest |
| JsonRoundTrip.StringifyRoundTrip | packages/federation-protocol/src/canonical-json.ts:115-129 | Parsing the whole text of a printed value gives back the value |
| JsonCanonical.PrintIsSortedStringify | packages/federation-protocol/src/canonical-json.ts:32-95 | The canonical printer prints what plain printing prints of the value with all keys sorted |
| JsonCanonical.NormMeans | packages/federation-protocol/src/canonical-json.ts:78-92 | Sorting the keys keeps the meaning: every key keeps its value, all the way down |
| JsonCanonical.SameMeaning | packages/federation-protocol/src/canonical-json.ts:78-92 | Values of one meaning have the same sorted form |
| JsonCanonical.PrintRoundTrip | packages/federation-protocol/src/canonical-json.ts:32-95 | Parsing the canonical text gives the value back up to key order |
| JsonCanonical.PrintSeparatesMeanings | packages/federation-protocol/src/canonical-json.ts:98-100 | Two values have the same canonical text exactly when they are equal up to key order |
| JsonCanonical.CanonicalOfNorm | packages/federation-protocol/src/canonical-json.ts:98-100 | Sorting the keys first changes neither the canonical text nor whether there is one |
| JsonCanonical.AcceptsPrinted | packages/federation-protocol/src/canonical-json.ts:115-129 | The canonical reader accepts every canonical text and returns the value |
| JsonAcceptance.ParsedWellFormed | packages/federation-protocol/src/canonical-json.ts:115-129 | Whatever parses has different keys in every object and normal numbers |
| JsonAcceptance.AcceptsExactlyPrinted | packages/federation-protocol/src/canonical-json.ts:115-129 | The canonical reader accepts exactly the texts the canonical printer makes of some value |
| JsonAcceptance.OneTextPerMeaning | packages/federation-protocol/src/canonical-json.ts:115-129 | Two accepted texts are equal exactly when their values have the same meaning |
| JsonAcceptance.RefusesMarkAndSpace | packages/federation-protocol/src/canonical-json.ts:115-129 | A text that starts with a byte order mark or white space is refused |
| JsonAcceptance.RefusesRepeatedKeys | packages/federation-protocol/src/canonical-json.ts:115-129 | Of an object's text, only one with different keys is accepted |
| JsonGraph.Canonicalizer.Canonicalize | packages/federation-protocol/src/canonical-json.ts:32-95 | The recursion over shared objects leaves the set of open objects as it was and prints the tree the object unfolds to, or refuses |
| JsonGraph.CycleHasNoTree | packages/federation-protocol/src/canonical-json.ts:56-59 | An object inside itself unfolds to no finite tree at any depth |
| JsonGraph.TreeUnfolds | packages/federation-protocol/src/canonical-json.ts:60-92 | What unfolding to a bounded depth finds is the tree of the object, and within that depth |
| JsonGraph.CanonicalOf | packages/federation-protocol/src/canonical-json.ts:98-100 | The text is the canonical text of the tree the object unfolds to, refused where that is, and a text is given only where there is a tree |
| SignatureDer.EncodedLength | packages/federation-protocol/src/signature-profile.ts:77-94 | Scalars in range encode to 8 to 72 bytes, 71 with a low s |
| SignatureDer.DecodeEncode | packages/federation-protocol/src/signature-profile.ts:47-94 | Decoding what was encoded gives back both scalars, for all in range |
| SignatureDer.EncodeDecode | packages/federation-protocol/src/signature-profile.ts:15-75 | Encoding what was decoded gives back every accepted byte string: there is one encoding only |
| SignatureDer.NormalizeShortens | packages/federation-protocol/src/signature-profile.ts:96-100 | Normalisation fails exactly on what does not decode, gives 8 to 71 bytes and never more than it got |
| SignatureDer.NormalizeIsLow | packages/federation-protocol/src/signature-profile.ts:96-106 | It keeps r, makes s the lower of s and n - s, and its result is accepted as low |
| SignatureDer.LowSIsNormalForm | packages/federation-protocol/src/signature-profile.ts:102-106 | What is accepted as low is exactly what normalisation gives, and exactly what it leaves as it is |
| SignatureDer.SameNormalForm | packages/federation-protocol/src/signature-profile.ts:96-100 | Two signatures normalise to the same bytes exactly when they agree on r and on s up to negation |
| RecordSignature.Base64RoundTrip | packages/organization-protocol/src/record-envelope-v4.ts:540-559 | The base64 of any bytes fits the canonical pattern and decodes back |
| RecordSignature.LowSLength | packages/organization-protocol/src/record-envelope-v4.ts:540-559 | A low-S signature has 8 to 71 bytes, inside the length bound of a record |
| RecordSignature.AcceptsExactlySigned | packages/organization-protocol/src/record-envelope-v4.ts:540-608 | A record's signature text is accepted exactly when it is the base64 of bytes the signer check lets through, and decodes to those |
| RecordSignature.NormalizedSurvives | packages/organization-protocol/src/record-envelope-v4.ts:594-608 | Every decodable signature, normalised and written as base64, is read back by the record as its normal form |
| Utf8.ValidUtf8 | packages/organization-api/src/person-documents-v1.ts:129-141 | The index loop accepts exactly the encodings of sequences of Unicode scalar values (RFC 3629, section 4) |
| Utf8.Utf8Steps | packages/organization-api/src/person-documents-v1.ts:133-138 | Bytes are such an encoding exactly when the lead byte and its followers are well formed and the rest is one |
| Utf8.DecodedLength | packages/organization-api/src/person-documents-v1.ts:45 | The bytes counted of decoded text are the bytes it was decoded from, and never fewer than its UTF-16 units |
| Utf8.MeasuredIsScalar | packages/organization-api/src/person-documents-v1.ts:45 | The count refuses exactly text with lone surrogates; other text is the UTF-16 of some scalar values |
| Utf8.UnitsWithinBytes | packages/organization-api/src/person-ask-progress-v3.ts:54-56 | UTF-8 bytes are never fewer than UTF-16 units |
| AskEvents.StreamEventRebuilds | packages/organization-api/src/person-ask-progress-v3.ts:270-284 | Validating an event again gives the same event, terminal or not as before |
| AskEvents.StreamEventWellFormed | packages/organization-api/src/person-ask-progress-v3.ts:270-284 | A validated event can be printed and parsed, and is within the event bound unless it is an error |
| AskFraming.EventLine | packages/organization-api/src/person-ask-progress-v3.ts:286-301 | The data line of every formatted event has no line break and fits the line bound |
| AskFraming.NormLength | packages/organization-api/src/person-ask-progress-v3.ts:240-244 | Measuring the canonical text measures the sent text: key order does not change the length |
| AskDecoder.Decoder.Line | packages/organization-api/src/person-ask-progress-v3.ts:307-323 | One line changes the pending data and the terminal flag as the line rules say, or is refused |
| AskDecoder.Decoder.Push | packages/organization-api/src/person-ask-progress-v3.ts:324-336 | A push yields the events of the lines it completes and keeps the unfinished rest, or is refused |
| AskDecoder.Decoder.End | packages/organization-api/src/person-ask-progress-v3.ts:337-340 | The end is accepted exactly with nothing buffered, no pending data and a terminal event seen |
| AskDecoder.Decode | packages/organization-api/src/person-ask-progress-v3.ts:303-341 | A decoder fed all pieces and ended yields what the specification of the whole run says |
| AskChunks.DecodedIsWhole | packages/organization-api/src/person-ask-progress-v3.ts:324-336 | Under any cutting, decoding is that of the joined text, unless some push leaves an unfinished line over the bound |
| AskChunks.FittingDecodes | packages/organization-api/src/person-ask-progress-v3.ts:324-336 | For text whose lines all fit, events and success depend on the joined text only |
| AskChunks.CuttingShowsOnlyInLongLines | packages/organization-api/src/person-ask-progress-v3.ts:324-336 | An accepted text decodes the same under every cutting exactly when all its lines fit the bound |
| AskStream.AcceptsExactlyFrames | packages/organization-api/src/person-ask-progress-v3.ts:303-341 | The accepted texts are exactly well-formed frames, the last one alone terminal, with comments and blank lines before each, comments inside, and blank lines after the last, and the events are the frames' |
| AskStream.FramesDecode | packages/organization-api/src/person-ask-progress-v3.ts:303-341 | Well-formed frames decode to their events |
| AskStream.FindFrames | packages/organization-api/src/person-ask-progress-v3.ts:307-323 | A successful run over lines gives the frames it read |
| AskRoundTrip.StreamRoundTrip | packages/organization-api/src/person-ask-progress-v3.ts:286-341 | Any step events and one terminal event with heartbeats between, formatted, joined and cut into any pieces, decode to the same events and end well |
| AskRoundTrip.LongCommentDependsOnCutting | packages/organization-api/src/person-ask-progress-v3.ts:324-336 | A text with a comment over the bound that is accepted in one push and refused in two |
| Timestamps.StringOrderIsTime | packages/federation-protocol/src/identifiers.ts:47-92 | Of accepted timestamps, string order is the order of the instants, and equal strings are equal instants |
| Timestamps.MeetingsEndAfterTheyStart | packages/organization-protocol/src/record-payload.ts:122-159 | The string comparisons accept exactly meetings whose scheduled and actual ends are not before their starts |
| ApprovalBrief.CheckSignals | packages/organization-protocol/src/record-payload.ts:311-390 | The loop with its shared id set accepts exactly well-formed signals of one kind with new and different ids, and adds those ids |
| ApprovalBrief.CheckLinks | packages/organization-protocol/src/record-payload.ts:392-408 | It accepts exactly rationales that support other signals of the brief |
| ApprovalBrief.CheckBrief | packages/organization-protocol/src/record-payload.ts:415-531 | The three collections checked in turn are accepted exactly when every signal is well formed in its collection, all ids differ and all links stay inside |
| ApprovalSubset.Subset | packages/organization-protocol/src/approval-decision-record-input-v2.ts:134-157 | The subset is made exactly of a valid brief and a group that fits it, and is again a valid brief |
| ApprovalSubset.ShareHasItems | packages/organization-protocol/src/approval-decision-record-input-v2.ts:153-154 | The subset's items are exactly the group's, in brief order |
| ApprovalSubset.ShareIsBrief | packages/organization-protocol/src/approval-decision-record-input-v2.ts:134-157 | Every subset is a valid brief: ids stay different and pruned links stay inside it |
| ApprovalSubset.ShareTwice | packages/organization-protocol/src/approval-decision-record-input-v2.ts:134-157 | Taking the subset of a subset changes nothing |
| ApprovalSubset.ProjectsReadNoQuote | packages/organization-protocol/src/approval-decision-record-input-v2.ts:144-146 | No signal in a project's subset carries a quote |
| ApprovalGroups.GroupRoutes | services/organization-authority/src/composition/approval-decision-projection-v1.ts:81-99 | The grouping loop gives one group for each destination, in the order of its first item, with its items in order; it refuses exactly a misplaced `private` |
| ApprovalGroups.RoutedOnce | services/organization-authority/src/composition/approval-decision-projection-v1.ts:83-93 | Each kept item is in exactly one group, that of its own projects |
| ApprovalGroups.OneTakesLoose | services/organization-authority/src/composition/approval-decision-projection-v1.ts:95-98 | At most one group takes the reasons that support nothing |
| ApprovalGroups.GroupInOrder | services/organization-authority/src/composition/approval-decision-projection-v1.ts:83-93 | A group's items are in the order of the routes |
| ApprovalGroups.GroupsFit | services/organization-authority/src/composition/approval-decision-projection-v1.ts:137-147 | Every group of routes that name the brief's items fits the brief, and its subset holds its items in its order |
| ApprovalRecords.CheckOwners | packages/organization-protocol/src/approval-decision-record-input-v2.ts:254-264 | The loop over the prior index accepts exactly well-formed owners that name actions once each, in brief order |
| ApprovalRecords.ValidateRecord | packages/organization-protocol/src/approval-decision-record-input-v2.ts:212-267 | It accepts exactly records whose destination, id, routes, items and owners agree |
| ApprovalRecords.EveryRecordValidates | services/organization-authority/src/composition/approval-decision-projection-v1.ts:143-172 | Every record built of a decided brief validates |
| ApprovalRecords.ItemsConserved | services/organization-authority/src/composition/approval-decision-projection-v1.ts:143-172 | Every kept item is in exactly one of the records |
| ApprovalRecords.RecordIdsDiffer | packages/organization-protocol/src/approval-decision-record-input-v2.ts:98-109 | No two records of a decision have the same id |
| ApprovalRecords.ReasonInOneProject | packages/organization-protocol/src/approval-decision-record-input-v2.ts:147-152 | A reason is in at most one project's record |
| ApprovalRecords.ProjectReasons | packages/organization-protocol/src/approval-decision-record-input-v2.ts:148 | A project's record has a reason exactly when it supports something and all it supports is the project's |
| ApprovalRecords.PrivateReasons | packages/organization-protocol/src/approval-decision-record-input-v2.ts:149-151 | A private record has a reason exactly when it supports one of its items, or supports nothing and the group takes such reasons |
| ApprovalRecords.LooseReasonOnce | packages/organization-protocol/src/approval-decision-record-input-v2.ts:149 | A reason that supports nothing is in at most one record |
| ApprovalRecords.LooseReasonKept | services/organization-authority/src/composition/approval-decision-projection-v1.ts:95-98 | It is in one exactly when some group is private |
| ReleaseExecution.Control.ExecuteRequest | tools/authority-staging-release-host.py:503-596 | The checks before the guard, the guard, the work and the cleanup leave the files and answer as the protocol's steps do, whichever of them fails, before or after its effect |
| ReleaseExecution.Control.ExecutePinned | tools/authority-staging-release-host.py:599-675 | The operation log, the kept request, the operation and its result do so, from the first look at the log on |
| ReleaseExecution.Control.InstallTools | tools/authority-staging-release-host.py:626-652 | The loop over the tools takes the protocol's install steps and ends in `installed` or in a failure to store |
| ReleaseExecution.ExecuteIsRun | tools/authority-staging-release-host.py:503-675 | An execution left to itself is a run of the protocol with the same files and answer |
| ReleaseExecution.SmoothInstall | tools/authority-staging-release-host.py:622-669 | A new install whose tools pass and where nothing goes wrong stores `installed`, replaces exactly the tools sent and frees the guard |
| ReleaseSafety.SafeRun | tools/authority-staging-release-host.py:525-675 | Every step of every execution, crash, replay or cleared guard keeps the invariant: running executions hold the guard, and each finds the log and the tools as its next step relies on |
| ReleaseSafety.OneInside | tools/authority-staging-release-host.py:525-531 | In every reachable state at most one execution is inside |
| ReleaseSafety.CalledAtMostOnce | tools/authority-staging-release-host.py:603-618 | Over every run, the wrapper is called at most once for each operation id |
| ReleaseSafety.ResultNeverChanges | tools/authority-staging-release-host.py:105-111 | A stored result never changes |
| ReleaseSafety.AnswersRun | tools/authority-staging-release-host.py:603-609 | Every stored result handed back is in the log under the id and digest of the request it answers |
| ReleaseSafety.SameStoredResult | tools/authority-staging-release-host.py:603-609 | Executions of one operation that hand back a stored result hand back the same |
| ReleaseSafety.SpentForGood | tools/authority-staging-release-host.py:603-618 | Once no execution is on its way to the wrapper, by an end or a crash, a logged operation never calls it again |
| ReleaseReplay.ReplayAnswers | tools/authority-staging-release-host.py:525-612 | Whatever other executions, crashes and cleared guards come in between, an execution that finds its operation in the log ends only in what the log tells at that look, an error, or a lost control path; undisturbed, exactly in the first |
| ReleaseReplay.ReplayToTheEnd | tools/authority-staging-release-host.py:525-612 | A replay with the guard free, left to itself, hands back the result exactly when it was stored whole under its digest, incomplete exactly when there is no result file, and an error otherwise, and leaves the files as they were |
| ReleaseReplay.UnfinishedResultRaises | tools/authority-staging-release-host.py:105-111 | From any first world there is a run in which the wrapper is called, its execution dies with the result file made but not written, and an undisturbed replay ends in an error |
| ReleaseSafety.InstallOldOrNew | tools/authority-staging-release-host.py:626-652 | From an admitted install until another is admitted, whatever crashes, each tool is as it was or as the install leaves it |
| ReleaseSafety.InstallMayGoOn | tools/authority-staging-release-host.py:486-499 | In every reachable state a later install of the same digests passes the tool check |
| ReleaseSafety.InstalledMeansReplaced | tools/authority-staging-release-host.py:651-669 | Along any run, `installed` is stored only by a step of that operation's execution after which every tool sent has its new digest |
| ConfluenceRevalidation.RunBound | providers/confluence/src/confluence-person-live-evidence-reader-v1.ts:231-255 | Against any server, a settled batch took at least one request and no more than it had pages missing |
| ConfluenceRevalidation.RunTakesAll | providers/confluence/src/confluence-person-live-evidence-reader-v1.ts:231-256 | The rows of a settled batch are exactly the pages asked for |
| ConfluenceRevalidation.HonestSettles | providers/confluence/src/confluence-person-live-evidence-reader-v1.ts:231-256 | A server that returns every page once, in scope and unchanged, with new continuations, settles the batch at its last answer |
| ConfluenceRevalidation.ReturnedBy | providers/confluence/src/confluence-person-live-evidence-reader-v1.ts:240-247 | Each page taken was in some answer, in scope and unchanged |
| ConfluenceRevalidation.ReturnedOnce | providers/confluence/src/confluence-person-live-evidence-reader-v1.ts:240-247 | And in one answer and row only |
| ConfluenceRevalidation.AllBound | providers/confluence/src/confluence-person-live-evidence-reader-v1.ts:224-258 | Settling all groups takes at most one request for each page |
| ConfluenceRevalidation.EveryPageReturned | providers/confluence/src/confluence-person-live-evidence-reader-v1.ts:224-258 | Success means that the page of every group was returned, in scope and as each of its items remembers it |
| ConfluenceReader.Reader.RevalidateBatch | providers/confluence/src/confluence-person-live-evidence-reader-v1.ts:227-256 | Whatever the server answers, the loop makes at most as many requests as the batch has ids, and succeeds exactly when the batch settles |
| ConfluenceReader.Reader.RevalidateMetadata | providers/confluence/src/confluence-person-live-evidence-reader-v1.ts:224-258 | Batch after batch it makes at most one request for each page, and succeeds exactly when all settle |
| ConfluencePaging.OpenWithinLimit | providers/confluence/src/confluence-person-live-evidence-reader-v1.ts:279-288 | One open never releases more items than its limit, its continuation included |
| ConfluencePaging.FollowedCoversPage | providers/confluence/src/confluence-person-live-evidence-reader-v1.ts:279-288 | Following continuations of an unchanged page with any limits of at least two ends and releases what one pass over all sections would |
| ConfluencePaging.ReleasedIs | providers/confluence/src/confluence-person-live-evidence-reader-v1.ts:283-286 | That is every non-blank section once, in order |
| ConfluenceReader.Reader.Counted | providers/confluence/src/confluence-person-live-evidence-reader-v1.ts:98-101 | Every request counts toward the bound on all, and a content request, unless that bound refuses it, toward its own |
| ConfluenceReader.Reader.Verify | providers/confluence/src/confluence-person-live-evidence-reader-v1.ts:109-122 | A connection check succeeds exactly when it passes and its own requests are within the bound on all |
| ConfluenceReader.Reader.OpenItem | providers/confluence/src/confluence-person-live-evidence-reader-v1.ts:260-296 | The open succeeds exactly when both checks pass, all its requests and its content request are within their bounds and handles are left; it releases the sections the specification says and remembers exactly those |
| ConfluenceReader.Reader.Open | providers/confluence/src/confluence-person-live-evidence-reader-v1.ts:354-359 | An open by handle succeeds exactly with a proper limit, a known handle, passing checks, requests and handles left and an unchanged page |
| ConfluenceReader.ReadWhole | providers/confluence/src/confluence-person-live-evidence-reader-v1.ts:260-296 | A client that follows the continuations on a live reader gets every non-blank section once, in order, exactly when all checks pass and handles, content requests and requests in all suffice |
| ZipHeaders.FindEnd | packages/organization-api/src/person-documents-v1.ts:84-88 | The backward scan finds the last end record whose comment reaches the end of the file, or there is none |
| ZipHeaders.MemberInBounds | packages/organization-api/src/person-documents-v1.ts:94-111 | A member's headers, names and data lie inside the bytes, the directory's inside its span and the rest before it, and both names are equal |
| ZipHeaders.ReadMember | packages/organization-api/src/person-documents-v1.ts:94-122 | Reading a member touches only bytes that are there and gives exactly the member the two headers agree on |
| WordContainer.WalkDirectory | packages/organization-api/src/person-documents-v1.ts:91-126 | The loop accepts exactly when some chain of that many members fills the directory span, is pairwise disjoint, has unique ASCII names and both Word parts |
| WordContainer.NeighboursDecide | packages/organization-api/src/person-documents-v1.ts:124-125 | Comparing neighbours sorted by start decides whether all members are pairwise disjoint |
| WordContainer.IsWordDocumentContainer | packages/organization-api/src/person-documents-v1.ts:81-127 | It accepts exactly files whose last end record names one disk, a matching count and a directory that ends at it and has those members |
| WordContainer.MembersFitBeforeDirectory | packages/organization-api/src/person-documents-v1.ts:121-126 | Taken together, the members of an accepted file are no longer than what lies before the directory |

## Left out

- SearchEngine.Engine.WarmActive: the validator's own search for the word "warm", whose result is discarded, and the schema, pragma and ownership checks of the SQLite files are not modelled; the tables are rows in order.
- SearchBuild.CheckAtoms: the written form of a digest is not checked, because a digest is a number in the model, nor values outside the declared types; every other check of an atom is, the safe-integer bounds and the refusal of lone surrogates included.
- SearchBuild.BuildSegment: how a lineage manifest's text is parsed is a parameter, which says what its body holds if the text is canonical; failures of the disk are steps of `SearchStorage.RetrievalRoot.Stage`.
- SearchEngine.Engine.Search: a pointer whose head has a lone surrogate is answered as one that is not warm, where the code fails as it prints the pointer's key.
- SearchWarm.ReadSegment: the SQLite schema, ownership, modes and undeclared files of a segment directory are not modelled.
- SearchWarm.ValidateTree: the same file checks of the generation directory, and the discarded search, are not modelled.
- SearchStorage.RetrievalRoot.Publish: a rename, a file write and a file removal are each one step; fsync and what a power loss may undo are not modelled, nor file modes and ownership.
- SearchScope.SearchSegments: the analyzer, the score and the comparator of scores are parameters; records and exclusions are given as sets, so the validation of their arrays is not modelled.
- SearchGeneration.Build: the written form of digests and the canonical form of the state directory's path are not checked in the model, where a digest is a number and the directory a map; failures of the disk are left to `SearchStorage`.
- JsonRoundTrip.NumberRoundTrip: a number is its token; which token JavaScript prints of a double is an abstract normal form, injective and of the JSON number grammar.
- JsonGraph.CanonicalOf: values that JSON cannot hold (undefined, functions, accessors, other prototypes, sparse arrays) are refused by one branch each and not modelled, nor that JavaScript lists integer-like keys first before they are sorted.
- AskEvents.StreamEventWellFormed: the validators of steps, responses and receipts are parameters that rebuild what they accept; an error event has no byte bound of its own in the code, and none is claimed beyond the line bound.
- AskDecoder.Decoder.Push: what a decoder does after it has refused is not specified.
- ApprovalBrief.CheckBrief: the brief's header fields, the participants and the byte bound of a record are not modelled; evidence and signals are.
- ApprovalRecords.ValidateRecord: digests, coordinates and the audit reference are equalities read off one line and left out; project ids, signal ids and owner texts are checked by abstract rules; the record id is injective in proposal, projects and privacy.
- ApprovalRecords.EveryRecordValidates: the digests, coordinates and audit reference the builder copies are not modelled, so their checks are not part of what is shown to pass.
- ReleaseSafety.SafeRun: an operator takes the guard away only of an execution that is not running, and process ids are not reused; the temporary files of an install and the saved copies of old tools are not modelled.
- ReleaseExecution.Control.ExecuteRequest: which precondition fails, the content of an inspection, the capture of the wrapper's output and its time-out are one choice each; an inspection's refusal and an error are one answer; the files in the guard directory are removed with it, in one step.
- ConfluenceReader.Reader.Verify: a connection check is the number of requests it makes of its own and whether it passes; what it reads and the abort signals are not modelled.
- ConfluenceReader.Reader.RevalidateMetadata: the checks around a revalidation and its exact reads of opened pages, page metadata parsing and the text of a continuation are not modelled; an answer is rows, an optional token, or a failure.
- ConfluenceReader.Reader.OpenItem: citations enter as a version and text to follow; labels, permalinks, search, list and exact reads are left out.
- WordContainer.IsWordDocumentContainer: only the identification is modelled, not the extraction that follows, which decodes and decompresses members.
- Timestamps.StringOrderIsTime: time zones and leap seconds do not occur in the accepted form.
- The plain shape validators of the API packages, HTTP, Nango, SSM, EC2 metadata, key parsing and signature verification, the desktop and command-line programs: each would add only easy members or lies outside what can be stated here.
