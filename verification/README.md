# What RankeDB's wire, registry, seeding and key windows keep

This project models five parts of RankeDB and proves what they are for. The graph library,
ranke-go, is not part of this model: ids, the verification walk, stored records, the merge and the
vault appear as parameters that may answer in any way their type allows.

- **The result sequence and its reader** (`Cbor`, `Json`, `Framing`, `Serve`, `Reader`, `RoundTrip`,
  `Exchange`, and `Premises` for what the others assume; `CborForms`, `JsonForms` and `RecordForms` say in
  bytes what is read as what).
  The server prints a stream of results as a JSON text sequence (RFC 7464) or a CBOR sequence
  (RFC 8742) without naming the kind of a record; the client splits it and tells the kinds apart by
  their bytes. `Cbor` is the grammar of RFC 8949 section 3, with lengths, nesting, tags and the
  indefinite forms, and a decoder proved to accept exactly that grammar. `Json` is a reader for
  RFC 8259. The main result is that reading undoes writing, for every stream in either encoding, and
  that all the wire loses is how claims were grouped into routes.
- **The verification registry** (`Registry`, `RegistryHistory`, `RunRegistry`). Starting a run takes
  two critical sections with the lock dropped in between; a history is any interleaving of the atomic
  steps of any number of starts, walks, stops and removals. `RunRegistry` is the class with its fields
  updated in place, every method extending the history its fields are proved to agree with, and others
  at work wherever a method holds no lock.
- **The secret cache** (`VaultBox`, `Rotation`). Calls interleave at the points where the lock is
  dropped; a log records what began, was fetched, stored and answered, and the results are about every
  reachable log, and about every continuation after a secret is rotated.
- **The fixture generator and its delivery** (`Claims`, `Graph`, `Chain`, `Cast`, `Packages`,
  `Release`, `Clock`, `Deliver`, `Seed`). Draws are any value in their range. Claims are told apart by
  what they say and cite, as content addressing does. The loop that sends contributions up shares the
  stack and its steerable clock with other clients that ask and contribute at any point.
- **The client's contributions and key windows** (`ClientClaims`, `Contribute`, `ContributorWindow`, and
  `KeyLookup` for a lookup over the wire).

`Bytes` and `Lists` hold what the modules share. Methods that change state are stated against pure
functions of the old state, and what the source promises is proved about those functions over every
input or every run.

## Where the code and its documentation differ

The model follows the code. Where the promise fails, a lemma gives the failing case.

- `internal/core/verification.go:124-126` says the counters an operator polls advance while the walk
  runs. `absorb` runs only when the walk has ended, so they move once (`RegistryHistory.ReportIsTold`).
- `internal/core/verification.go:204` says `active` counts the runs still walking. It counts reports
  marked running, and agrees with the walks going on exactly when no start is between launching its walk
  and registering it, no stopped or removed run walks on, and no run still marked running waits for its
  ended walk to be collected
  (`RegistryHistory.ActiveAgainstWalking`; `RegistryHistory.AStartWalksUncounted` is a run of two steps,
  `RegistryHistory.ABusyRegistryMayWalkNothing` a refusal with nothing walking). So the cap bounds no
  number of walks (`RegistryHistory.WalksAreUnbounded`), and overlapping starts exceed it by exactly
  their overlap (`RegistryHistory.ActiveIsBounded`, `RegistryHistory.TheBoundIsReached`).
- `config/section.go:29-31` says a rotation takes effect within minutes. It does within a ttl exactly
  when no call under way at the rotation had fetched the old secret without storing it yet
  (`Rotation.RotationTakesEffectWithinTtl`). Such a call may store it any time later, and the old secret
  is then served off the cache for a further ttl (`Rotation.ARotationCanBeLost`). Apart from that, a
  failed fetch serves the expired secret at any time, as `config/section.go:98-103` intends
  (`Rotation.AFailedFetchServesTheExpired`, `Rotation.AnswersAreNewExactlyWhenForgotten`).
- `client/contributor.go:77-80` says a contributor claim may carry an expiry edge and a window reads
  both. `ContributorFor` reads windows against the claims of the one key, so an edge on a successor's
  claim goes unread; `ContributorWindow.LiveAgainstEveryContributor` says exactly when that matters.
- The repository's written requirements for key lifecycles end a key at its expiry, exclusive. The
  client's window (`client/contributor_window.go:26-33`) is closed: a key is live at its expiry instant
  (`ContributorWindow.AKeySignsAtItsExpiry`). The two readings differ at that instant and nowhere else
  (`ContributorWindow.ClosedAndExclusiveDiffer`, `ContributorWindow.ExpiryInstantDecides`).
- `client/read.go:104-105` returns a query's results. A stream that breaks on the server after its
  status is out ends like a whole one (`adapters/endpoints/rest_http/respond.go:25`), so its first results
  are returned as the answer; a reader can tell exactly when a report was to close it
  (`Exchange.OnlyAReportTellsABreak`). Reads of stored records ask for none, so a break may drop an expiry
  claim and `ContributorFor` return the key it retired, exactly when what was dropped retires it
  (`KeyLookup.BreaksDecide`, `KeyLookup.ABreakReturnsARetiredKey`).
- `client/seq.go:219-238` finds a key in an empty indefinite-length map: its break byte, so such a
  record is read as a claim rather than refused (`RoundTrip.FirstMapKeyMajorOfEmpty`).
- `cmd/generator/release_test.go:370-372` pins at least two days between a snapshot and its scan. The
  code draws two days or more before triage and scans two to six hours before it, so some draws fall
  short (`Packages.QuietForDays`, `Packages.TheQuietCanBeShort`).
- `adapters/sequencer/clock_dev.go:18-19` relies on steering ahead of real time. A first `Advance` may
  land behind readings already taken (`Clock.FirstAdvanceDecides`).

## Premises

`RoundTrip.Lawful` and `RoundTrip.Sound` state what the library is taken to do: ids print injectively as
ASCII shorter than 2^64 and parse back; a report's CBOR is a non-empty text-keyed map and its JSON an
object without both `type` and `created_at`, and either reads back; a claim record is an integer-keyed
CBOR map or a JSON object with both; an envelope is a tagged item whose record is accepted, in CBOR only;
a route has fewer than 2^64 ids. The parser of media types, which the standard library supplies, makes
nothing else of the two a response is sent under (`Exchange.NamesKept`).
`Premises.LawfulLibraryExists` shows a library that is so, and `Premises.SoundResultsExist` results of
every kind that are.
A claim's id identifies it (`ContributorWindow.IdsIdentify`), ids being hashes of what they name.

## Model

| member | source | states |
|---|---|---|
| `Cbor.ParseOfEncode` | client/seq.go:78-92 | an item of RFC 8949 section 3 is read back whole from its encoding, whatever bytes follow it |
| `Cbor.EncodeOfParse` | client/seq.go:78-92 | whatever the decoder reads is the encoding of a valid item and the rest; it accepts nothing else |
| `Cbor.WellFormedIffEncoding` | client/seq.go:78-92 | a byte string is one well-formed item exactly when it is the encoding of some item |
| `Cbor.PrefixFree` | client/seq.go:78-92 | no well-formed item is a proper prefix of another, which is what lets a sequence go without separators |
| `Cbor.SplitOfConcat` | client/seq.go:78-92 | splitting the concatenation of any well-formed items returns exactly those items (RFC 8742 section 2) |
| `Cbor.ConcatOfSplit` | client/seq.go:78-92 | a sequence that splits is the concatenation of its records, each a well-formed item: nothing lost, nothing invented |
| `CborForms.WellFormedIffForm` | client/seq.go:78-92 | a byte string is one item exactly when it is of a form of RFC 8949 section 3, spelled out in bytes: an integer, a string, an array, a map or a tag by the number its head announces, a simple value or float, or an indefinite form closed by a break; and then it is read whole whatever follows |
| `CborForms.HeadAnnounces` | client/seq.go:78-92 | the bytes of a head carry a number inline or in one, two, four or eight bytes, high byte first, and no others are a head |
| `CborForms.MapIsRead` | client/seq.go:78-92 | a head that announces n of a map, n keys each with its value in turn, is one item, and exactly what follows is left over |
| `CborForms.ArrayIsRead` | client/seq.go:78-92 | so is a head that announces n of an array and n items |
| `CborForms.TagIsRead` | client/seq.go:78-92 | so is a tag and one item |
| `CborForms.SevenIsSimple` | client/seq.go:78-92 | of major type 7 the simple values below 24, those of 32 and more in a second byte, and the three floats are items, and nothing else is |
| `CborForms.ShortHeadIsShortest` | internal/core/serve.go:177-189 | a string or array is written with a head that announces its length, and none that does is shorter |
| `Cbor.MarshalTextIsItem` | internal/core/serve.go:177-189 | a text written in the shortest form is one well-formed text string that reads back as that text |
| `Cbor.MarshalTextsIsItem` | internal/core/serve.go:177-189 | a list of texts is one well-formed array holding exactly those texts |
| `Json.JsonHoldsNoSeparator` | client/seq.go:56-74 | no JSON text holds the byte 0x1e, since control characters in a string are escaped (RFC 8259 section 7) |
| `JsonForms.NumberReads` | client/seq.go:112-116 | every number of RFC 8259 section 6 is read, as it is written |
| `JsonForms.NumberOnly` | client/seq.go:112-116 | and nothing else is read as a number |
| `JsonForms.StringReads` | client/seq.go:112-116 | a string of any bytes, short escapes, code units and surrogate pairs is read as what they mean |
| `JsonForms.LiteralsRead` | client/seq.go:112-116 | true, false and null are read as such |
| `JsonForms.ListReads` | client/seq.go:124-137 | a list of anything read, with space where it may stand, is read as the list of it |
| `JsonForms.ObjectReads` | client/seq.go:138-152 | an object of anything read, with space where it may stand, is read as its fields in order |
| `JsonForms.TextOf` | client/seq.go:112-116 | a value with space around it is a JSON text |
| `Json.MarshalTextParses` | internal/core/serve.go:177-189 | an id written as a JSON string reads back as the same text, the escapes of quotes, markup and control characters included |
| `Json.EscapeByteTells` | internal/core/serve.go:177-189 | a byte is written as it is, but for a quote, a backslash, control characters and the three of markup |
| `Json.EscapeIsSafe` | internal/core/serve.go:177-189 | so no markup and no control character is written |
| `Json.MarshalTextsParses` | internal/core/serve.go:177-189 | a route of ids written as a JSON list reads back as the same texts in order |
| `Framing.ByteReader.ReadBytes` | client/seq.go:62 | hands over everything up to and including the first separator, or everything there is and how the stream ended |
| `Framing.SplitJSONSeq` | client/seq.go:58-74 | returns the trimmed non-empty chunks between separators of a whole stream, and only an error when the stream breaks |
| `Framing.JsonRecordsOfFrames` | client/seq.go:58-74 | on the framing of any trimmed records free of 0x1e the split returns exactly those records (RFC 7464 section 2) |
| `Framing.TrimOfFramed` | internal/core/serve.go:146-151 | trimming undoes the line feed a record ends with and takes nothing else off a trimmed record |
| `Framing.TrimSpaceIs` | client/seq.go:63 | trimming takes white space off both ends and nothing else |
| `Framing.TrimSpaceLeavesNone` | client/seq.go:63 | and leaves none there |
| `Framing.NoSpaceAtStart` | client/seq.go:63 | where no length of white space is found at the start, none of its characters stands |
| `Framing.NoSpaceAtEnd` | client/seq.go:63 | nor at the end |
| `Framing.SpaceRuneIs` | client/seq.go:63 | what is trimmed is the UTF-8 form of each code point with the White_Space property, and of no other |
| `Framing.SplitCBORSeq` | client/seq.go:78-92 | answers exactly when the stream is whole and a concatenation of well-formed items, and then with those items |
| `Serve.Writer.Write` | internal/core/serve.go:160 | an io.Writer that may fail or write short at any byte and reports what it took |
| `Serve.WriteParts` | internal/core/serve.go:154-167 | writes the non-empty parts in order; the count is what the writer took, and nothing follows a failure |
| `Serve.WriteRecord` | internal/core/serve.go:154-167 | one record between its framing's delimiters, counted the same way, or a prefix of it when the writer fails |
| `Serve.WriteResult` | internal/core/serve.go:86-131 | the record or records a result's kind names, each framed; a native kind, or the stream's own report, is refused with nothing written |
| `Serve.WriteTo` | internal/core/serve.go:56-83 | puts out the framed results in order and the report last, stepping over the stream's own report element; the count is the bytes taken, and a failed writer took a prefix and nothing more |
| `Serve.FramesTell` | internal/core/serve.go:146-167 | a JSON record stands between the byte 0x1e and a line feed, a CBOR record bare, each under its media type by name |
| `Serve.FramesAppend` | internal/core/serve.go:56-83 | the bytes of two lists of records are the bytes of the one after the other |
| `Reader.DecodeEach` | client/read.go:116-124 | reads every record or fails with the first that cannot be read |
| `Reader.CollectJsonIds` | client/seq.go:124-137 | a list is a route of ids exactly when every entry is a string that parses as an id, and fails with the first that is not |
| `Reader.ObjectsByKey` | client/seq.go:138-152 | an object with the keys type and created_at, whatever else it holds, is a claim; any other is for the report's reader |
| `RecordForms.TextRecordReads` | client/seq.go:164-175 | a CBOR text string is an id by its bytes, whatever the width of its length |
| `RecordForms.OpenTextRecordReads` | client/seq.go:164-175 | one in chunks is an id by their texts together |
| `RecordForms.RouteRecordReads` | client/seq.go:176-189 | an array of text strings is a route by their bytes, counted |
| `RecordForms.OpenRouteRecordReads` | client/seq.go:176-189 | or closed by a break |
| `RecordForms.MixedArrayIsRefused` | client/seq.go:176-189 | an array with an item that is no text string is refused |
| `RecordForms.MapRecordReads` | client/seq.go:190-203 | a map reads by the byte after its head: cut short, refused; a text key, a report; any other, a claim |
| `RecordForms.ReservedMapIsRefused` | client/seq.go:219-238 | a map whose head is of a reserved form is refused |
| `RecordForms.TaggedReads` | client/seq.go:204-210 | a tagged record is a stored one where the library takes it, and bad where it does not |
| `RecordForms.JsonRecordReads` | client/seq.go:112-161 | a JSON text is an id, a list a route, anything else but an object refused, and so is a record that is empty or no JSON |
| `RecordForms.ParseIdsAre` | client/seq.go:181-188 | a list of names is ids exactly when every one parses |
| `RecordForms.JsonIdsAre` | client/seq.go:124-137 | a JSON list is ids exactly when every entry is a text that parses, and else fails by the first that is not |
| `RecordForms.OthersAreRefused` | client/seq.go:211-214 | a record that opens as an integer, a byte string or a simple value is refused |
| `Reader.TrimWhiteIs` | client/seq.go:40-43 | a header that does not parse is trimmed of white characters at both ends and of nothing else |
| `Reader.FramingOf` | client/seq.go:40-54 | the framing is that whose media type the header names, bare or trimmed where it does not parse, and none for any other type |
| `Reader.SplitBody` | client/seq.go:40-54 | splits by the declared framing alone; an undeclared one is an error with nothing read |
| `Reader.Query` | client/read.go:108-125 | refuses unreadable outputs before reading, fails on an unknown type or a broken stream, and else returns the readings of every record |
| `Reader.QueryClaims` | client/read.go:130-149 | returns the stored records of a response, and an error as soon as a record is of any other kind |
| `RoundTrip.FirstMapKeyMajorIsRight` | client/seq.go:219-238 | on every non-empty well-formed map, whatever the width or form of its count, the major type found is that of the true first key |
| `RoundTrip.FirstMapKeyMajorOfEmpty` | client/seq.go:219-238 | an empty definite map shows no key and is refused; one of indefinite length shows its break as a key and is read as a claim |
| `RoundTrip.ClaimDecodes` | client/seq.go:138-143 | a claim record, integer-keyed in CBOR or typed and dated in JSON, is read as a claim with its bytes unchanged |
| `RoundTrip.ReportDecodes` | client/seq.go:190-203 | a report is read as a report in both encodings |
| `RoundTrip.WhatIsServedIsRead` | internal/core/serve.go:56-131 | for every stream and either encoding, splitting and reading what was written gives the same kinds and payloads in the same order, the report exactly once and last |
| `Premises.LawfulLibraryExists` | internal/core/serve.go:177-189 | the premises on the library can be met: a library with two ids and one report meets them all |
| `Premises.SoundResultsExist` | internal/core/serve.go:86-131 | so can those on results: for that library there are ids, claims and envelopes, singly and in routes, that meet them in each encoding that carries them |
| `RoundTrip.StoredRecordsAreRead` | client/read.go:127-149 | stored records served one by one are read back as those bytes, all of them and in order |
| `RoundTrip.BytesDetermineResults` | client/read.go:151-159 | on every output the reader accepts the bytes determine the result list and the report |
| `RoundTrip.GroupingIsInvisible` | internal/core/serve.go:90-115 | any two streams that differ only in how claims are grouped into routes put identical bytes on the wire |
| `RoundTrip.GroupingIsAllThatIsLost` | internal/core/serve.go:56-131 | two streams put identical bytes on the wire exactly when their reports are equal and so are their results with routes of claims taken apart: grouping is all the wire loses |
| `RoundTrip.RefusedOutputsAreAmbiguous` | client/read.go:151-159 | every output the reader refuses has two different answers with identical bytes |
| `Exchange.Ask` | adapters/endpoints/rest_http/respond.go:20-26 | the server's writing under its media type and the client's reading of what was accepted, run together: a whole stream comes back as its results and its report, one that stops as what it carried, a lost connection as an error |
| `Exchange.FramingIsKept` | internal/core/serve.go:140-151 | the reader of a response splits it by the framing that wrote it |
| `Exchange.OnlyAReportTellsABreak` | adapters/endpoints/rest_http/respond.go:25 | a reader can tell a stream that broke from one that did not exactly when every result carries bytes and a report was to close it |
| `Exchange.AReportEndsTheWhole` | client/read.go:104-107 | an answer closes with a report exactly when the stream has one and was written to its end |
| `Registry.RunIdSpells` | internal/core/verification.go:74 | an id is a fixed prefix and the counter in decimal |
| `Registry.RunIdInjective` | internal/core/verification.go:73-74 | ids printed from different counters differ |
| `Registry.StepKeepsInv` | internal/core/verification.go:63-202 | each critical section and each step of a walk keeps the registry's invariant: order and runs agree without duplicates, reserved ids are fresh, reports carry their own key and are settled as their status says |
| `Registry.ReachableInv` | internal/core/verification.go:63-202 | so every reachable interleaved state satisfies it |
| `RegistryHistory.ActiveIsBounded` | internal/core/verification.go:69-96 | running reports and pending starts together never exceed max - 1 + P when at most P starts overlap |
| `RegistryHistory.OneStartAtATimeKeepsTheCap` | internal/core/verification.go:63-100 | without overlapping starts the running reports keep to the documented cap |
| `RegistryHistory.TheBoundIsReached` | internal/core/verification.go:69-96 | for every cap and every P some history reaches max - 1 + P running reports, so the bound is exact |
| `RegistryHistory.ActiveAgainstWalking` | internal/core/verification.go:204-213 | the walks going on that active misses are exactly those of a start not yet registered and of runs removed or stopped; the runs it counts for no walk are exactly those whose walk has ended uncollected; it counts the walks exactly when there are none of either |
| `RegistryHistory.AStartWalksUncounted` | internal/core/verification.go:80-94 | after two steps, a reservation and the launch of its walk, a walk goes on that nothing counts |
| `RegistryHistory.ABusyRegistryMayWalkNothing` | internal/core/verification.go:204-213 | for every cap some history ends with a start refused as busy while no walk goes on |
| `RegistryHistory.WalksAreUnbounded` | internal/core/verification.go:165-202 | any number of walks may go on at once although starts never overlap, since stopping frees the slot before the walk ends |
| `RegistryHistory.ReportIsTold` | internal/core/verification.go:103-139 | every retained report is what its history says: stopped exactly when the stop came before the collection, complete or error by the walk's error, counters and OK set by the collection alone |
| `RegistryHistory.CollectedReportTells` | internal/core/verification.go:103-139 | a collected run's report has the walk's count, its verdict, its end, and for each finding in order the id and error or empty texts, and the run's own layer |
| `RegistryHistory.RegisteredReportTells` | internal/core/verification.go:86-96 | a report has the configuration, head and start it was registered with, and tells of nothing until its walk is collected |
| `RegistryHistory.StatusIsFinal` | internal/core/verification.go:113-120 | a report leaves running at most once and never changes status again |
| `RegistryHistory.StopAnswers` | internal/core/verification.go:180-184 | whatever comes between a stop's mark and its second read, it answers not found exactly when the run was removed, and else its report stopped, the findings in if its walk was collected meanwhile |
| `RegistryHistory.GoneStaysGone` | internal/core/verification.go:106-111 | an id that is issued but neither retained nor pending is never registered again |
| `RegistryHistory.RemovedForGood` | internal/core/verification.go:188-202 | a removed run never comes back, even when its walk ends later |
| `RegistryHistory.OrderIsRegistrationOrder` | internal/core/verification.go:94-96 | the order kept is the order of registration over the retained runs |
| `RegistryHistory.ListedIsReversed` | internal/core/verification.go:153-163 | the listing is that order reversed, one report a run |
| `RunRegistry.RemoveID` | internal/core/verification.go:235-242 | compacts in place: the one id dropped, the rest kept in order, what lies past them untouched |
| `RunRegistry.RunRegistry.Active` | internal/core/verification.go:205-213 | counts the runs marked running |
| `RunRegistry.RunRegistry.ReserveID` | internal/core/verification.go:68-75 | refuses at the cap, else hands out the next id and nothing more |
| `RunRegistry.RunRegistry.AddRun` | internal/core/verification.go:93-96 | registers the report under its id and appends the id to the order |
| `RunRegistry.RunRegistry.Start` | internal/core/verification.go:63-100 | whatever others do before the walk is launched and again before it is registered: refused without an archive or at the cap, given up with its id spent when the walk does not begin, else registered; the history is that of its steps and theirs |
| `RunRegistry.RunRegistry.Meanwhile` | internal/core/verification.go:63-202 | any legal steps of others, played on the fields, leave what the history says |
| `RunRegistry.RunRegistry.CollectRun` | internal/core/verification.go:103-122 | folds the walk's outcome into the report if it is still retained |
| `RunRegistry.RunRegistry.Get` | internal/core/verification.go:142-150 | the report of a retained run, under its own id, exactly when the order lists it; else not found |
| `RunRegistry.RunRegistry.List` | internal/core/verification.go:153-163 | every retained report, newest first |
| `RunRegistry.RunRegistry.MarkStopped` | internal/core/verification.go:168-181 | the critical section of a stop: not found or the finished report at once, or exactly a running run marked stopped |
| `RunRegistry.RunRegistry.Stop` | internal/core/verification.go:167-185 | cancels exactly a running run; whatever others do before its second read, it answers not found exactly when they removed the run, else with its report stopped, and any other run is left as it is |
| `RunRegistry.RunRegistry.RemoveRun` | internal/core/verification.go:188-202 | drops the record and its place in the order whatever its status |
| `VaultBox.StepKeepsInv` | config/section.go:61-110 | each step of an interleaved call keeps the cache, the calls under way and the answers given in agreement with what was fetched and stored |
| `VaultBox.ReachableInv` | config/section.go:61-110 | so every reachable state does |
| `VaultBox.AnswersAgreeWithTheVault` | config/section.go:78-110 | a value given was fetched before for the same ref; given without a fetch, it was stored less than a ttl ago; and none is given because the vault could not be built |
| `VaultBox.StoredNeverFailsAgain` | config/section.go:75-104 | a call that begins after something was stored for its ref does not fail |
| `VaultBox.CachedMeansBuilt` | config/section.go:65-95 | anything cached, or known to a call under way, means the once-only build succeeded, so the fallback of lines 93 to 95 is never reached |
| `VaultBox.ConstantSecretIsTransparent` | config/section.go:75-110 | against a secret that does not change the cache cannot be told from the vault |
| `Rotation.CacheServesTheNewExactlyWhenSpent` | config/section.go:78-110 | from any state, every continuation whose fetches yield the new secret serves only it off the cache from an instant on, exactly when what is cached is new or expired by then and no call under way has fetched another and not stored it |
| `Rotation.RotationTakesEffectWithinTtl` | config/section.go:29-31 | a rotation takes effect within a ttl exactly when no call under way at the rotation has fetched the old secret without storing it yet |
| `Rotation.AnswersAreNewExactlyWhenForgotten` | config/section.go:98-110 | with failed fetches counted in, every answer is the new secret exactly when nothing older is cached or known to a call under way |
| `Rotation.ARotationCanBeLost` | config/section.go:98-109 | a fetch of the old secret may be stored any time after the rotation, past the ttl of the new one, and the old secret is then served off the cache to the end of a further ttl |
| `Rotation.AFailedFetchServesTheExpired` | config/section.go:98-103 | a failed fetch gives the last known secret however long ago it expired |
| `VaultBox.AloneIsARun` | config/section.go:78-110 | a call with nothing in between is one of the interleavings |
| `VaultBox.FirstBuildDecides` | config/section.go:61-73 | over every run the first build decides for good: made if there is a vault to make and it could be, else failed |
| `VaultBox.EveryFailureIsForGood` | config/section.go:61-97 | after a failed build nothing is ever fetched, stored or given |
| `VaultBox.LastStoreIsServed` | config/section.go:84-109 | a call within a ttl of the last store for its ref is answered with that value at once, and a later one goes to the vault with it in hand |
| `VaultBox.VaultBox.Get` | config/section.go:61-73 | builds the vault at most once and remembers a failure |
| `VaultBox.VaultBox.Secret` | config/section.go:78-110 | a fresh value as it is, else a fetch stored for a ttl, else what was known, else nothing, whatever other calls do to the box while this one waits |
| `VaultBox.OthersTouch` | config/section.go:61-110 | steps of other calls change the box by the builds and stores they make alone, and leave a call under way as it is |
| `VaultBox.UnbuiltAmid` | config/section.go:91-97 | in any interleaving a call whose build fails ends with that box and answer |
| `VaultBox.FetchedAmid` | config/section.go:98-110 | and so does one that fetches, whether the fetch fails or its value is stored |
| `ContributorWindow.Revocation` | client/contributor_window.go:93-110 | the earliest readable end the carriers' expiry edges impose on the claim, or the error of the first that cannot be read |
| `ContributorWindow.EarliestEndIsAMinimum` | client/contributor_window.go:93-110 | that end is a minimum: an instant is no later than it exactly when no later than every end imposed, and some edge imposes it |
| `ContributorWindow.ContributorWindowOf` | client/contributor_window.go:71-89 | the claim's own bounds with the end brought forward by the carriers' expiry edges |
| `ContributorWindow.WindowMeans` | client/contributor_window.go:28-89 | a window admits an instant exactly within the claim's own bounds and no later than any expiry date naming it, and says revoked exactly when such a date ends it |
| `ContributorWindow.WindowFails` | client/contributor_window.go:71-143 | a window cannot be read exactly when one of its own bounds, or a bound of an expiry edge naming it, is no timestamp |
| `ContributorWindow.WindowSays` | client/contributor_window.go:28-143 | read off the fields: a window fails exactly when a bound of its own, or of an expiry edge naming it, is there, not empty and no timestamp, and admits what lies within its own bounds and no later than the date of every such edge |
| `ContributorWindow.WindowIgnoresOthers` | client/contributor_window.go:93-110 | edges that are no expiry, or name another claim, change no window, whoever carries them |
| `ContributorWindow.ClosedAndExclusiveDiffer` | client/contributor_window.go:26-33 | a window read as closed and read with its end exclusive agree at every instant but the end itself, and there too when the window has not begun |
| `ContributorWindow.ExpiryInstantDecides` | client/contributor_window.go:28-110 | a claim's closed window and the exclusive reading of its bounds and expiry edges differ at exactly the instants within the window at which one of those ends falls |
| `ContributorWindow.AKeySignsAtItsExpiry` | client/contributor_window.go:26-33 | a key whose claim sets an expiry is live at that very instant and not after it |
| `ContributorWindow.WindowIgnoresOrder` | client/contributor_window.go:93-110 | neither the order nor the grouping nor the repetition of carriers and edges matters |
| `ContributorWindow.MoreCarriersNeverWiden` | client/contributor_window.go:68-89 | adding carriers never admits a new instant |
| `ContributorWindow.ContributorWindows` | client/contributor_window.go:55-66 | one window for each claim held, read against the expiries and the claims held, or an error when one cannot be read |
| `ContributorWindow.ContributorsFor` | client/contributor.go:28-47 | exactly the claims that carry the key inline, in order; no key is an error |
| `ContributorWindow.ContributorFor` | client/contributor.go:52-75 | the first claim carrying the key whose window admits the instant; an error exactly when the key is empty, a window is unreadable, or none admits it |
| `ContributorWindow.CarryingInOrder` | client/contributor.go:36-46 | the claims carrying the key are taken one by one, in order |
| `ContributorWindow.FoundIgnoresOthers` | client/contributor.go:52-75 | what else the expiries carry changes no answer of ContributorFor |
| `ContributorWindow.LiveMeans` | client/contributor_window.go:28-89 | a registration is live exactly when its own bounds admit the instant and no carrier retires it |
| `ContributorWindow.LiveAgainstEveryContributor` | client/contributor.go:52-80 | what ContributorFor finds live is live against every contributor claim in scope exactly when no claim of another key carries an expiry edge that retires it |
| `ContributorWindow.ASuccessorsExpiryGoesUnread` | client/contributor.go:52-80 | a successor key's claim may retire its predecessor, and ContributorFor still returns the predecessor past that date |
| `KeyLookup.ReadStored` | client/read.go:127-149 | a read of stored records that breaks on the server after some of them returns those and no error |
| `KeyLookup.BreaksDecide` | client/contributor.go:52-80 | a registration live by the records read before two breaks is live by all of them exactly when none past the breaks retires it |
| `KeyLookup.FindContributor` | client/contributor.go:52-95 | the lookup over both reads: the first registration admitting the instant by what was read, and live by all there is exactly when nothing past the breaks retires it |
| `KeyLookup.ABreakReturnsARetiredKey` | client/contributor.go:52-86 | a break before the one expiry claim there is returns the key it retired, past its date |
| `Contribute.ExternalContent` | client/contribute.go:94-115 | every address of nodes and edges whose hash no earlier one has, in order of appearance; a missing claim is an error |
| `Contribute.FirstsAreFirst` | client/contribute.go:92-115 | each entry is the address at which its hash first appears, with the size stated there, and the entries come in that order |
| `Contribute.FirstsAreDistinct` | client/contribute.go:94-115 | no hash is listed twice |
| `Contribute.FirstsHashes` | client/contribute.go:94-115 | the hashes listed are exactly the hashes addressed |
| `Contribute.ListedByPlace` | client/contribute.go:94-115 | every node and edge that addresses content has its hash listed; each entry is what its hash's first place addresses, and there is no other |
| `Contribute.ListedInOrder` | client/contribute.go:94-115 | entries come in the order of those places: by claim, its node first, then its edges |
| `Contribute.FetchContent` | client/contribute.go:118-142 | one blob for each reference, paired with its hash, exactly when all are to hand; else the error that says why |
| `Contribute.OptionsNarrow` | client/contribute.go:22-33 | options reach no other branch: it writes one, may create only that and only when asked, and references it unless told otherwise |
| `Contribute.WriteStream` | client/contribute.go:69-82 | constraints first, every claim in order, then every blob in order, or the first frame that cannot be encoded |
| `Contribute.StreamIsComplete` | client/contribute.go:42-92 | every hash the claims address is met by exactly one content frame and no frame carries any other |
| `Contribute.EveryPlaceIsCarried` | client/contribute.go:42-92 | whatever a claim's node or edge addresses is carried by exactly one content frame, and every content frame carries what some place addresses |
| `Contribute.StreamTells` | client/contribute.go:69-82 | frame by frame: the constraints, each claim in its place and on its branch, then the content |
| `Contribute.LastScopesDecide` | client/contribute.go:22-33 | the last option that names scopes decides which may be referenced, the branch itself when none does |
| `Contribute.Client.Contribute` | client/contribute.go:42-90 | one post of the whole stream, or an error and no post; nothing is posted for no claims |
| `Clock.SteerableClock.Now` | adapters/sequencer/clock_dev.go:25-32 | real time until the first advance, the position after it |
| `Clock.SteerableClock.Advance` | adapters/sequencer/clock_dev.go:34-45 | moves to the later of position and request, and tells the position |
| `Clock.Run` | adapters/sequencer/clock_dev.go:25-45 | the class run over any list of requests and readings answers as the event history says |
| `Clock.PositionIsLatest` | adapters/sequencer/clock_dev.go:34-45 | the position is the latest instant ever asked for, zero when none was |
| `Clock.PositionIgnoresOrder` | adapters/sequencer/clock_dev.go:34-45 | how clients' requests interleave or repeat does not matter |
| `Clock.ReadingsNeverGoBack` | adapters/sequencer/clock_dev.go:25-45 | once advanced, a reading is no earlier than anything asked before it and no later reading is earlier |
| `Clock.FirstAdvanceDecides` | adapters/sequencer/clock_dev.go:34-37 | a clock first advanced to an instant never reads earlier than before, whatever follows, exactly when no reading taken before was of a later real time |
| `Clock.AFirstAdvanceCanGoBack` | adapters/sequencer/clock_dev.go:34-37 | a reading of real time followed by a first advance behind it goes back |
| `Graph.Grower.constructor` | cmd/generator/graph.go:237-254 | a new identity: its own key claim at the epoch, the ambient clock there, nothing made |
| `Graph.Grower.Write` | cmd/generator/graph.go:179-227 | signs the claim a spec describes at its own date or the ambient one, ticks or pulls the ambient clock, and remembers the claim |
| `Graph.Grower.Attest` | cmd/generator/graph.go:83-121 | a key claim signed by the root at the ambient date, citing the actor it belongs to |
| `Graph.Grower.ClaimOn` | cmd/generator/graph.go:423-431 | a claim of the grower's own, citing its references as inputs |
| `Graph.RootTells` | cmd/generator/graph.go:268-284 | the root is a key claim under its name, at the epoch, citing nothing and signed by no other key |
| `Graph.EpochIsADay` | cmd/generator/graph.go:53 | the epoch is the first of June 2026 |
| `Graph.BranchesFor` | cmd/generator/graph.go:35-46 | the primary, then as many of the fixture's other branch names as the count leaves room for |
| `Graph.SpreadIsDistinct` | cmd/generator/graph.go:35-46 | the names are distinct, the primary first, and as many as asked up to those there are |
| `Graph.FixtureBranches` | cmd/generator/graph.go:29-46 | for any primary and count a fixture spreads over distinct branches, at least one and at most six |
| `Graph.Example` | cmd/generator/graph.go:288-323 | the two sources, derivation and entity on the first branch, and a note and its summary on each other one |
| `Graph.FixtureNames` | cmd/generator/graph.go:29-46 | with the usual primary the branches are the fixture's five in their order, as many as asked for |
| `Graph.ExampleMainTells` | cmd/generator/graph.go:288-303 | two notes, an extraction citing both, and a person citing that, a minute apart |
| `Graph.ExampleNoteTells` | cmd/generator/graph.go:307-320 | a note naming its branch and a summary citing it, a minute later |
| `Graph.ExampleBatchesTell` | cmd/generator/graph.go:300-322 | one contribution for each branch in order |
| `Graph.ExampleHolds` | cmd/generator/graph.go:286-323 | on every branch each claim reaches only the root and what precedes it, dates after what it cites and its signer's claim or with them, and derives from a source |
| `Claims.CoherentPrefix` | cmd/generator/graph.go:25-27 | contributions that are coherent as a whole are coherent cut anywhere |
| `Claims.OrderedMeans` | cmd/generator/graph.go:81-121 | a list of claims closed backwards is one in which each claim resolves among what was known and what precedes it |
| `Chain.PickFrom` | cmd/generator/graph.go:386-412 | up to n different claims made on the branch, at least one where there is one, for every draw |
| `Chain.Draw` | cmd/generator/graph.go:349-361 | no references for a source; earlier claims of the branch for any other type, which becomes a note when there are none |
| `Chain.Chain` | cmd/generator/graph.go:336-370 | contributions of the given size, alternating between the primary and the other branches in turn, made claim by claim as a run allows |
| `Chain.GrownReaches` | cmd/generator/graph.go:389-412 | what a claim cites was made on its own branch before it and is dated strictly before it |
| `Chain.ChainReferences` | cmd/generator/graph.go:338-412 | a claim that is no source cites between one and three different claims, all earlier on its own branch; a source cites none |
| `Chain.GrownFromSource` | cmd/generator/graph.go:346-356 | every claim of a chain reaches a source by input edges |
| `Chain.GrownDated` | cmd/generator/graph.go:51-56 | no claim of a chain is dated before what it cites or its signer's claim |
| `Chain.PrimaryEveryOther` | cmd/generator/graph.go:340-347 | every even contribution is on the primary branch, and with others no odd one is; each has the size asked for |
| `Chain.OthersInTurn` | cmd/generator/graph.go:344-346 | odd contributions go to the other branches one by one, and after the last to the first of them again |
| `Chain.EveryBranchIsReached` | cmd/generator/graph.go:340-347 | twice as many contributions as other branches reach every branch |
| `Chain.TypesInTurn` | cmd/generator/graph.go:327-334 | the types by turn, a note where there is nothing to cite |
| `Chain.ClaimsInTurn` | cmd/generator/graph.go:347-365 | each claim's type, date, signer and numbering by its place in the run |
| `Chain.ChainHolds` | cmd/generator/graph.go:336-370 | for every draw and any branches, counts and sizes, each branch stays closed under reference and every claim is dated in order and rooted in sources |
| `Packages.Jitter` | cmd/generator/release.go:62-67 | a draw from the half-open range, the lower bound when the range is empty |
| `Packages.ScheduleAscends` | cmd/generator/release.go:303-378 | whatever is drawn and wherever the floor is, no event of a package is scheduled before one it follows or before the floor |
| `Packages.MarginsSuffice` | cmd/generator/release.go:25-58 | given the longest development lead of room before triage, no clamp changes its argument |
| `Packages.RoomNeeded` | cmd/generator/release.go:25-80 | exactly how much room is needed for no draw to be clamped |
| `Packages.PackageInHours` | cmd/generator/release.go:23-58 | with room, when each event of a package lands, in minutes and hours |
| `Packages.EveryDrawInHours` | cmd/generator/release.go:23-58 | and the draws are all of those within them |
| `Packages.PackageTells` | cmd/generator/release.go:311-405 | who signs each event of a package, of which type it is and what it cites: the candidate all four before it, the decision the candidate and both who decided |
| `Packages.PackageSays` | cmd/generator/release.go:308-405 | every event bears the package's name and version, and what comes of the scan says what it matched |
| `Packages.PackageKeepsTime` | cmd/generator/release.go:311-413 | the seven events land at the times of the schedule, in order |
| `Packages.MentionedExactly` | cmd/generator/release.go:294-297 | a scan mentions a vulnerability exactly when its advisory names the package or none |
| `Packages.ScansTell` | cmd/generator/release.go:115-133 | of the two, the one package's scan mentions both and the other's the first alone |
| `Packages.MatchedTells` | cmd/generator/release.go:115-133 | and says so by name |
| `Packages.QuietForDays` | cmd/generator/release_test.go:355-375 | the scan follows the snapshot by the shortest development lead exactly when the lead drawn exceeds it by the scan's own lead, always by more than 42 hours, and lands two to six hours before the decision |
| `Packages.TheQuietCanBeShort` | cmd/generator/release_test.go:370-372 | some draw in range leaves less than two days between snapshot and scan |
| `Packages.Scanned` | cmd/generator/release.go:340-348 | the scan cites the snapshot as input and mentions exactly the vulnerabilities found that affect the package |
| `Packages.ReleaseOnePackage` | cmd/generator/release.go:303-413 | seven contributions of one claim each, the claims those of a package on the drawn schedule |
| `Cast.Actors` | cmd/generator/release.go:232-263 | for each participant a record, an entity citing it and a key claim naming the entity, who signs as whom, and all but the key claims remembered |
| `Cast.Vulnerabilities` | cmd/generator/release.go:267-292 | for each advisory the report and the entity citing it, signed by the key given and remembered |
| `Cast.IntroductionTells` | cmd/generator/release.go:232-263 | a participant's record, entity and key: what each is, cites and says, a minute apart, all signed by the root |
| `Cast.CastByName` | cmd/generator/release.go:232-263 | everyone is cast as themselves, with their own entity and its key |
| `Cast.FourParticipants` | cmd/generator/release.go:223-228 | three people with staff records and a machine with a registration |
| `Cast.HandlesTell` | cmd/generator/release.go:106-111 | each participant goes by their own handle |
| `Cast.WarningsTell` | cmd/generator/release.go:267-292 | each advisory and the vulnerability citing it, by name and in turn |
| `Cast.IntroductionsHold` | cmd/generator/release.go:229-263 | the participants' claims reach only the root and each other, are dated in order, rooted, and done by the time said |
| `Cast.WarningsHold` | cmd/generator/release.go:265-292 | so do the advisories' claims, given the key that signs them, and every vulnerability found is among them |
| `Cast.CastIsIntroduced` | cmd/generator/release.go:232-263 | the entity and key of everyone cast are among the claims told |
| `Release.PackageFromSources` | cmd/generator/release.go:311-395 | every claim of a package derives from its snapshot, build log or test report by input edges |
| `Release.PackageDated` | cmd/generator/release.go:315-395 | no claim of a package is dated before what it cites or the key it is signed with |
| `Release.PackageReaches` | cmd/generator/release.go:315-395 | each event cites only what was told before the package and the package's earlier events |
| `Release.RunRelease` | cmd/generator/release.go:174-214 | one release for some draws in range: both packages in order, then the artifact, every claim remembered and the clock at the artifact if not past it |
| `Release.Release` | cmd/generator/release.go:147-217 | refused below one release with nothing made; else the setup contribution and every release, one contribution a claim, with what the grower remembers and the clock at the last artifact |
| `Release.JoinedIs` | cmd/generator/release.go:196-209 | a release is its two packages' events and last an artifact that cites both decisions and nothing else |
| `Release.DecisionsLandOnTime` | cmd/generator/release.go:315-375 | no clamp changes a date in any release, so both decisions land exactly on their triage times |
| `Release.ReleaseFollowsTheLast` | cmd/generator/release.go:165-214 | every claim of a release is dated strictly after the previous release's artifact |
| `Release.EveryReleaseComesAfter` | cmd/generator/release.go:165-214 | in every run and for every release of it, all that was told before is dated by the last artifact, all of the release later, its own artifact by more than the gap drawn, and both decisions on their triage times |
| `Release.ReleaseInDays` | cmd/generator/release.go:23-58 | what may be drawn for a release, in minutes and days |
| `Release.VersionTells` | cmd/generator/release.go:177 | versions count up from v0.1.0 |
| `Release.ReleaseTells` | cmd/generator/release.go:174-194 | both packages bear the release's version, the second decided a stagger after the first |
| `Release.SetupTells` | cmd/generator/release.go:150-164 | the setup is the four participants and the two vulnerabilities, sixteen claims a minute apart, the vulnerabilities told by the security expert |
| `Release.SetupHolds` | cmd/generator/release.go:152-164 | before the first release everyone and everything it refers to is told, by the floor |
| `Release.ReleaseRunHolds` | cmd/generator/release.go:147-217 | for every draw and any number of releases, closed under reference, dated in order, and rooted in sources |
| `Deliver.SentToIs` | cmd/generator/main.go:166-174 | a branch receives the root claim once, first, and then its contributions in order |
| `Deliver.BranchesStayClosed` | cmd/generator/main.go:166-183 | after every contribution each claim of a branch finds all it cites, its signer's claim included, among those the branch received before it |
| `Deliver.MaxCreatedAt` | client/dev.go:69-80 | the latest date among the claims present, the zero time when there is none |
| `Deliver.Stack.AdvanceClock` | client/dev.go:41-53 | moves the dev clock, or answers unavailable where there is none; a failed request may or may not have moved it |
| `Deliver.Stack.AdvanceClockPast` | client/dev.go:55-66 | afterwards the dev clock stands no earlier than any claim's date |
| `Deliver.DeliverOne` | cmd/generator/main.go:178-187 | a contribution is merged once, after its clock was steered, at an instant no earlier than any claim it carries |
| `Deliver.SteeredOn` | cmd/generator/main.go:165-187 | one more delivery keeps the merges in order and never going back in time, other clients' requests in between included |
| `Deliver.Deliver` | cmd/generator/main.go:163-195 | each contribution goes up in order as said; on a development stack merges are in time and never go back; the tally is the sum and the sums by branch of what landed |
| `Deliver.LandedAddsUp` | cmd/generator/main.go:184-194 | what landed on each of the branches adds up to what landed |
| `Seed.Build` | cmd/generator/main.go:82-133 | each command builds a run of its shape, or refuses its counts |
| `Seed.NamesTell` | cmd/generator/main.go:82-110 | the primary first, then as many of the fixture's other branches as asked for, or as there are |
| `Seed.CoherentIsClosed` | cmd/generator/main.go:166-183 | a coherent shape leaves every branch closed after any number of contributions |
| `Seed.Seed` | cmd/generator/main.go:140-195 | the whole command: for every draw and whatever else the stack is asked, branches closed after every contribution, claims dated and rooted, merges in time and in order |

## Left out

- HTTP routing, servers, sockets, the command line, the frontend and configuration parsing: plumbing.
- ranke-go's signing, hashing, heights, storage, verification walk and merge: parameters, or assumed to succeed where only they could fail.
- Authorization and constraint narrowing in the server: the code it rests on is not part of this model.
- JSON: invalid UTF-8 in a string, which Go replaces, and nesting and number limits of the reader; writing covers ASCII text, which ids are. That every JSON text is read is stated in `JsonForms`, that nothing else is only for numbers and for the separator.
- CBOR: nesting and size limits of the library's decoder, and its coercions of tags and nulls into strings.
- Marshalling failures in `writeValue`, and a report that marshals to an error.
- Serve.Writer.Write: `accepted` is what the writer reported taking; a writer that takes other bytes than it reports is outside the io.Writer contract.
- Framing.SplitCBORSeq: which error a broken and malformed stream gives is left open, both being reported as the decoder meets them.
- The nil `vaultBox` and what `resolveSection` walks: single-branch facts.
- Real goroutine scheduling and memory order: replaced by atomic steps, each a critical section or a call that holds no lock.
- The probabilities of draws: every value in range is allowed, so the bias of `pickFrom` to recent claims is not stated, and a method that draws promises an outcome some draw gives.
- Graph.Grower.Attest: key derivation and signing errors, which only the library can raise, are not modelled.
- Packages.ReleaseOnePackage: a floor at or before the zero time, which no grower's clock reads, is not modelled.
- Content of fixture claims: kept as the form and the values written into it, not as formatted prose.
- Exchange.Ask: a failed write is a lost connection and a lost connection a failed write; bytes the server believes sent that never arrive are not modelled.
- Deliver.Deliver: on a stack without the dev routes merges carry real time, and a fixture's claims may be dated after them; nothing is promised there beyond what went up.
- Deliver.Stack.Contribute: how many claims land is the server's answer and taken as it comes.
- Seed.Seed: the read-back of the branch head and the progress lines are output only.
- ContributorWindow.ContributorFor: the query that fetches contributors and expiries, and its failures, are its inputs; reading a timestamp is a parameter.
- Contribute.Client.Contribute: the server's answer is a parameter, and a lost answer counts as its error.
