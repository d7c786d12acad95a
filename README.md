# SC Little Helper — a Dafny model of its lookup core

SC Little Helper is a small web service for EVE Online pilots. A user
pastes a list of character names. The server then:

- normalises the list (one name per line, trimmed, at least three bytes,
  no duplicates, at most 100 names);
- for every name, resolves the character id and builds one profile
  record. The record combines the game's public API (ESI) with the
  zKillboard statistics: corporation, alliance, security status, age,
  kill and loss counts, danger rating, last kill and, optionally, a kill
  history;
- streams the records back as newline-delimited JSON, framed by a
  "start" marker that carries the number of names and a "done" marker
  that carries the number of records sent.

Upstream answers are kept in process-wide caches (`ccpCache`,
`zkillCache`, `killmailCache`). Concurrent fetches of one killmail are
merged (single flight). The browser front end escapes the character,
corporation and alliance names it wraps in links or group rows; the name
of a character without a killboard and the age, alliance and last-kill
columns go into the result table as they arrive. An older generation of the
service (`character/character.go`, `sclh/static/sclh.js`) is modelled
beside the current one.

The model is built as follows.

- **Upstream services and clocks are parameters.** The environment
  `Upstream.Env` has the fields below.
  - `net` answers a request. It takes the number of requests made so far
    and the endpoint, so repeated requests may get different answers.
  - `codec` holds oracle functions for JSON decoding; each one returns
    `None` on malformed input.
  - `secondsSince` is the clock.
  - `analyzeKills` and `computeFavoriteShip` are the two feature switches.
- **The caches are one class.** `Store.Caches` holds the maps, the
  single-flight table and `calls`, the log of every upstream request.
  "Served from the cache with no upstream call" and "exactly one request"
  are statements about that log.
- **Go's panics become errors.** A cached value whose type does not match
  the type-assertion becomes `Err(TypeAssertion(key))`. In Go nothing
  recovers such a panic, so it ends the process; the model carries on
  with an error value instead (see "Left out").
- **Record merging becomes a fold.** `mergo.Merge` over the
  `characterData` record becomes `Profile.Merge`: fill each zero field
  of the destination from the source. The fan-out of each lookup phase
  is folded in launch order. `Profile.MergeCommutes` and
  `Character.PhaseOrderIrrelevant` show that the order does not matter
  when every response of the phase succeeds.
- **Go's integer division is written out.** `Duration.GoDiv` truncates
  toward zero, as the duration formatting uses it.

## Model

| member | source | states |
|---|---|---|
| Store.Caches.constructor | character.go:22-28 | the caches start empty, with nothing in flight and no request made |
| Store.Caches.Fetch | character.go:179-182 | one upstream request: it is appended to the log, its answer is the oracle's, and no cache changes |
| Store.Caches.Expire | character.go:23-24 | once the hour-long time to live has passed, only the entries set with no expiry remain, unchanged |
| Store.Permanent | character.go:23-24 | keeps exactly the entries that do not expire, with their values |
| Store.AsText | character.go:174-177 | a cached value read as a string succeeds exactly when it is a string; otherwise it is the type-assertion panic on that key |
| Store.AsNumber | character.go:435-438 | a cached value read as an int succeeds exactly when it is a number; otherwise it is the type-assertion panic on that key |
| Profile.MergeField | character.go:114-122 | merging fills a field from the source exactly when the destination's field is zero |
| Profile.MergeEmpty | character.go:114-122 | the empty record is a unit of merge on both sides |
| Profile.MergeAssociative | character.go:114-122 | merging a merge equals merging into the merged sources |
| Profile.MergeIdempotent | character.go:114-122 | merging the same source twice changes nothing |
| Profile.MergeCommutes | character.go:114-122 | two sources that set disjoint fields can be merged in either order |
| Profile.MergeKeepsSet | character.go:114-122 | a field already set is never overwritten |
| Profile.FirstError | character.go:114-122 | the index of the first failed response: all before it succeeded, and the one at it failed |
| Profile.MergeAllMeaning | character.go:114-122 | handleMerges merges exactly the responses before the first failure and returns that failure's error |
| Profile.HandleMerges | character.go:114-122 | the loop computes the fold of the responses, stopping at the first error |
| Profile.MergeAllSwap | character.go:114-122 | swapping two adjacent successful responses that set disjoint fields does not change the outcome |
| Profile.WithinDisjoint | character.go:124-169 | records written by two different fetchers never set the same field |
| Profile.MergeAllKeepsUnowned | character.go:34-44 | no fetcher writes the name, the character id or the analysis flag, so the fold keeps them |
| Character.CcpProfile | character.go:138-142 | corporation, alliance, security and age are taken from the ESI record; NPC corporation exactly when the id is below 2000000; only ESI-owned fields are set |
| Character.ZkillProfile | character.go:161-166 | statistics come from zKillboard; a killboard exists exactly when kills or losses are non-zero; zKillboard is marked used |
| Character.CcpOutcome | character.go:124-145 | a failed fetch or decode yields the empty record with the error; a successful one has the NPC rule |
| Character.ZkillOutcome | character.go:147-169 | a failed fetch or decode yields the empty record with the error; a successful one has the killboard rule |
| Character.FetchCharacterJson | character.go:171-186 | read-through of ccpCache under the bare id: a hit makes no request; a miss makes one request and caches a successful body with the default expiry; other caches unchanged |
| Character.FetchZkillJson | character.go:188-203 | the same read-through on zkillCache |
| Character.FetchCcpRecord | character.go:124-145 | the ESI record from the read-through, decoded by CcpOutcome |
| Character.FetchZkillRecord | character.go:147-169 | the zKillboard record from the read-through, decoded by ZkillOutcome |
| Character.StartDateOutcome | character.go:357-384 | the corporation age is set only from the first history entry; an empty history is no error |
| Character.FetchCorpStartDate | character.go:357-384 | always exactly one upstream request, never cached |
| Character.FetchCorporationName | character.go:291-320 | name lookup through ccpCache; a fetched name is cached with no expiry; on failure only the error is returned |
| Character.FetchAllianceName | character.go:322-355 | alliance id 0 gives an empty name with no request; otherwise the same lookup as a corporation name |
| Character.FetchItemName | character.go:386-430 | ship names are cached under "ship:<id>"; an empty answer is an invalid ship id |
| Character.FetchCorpDanger | character.go:432-457 | a zkillCache hit must hold a number, or it is a type-assertion panic; a miss fetches, decodes and caches the danger with the default expiry |
| Character.FetchCharacterId | character.go:253-289 | a cached name gives its number; otherwise one search request, where no entries is an error and the first entry's id is cached with no expiry |
| Character.IdOutcome | character.go:253-289 | a cached name answers by its cached value, a number or a failed type assertion; a failed search request is that request's error; a resolved id is the first entry of the search answer |
| Character.FetchCharacterIdTwice | character.go:253-289 | after a successful lookup the same name is answered from the cache, with no second request |
| Character.Missing | character.go:206-216 | the names still to resolve are exactly the non-empty names not in ccpCache |
| Character.StoreIdsHas | character.go:246-248 | after a preload every returned name is cached, with no expiry, as the id of an entry of that name |
| Character.StoreIdsKeeps | character.go:246-248 | a name the preload did not return is left as it was |
| Character.CollectMissing | character.go:206-216 | the collecting loop yields exactly the names Missing describes, in order |
| Character.StoreEntries | character.go:246-248 | the caching loop leaves ccpCache as StoreIds describes and touches nothing else |
| Character.LoadCharacterIds | character.go:205-251 | with nothing missing there is no request; otherwise one bulk request whose entries are all cached; failures and empty answers report an error and cache nothing |
| Character.CorpNameServedAsCharacterJson | character.go:171-186 | a corporation name cached under a bare id is later served as the character JSON of the same number (shared key space) |
| Character.ZkillKeyClash | character.go:435-438 | a character's stats JSON cached under the same bare id makes the corporation-danger lookup panic on its type assertion |
| Character.Phase2Selection | character.go:72-85 | the alliance and corporation names are always fetched; the danger exactly when zKillboard is used; the last kill exactly with a killboard; the kill histories exactly when analysis is on and kills are non-zero |
| Character.PhasesDistinct | character.go:55-99 | no phase launches the same fetcher twice |
| Character.PhaseOrderIrrelevant | character.go:114-122 | within a phase, swapping two adjacent successful responses does not change the merged record |
| Character.MergeAllKeepsSet | character.go:114-122 | a field set in an earlier phase survives every later merge |
| Character.CorpDangerAlwaysScheduled | character.go:42-74 | zKillboard use is set before phase 1, so phase 2 always asks for the corporation danger |
| Character.RunJob | character.go:55-61 | each fetcher writes only the fields it owns |
| Character.RunPhase | character.go:46-69 | one phase: one response per job, each within its fetcher, and the merge is the fold of handleMerges |
| Character.Rename | character.go:107-109 | the nickname, if the name asked for has one, replaces the name and nothing else |
| Character.FetchCharacterData | character.go:34-112 | the assembly starts exactly when the id lookup resolves, from the initial record of that id; an unresolved name yields the bare record and a not-found error (a failed type assertion stays as it is), leaves every cache as it was and logs the one id request, or none when the name was cached; otherwise up to three phases, each launched from the record the previous one left, stopping at the first error, and on success the renamed record of all three |
| Character.RunPhases | character.go:55-112 | the phase pipeline after the id is known |
| Character.NicknameExample | character.go:25-27 | the two configured nicknames, and no change for other names |
| KillAnalyzer.KillmailKeyInjective | kill_analyzer.go:55-55 | the "<id>:<hash>" killmail key determines both parts |
| KillAnalyzer.GetKillMail | kill_analyzer.go:53-102 | a cached or in-flight killmail makes no request; otherwise one request, and only a success is cached; a failure returns the zero killmail |
| KillAnalyzer.GetKillMailTwice | kill_analyzer.go:53-102 | a second fetch of a fetched killmail returns the same record with no second request |
| KillAnalyzer.GetKillMailFailure | kill_analyzer.go:76-101 | a failed fetch returns the zero killmail and leaves neither a cache entry nor an in-flight entry |
| KillAnalyzer.Label | kill_analyzer.go:129-137 | "loss" exactly when the victim is the character, "struct" exactly for victim 0, "kill" otherwise |
| KillAnalyzer.LastKillTextReads | kill_analyzer.go:126-139 | the last-kill text is the date part of the killmail time, then the bracketed label; it ends in "(loss)" exactly for a loss |
| KillAnalyzer.FetchLastKillActivity | kill_analyzer.go:104-142 | request failures, decode failures and an empty kill list are errors that leave the caches as they were after the one activity request; otherwise the label of the most recent killmail, with the killmail cache and the request log as ccpGetKillMail leaves them; the in-flight table is never changed |
| KillAnalyzer.LastKillOf | kill_analyzer.go:124-141 | the label of the killmail ccpGetKillMail gives for the most recent reference, no error, and the killmail cache and request count that lookup leaves; earlier requests are kept |
| KillAnalyzer.Own | kill_analyzer.go:191-198 | the character's ships among a killmail's attackers |
| KillAnalyzer.ExplorerWithinFlown | kill_analyzer.go:191-198 | the explorer count never exceeds the number of the character's own attacker entries |
| KillAnalyzer.OwnOfStrangers | kill_analyzer.go:191-198 | a killmail on which the character is no attacker adds nothing |
| KillAnalyzer.TalliedCounts | kill_analyzer.go:190-206 | the ship frequency map counts exactly the multiset of ships flown |
| KillAnalyzer.TalliedAppend | kill_analyzer.go:203-206 | tallying is additive over concatenated ship lists |
| KillAnalyzer.FavoriteShip | kill_analyzer.go:214-226 | the favourite has the highest count; the zero ship and count when no ship was flown |
| KillAnalyzer.FavoriteIsMax | kill_analyzer.go:214-226 | the favourite's count bounds every ship's count in the flown multiset |
| KillAnalyzer.AddKill | kill_analyzer.go:185-206 | one killmail adds its explorer count and its own ships |
| KillAnalyzer.CountAttackers | kill_analyzer.go:189-198 | the attacker loop counts explorer kills and tallies the character's ships |
| KillAnalyzer.Tally | kill_analyzer.go:173-212 | the whole loop gives the explorer total and the frequency of every ship flown |
| KillAnalyzer.Summarize | kill_analyzer.go:166-228 | the history record: the number of kills, the explorer total, the date of the last entry and, when enabled, the favourite ship |
| KillAnalyzer.FetchKillHistory | kill_analyzer.go:144-229 | request or decode failures and an empty list are errors that leave the caches as they were after the one kills request; otherwise the history record of the killmails, which are those ccpGetKillMail gives for the references in order, each lookup seeing the cache and the request count the previous ones left, and the killmail cache and request count are those the last lookup leaves; the in-flight table is never changed |
| KillAnalyzer.HistoryOfRefs | kill_analyzer.go:165-229 | with at least one reference, the history record of the killmails the successive cache lookups give, and no error; the killmail cache and the request count are those the last lookup leaves |
| KillAnalyzer.FetchMails | kill_analyzer.go:178-209 | the killmail of every reference in order, as the successive cache lookups give them, and the day of the last one; the killmail cache and the request count are those the last lookup leaves, earlier requests are kept and the in-flight table is as it was |
| KillAnalyzer.FetchRecentKillHistory | kill_analyzer.go:231-269 | one request for the last week; its count is the only field set |
| Utils.SecondsToTimeStringMeaning | utils.go:20-41 | the text reads back as years, months and days of 365 and 30 days, and those parts bracket the elapsed time to within a day |
| Utils.ComponentBounds | utils.go:20-41 | at most 12 months and fewer than 30 days are shown |
| Utils.SecondsToTimeStringToday | utils.go:37-39 | "today" exactly when less than a day has passed |
| Utils.SecondsToTimeStringExamples | utils_test.go:9-29 | "today", "5d", "1m" and "1y2m3d" for the matching spans |
| Utils.GetDate | utils.go:54-56 | the part of the timestamp before the first 'T' |
| Utils.DaysSince | utils.go:50-52 | whole days elapsed, truncated toward zero |
| Utils.Min | utils.go:58-63 | the smaller of the two arguments |
| DateUtils.SecondsToTimeStringMeaning | dateutils.go:17-38 | the same reading-back property as in utils.go |
| DateUtils.SecondsToTimeStringToday | dateutils.go:17-38 | "today" exactly below one day |
| DateUtils.GetDate | dateutils.go:51-53 | the date part before the first 'T' |
| DateUtils.DaysSince | dateutils.go:47-49 | whole days elapsed, truncated toward zero |
| DateUtils.SameAsUtils | dateutils.go:9-53 | the date helpers of dateutils.go agree with those of utils.go on every input |
| Duration.GoDiv | utils.go:20-26 | Go's truncating division: it agrees with floor division on non-negative numbers and is never positive for negative ones |
| Duration.GoRemainder | utils.go:20-26 | the remainder left after truncating division has the dividend's sign and is smaller than the divisor |
| Duration.DecomposeNonNegative | utils.go:20-26 | for a non-negative span the parts are the floor quotients, and they bracket the span to within one day |
| Duration.DecomposeNegative | utils.go:20-40 | a negative span has no positive part, so it renders as "today" |
| Duration.RenderToday | utils.go:27-40 | rendering is "today" exactly when no part is positive |
| Duration.RenderParses | utils.go:27-40 | the rendered text reads back as the positive parts |
| Duration.BeforeFirst | utils.go:54-56 | strings.Split(s, sep)[0]: the longest prefix with no separator |
| Decimal.IntToString | character.go:172-172 | fmt's %d: canonical digits with a leading '-' for negatives |
| Decimal.ParseNatToString | utils.go:28-36 | decimal text reads back as its number |
| Decimal.NatToStringParse | utils.go:28-36 | canonical digits are the text of their number |
| Decimal.IntToStringInjective | character.go:172-174 | distinct ids give distinct cache keys |
| Batch.SplitLinesMeaning | sclh.go:238-238 | splitting on CRLF, LF or CR yields lines with no break whose join is the text with breaks normalised; a text with no break is one line |
| Batch.LinesJoin | sclh.go:238-238 | the split lines joined with "\n" give the normalised text |
| Batch.TrimSpace | sclh.go:244-244 | the result is a slice of the text with only Unicode white space before and after it, and it neither begins nor ends with white space |
| Batch.TrimSpaceIdempotent | sclh.go:244-244 | trimming twice equals trimming once |
| Batch.ByteLen | sclh.go:245-247 | Go's len: the UTF-8 byte length, between one and four bytes per character |
| Batch.NormalizeNames | sclh.go:238-256 | the loop computes Normalize of the pasted text |
| Batch.KeepNames | sclh.go:240-256 | the loop with its seen set selects exactly what Select specifies |
| Batch.SelectMeaning | sclh.go:243-256 | selection is the first 100 distinct candidates, in order |
| Batch.DedupMeaning | sclh.go:248-252 | deduplication keeps exactly the names seen and repeats none |
| Batch.CandidatesWellFormed | sclh.go:243-247 | every candidate is trimmed, has no break and is at least three bytes long |
| Batch.CandidatesComplete | sclh.go:243-247 | every line that is long enough once trimmed is a candidate |
| Batch.KeepMeaning | sclh.go:240-256 | at most 100 distinct names, all candidates, and every candidate when fewer than 100 were kept |
| Batch.NormalizeMeaning | sclh.go:238-256 | the names sent on are at most 100, distinct, trimmed, without breaks and at least three bytes long, each the trimmed form of one of the lines; every qualifying line is kept unless the cap was reached |
| Batch.Stream.constructor | sclh.go:278-278 | a response stream starts empty |
| Batch.Stream.Write | sclh.go:340-343 | a write succeeds exactly while the client is still connected, and only then appends the element |
| Batch.Delivered | sclh.go:334-347 | the records written for the responses, all records, at most one per response |
| Batch.DeliveredCount | sclh.go:334-347 | every response is either delivered or counted as a failure |
| Batch.TranscriptAccounting | sclh.go:281-357 | a full stream is the start marker with the total, the records, then the done marker whose count is the number of records; records plus failures equal the responses |
| Batch.StreamResults | sclh.go:332-357 | errors are skipped, each record is written in order, a failed write ends the request with no done marker, and the done marker follows the last record |
| Batch.FetchAll | sclh.go:290-330 | the ids are preloaded, a failure only logged, and there is one response per name |
| Batch.WriteRecords | sclh.go:331-345 | the records of the successful responses go out in order; a refused write stops the loop, and the count is the number written |
| Batch.StreamIsServed | sclh.go:331-356 | after the start marker, the stream is a prefix of the transcript, and the whole transcript exactly when the done marker was written |
| Batch.ServeData | sclh.go:234-358 | the names are the normalised text; a writer that cannot stream gets nothing; otherwise the stream is a prefix of the transcript, and the whole transcript exactly when the request completes |
| Batch.Respond | sclh.go:272-357 | serveData after normalisation: the same stream guarantee |
| Batch.WrittenIsPrefix | sclh.go:334-347 | a stream cut during the records is a proper prefix of the transcript |
| Batch.CutStreamHasNoDone | sclh.go:340-343 | a client cut off before the end never sees a done marker |
| LegacyCharacter.SecondsToTimeStringMeaning | character/character.go:367-388 | the legacy text reads back with years of 360 days, bracketing the span to within a day |
| LegacyCharacter.SecondsToTimeStringToday | character/character.go:367-388 | "today" exactly below one day |
| LegacyCharacter.YearOf365Days | character/character.go:367-388 | a 365-day span is "1y5d" in the legacy code and "1y" in utils.go |
| LegacyCharacter.DaysSince | character/character.go:397-399 | whole days elapsed, truncated toward zero |
| LegacyCharacter.FetchCharacterRecord | character/character.go:147-157 | a ccpCache hit must be text; a miss fetches and caches even an empty body, which is never an error |
| LegacyCharacter.FetchZKillRecord | character/character.go:287-297 | the same on zkillCache |
| LegacyCharacter.FetchCharacterId | character/character.go:159-185 | the search's first hit, cached with no expiry; no hit is an invalid character |
| LegacyCharacter.FirstName | character/character.go:187-218 | the first name of the answer; malformed is a decode error; empty is the given invalid-id error |
| LegacyCharacter.FetchCorporationName | character/character.go:187-218 | a cached name, or one request whose first name is cached with no expiry |
| LegacyCharacter.FetchAllianceName | character/character.go:220-254 | alliance 0 is the empty name with no request; otherwise as a corporation name |
| LegacyCharacter.FetchCorpStartDate | character/character.go:256-281 | one request, never cached; no entries is an invalid character |
| LegacyCharacter.FetchCorpDanger | character/character.go:299-319 | a zkillCache hit must be a number; a miss fetches and caches the danger with the default expiry |
| LegacyCharacter.LastKillShape | character/character.go:336-365 | no kill (or a bad answer) gives victim 0 and no date; otherwise the first kill's victim and date |
| LegacyCharacter.LastKillDate | character/character.go:358-364 | the date is a 'T'-free prefix of the kill time |
| LegacyCharacter.FetchLastKill | character/character.go:336-365 | exactly one request, whose answer is read by LastKillShape |
| LegacyCharacter.KillPrefix | character/character.go:321-334 | "died " for a loss, "struct " for victim 0, "kill " otherwise |
| LegacyCharacter.FailedLookupIsStruct | character/character.go:321-360 | a failed last-kill lookup reads as "struct " |
| LegacyCharacter.LastKillActivity | character/character.go:321-334 | no killboard gives "" with no request; otherwise the prefix and the date of the last kill |
| LegacyCharacter.OrEmpty | character/character.go:74-78 | a lookup whose error is ignored contributes an empty string; a failed fetch reads as an empty body the same way |
| LegacyCharacter.WithCcp | character/character.go:72-76 | the ESI fields are copied, NPC corporation exactly below 2000000, and nothing else changes |
| LegacyCharacter.WithZkill | character/character.go:99-103 | the statistics are copied, a killboard exactly with kills or losses, and nothing else changes |
| LegacyCharacter.FillCorporation | character/character.go:74-79 | only the corporation name, alliance name and corporation age change; a panic leaves the record as it was |
| LegacyCharacter.FillActivity | character/character.go:104-105 | only the danger and the last kill change; no killboard means no last kill |
| LegacyCharacter.FetchCharacterData | character/character.go:43-115 | an unknown name is the bare record and a not-found error; success is a complete record under the name asked for; otherwise a decode error or a panic |
| Frontend.EscapeHtml | static/sclh.js:5-9 | null renders as ""; otherwise the escaped text unescapes to the input |
| Frontend.EscapeSafe | static/sclh.js:5-9 | escaped text has no raw '<', '>', quotes or stray '&' |
| Frontend.EscapeAppend | static/sclh.js:5-9 | escaping is a homomorphism over concatenation |
| Frontend.EscapeRoundTrip | static/sclh.js:5-9 | unescaping the escaped text gives the text back |
| Frontend.EscapePlain | static/sclh.js:5-9 | text with no special character is unchanged |
| Frontend.CharName | static/sclh.js:15-22 | without a killboard the cell is the data unchanged |
| Frontend.CharNameLink | static/sclh.js:15-22 | with a killboard, a portrait link around the escaped name, which displays as the name |
| Frontend.CharNameRaw | static/sclh.js:19-20 | without a killboard the cell data is put in unescaped, so markup in it is not safe |
| Frontend.CorpClass | static/sclh.js:100-105 | "danger" exactly above 50, "safe" exactly for a safe NPC corporation, no class otherwise |
| Frontend.NameCellShows | static/sclh.js:106-110 | the group cell is safe and displays the group and, when present, the alliance in brackets |
| Frontend.GroupRowDisplays | static/sclh.js:98-112 | the group row is the logo cell and a name cell with that class, and it displays as above |
| Frontend.FormatKills | static/sclh.js:142-164 | empty exactly when the character has no kills |
| Frontend.FormatKillsCells | static/sclh.js:142-164 | the kill table holds the three counts and the escaped date, each safe, and the date displays unchanged |
| LegacyFrontend.LookupIndex | sclh/static/sclh.js:62-65 | "{k}" is argument k, or "undefined" past the end |
| LegacyFrontend.LookupLeadingZero | sclh/static/sclh.js:62-65 | a placeholder with a leading zero is "undefined" |
| LegacyFrontend.FormatIdentity | sclh/static/sclh.js:62-65 | a template with no placeholder is unchanged |
| LegacyFrontend.FormatPlaceholder | sclh/static/sclh.js:62-65 | each placeholder is replaced by its argument |
| LegacyFrontend.FormatNotRecursive | sclh/static/sclh.js:62-65 | a substituted argument is not itself expanded |
| LegacyFrontend.FormatEdgeCases | sclh/static/sclh.js:62-65 | non-digit braces stay; an out-of-range index gives "undefined" |
| LegacyFrontend.GroupRowVerbatim | sclh/static/sclh.js:81-95 | the legacy group row inserts the group and alliance names verbatim |
| LegacyFrontend.GroupRowInjects | sclh/static/sclh.js:81-95 | so markup in a corporation name reaches the page |
| LegacyFrontend.FormatKills | sclh/static/sclh.js:112-124 | empty exactly when the character has no kills |
| LegacyFrontend.FormatKillsInjects | sclh/static/sclh.js:112-124 | the legacy kill table inserts the date verbatim, so markup reaches the page |
| LegacyFrontend.CorpAge | sclh/static/sclh.js:25-27 | the corporation age is the number followed by " days" |
| LegacyFrontend.CorpAgeReads | sclh/static/sclh.js:25-27 | the number reads back, and distinct ages render differently |

## Left out

- HTTP and process setup are not modelled: `main`, the routes, the security headers, the shutdown, the connectivity probe, the logging and `sclh/sclh.go`. They do no lookup work.
- The HTTP gateways (`httputils.go`: user agent, retries, status handling) are the `net` oracle. A failed request is only an error value.
- JSON decoding is an oracle in `Env.codec`. Only "malformed" (None) versus a decoded value is modelled.
- Concurrency is flattened. The serveData worker pool, the phase fan-out, the killmail semaphore and the mutexes run in launch order.
  - Results are merged and streamed in that order. The merge-order lemmas show that the order does not change a phase's record when all its responses succeed.
  - With a failed response in a phase, Go's handleMerges goes in receipt order: which error is reported and which successful responses were merged before it depend on that order. The model reports the first failure in launch order and the record merged up to it. serveData drops failed responses, so a client sees no difference.
  - The order in which a client receives records is not modelled.
- Context cancellation is not modelled. A request whose client went away is a stream that refuses writes.
- Single flight is modelled only for the leader. A caller that finds the key in flight receives the record published for it, with no upstream call. The waiting itself is not modelled.
- Time to live is only `Store.Caches.Expire`, which drops every expiring entry at once. The ten-minute janitor is not modelled.
- The wall clock is not modelled. `secondsSince` is a parameter.
- Floating point is not modelled.
  - Elapsed seconds are integers.
  - The security status is a `real`.
- Batch.ServeData, Batch.Respond, Batch.StreamResults: a failed type assertion in a worker or fetch goroutine is an unrecovered panic in Go, which ends the whole server: no further record, no done marker, and every other request dies with it. The model turns it into a `TypeAssertion` error response, which is skipped like any other error, and the stream still ends with the done marker. Such a response only arises when one cache key holds values of two types (`Character.ZkillKeyClash`, `Character.CorpNameServedAsCharacterJson`).
- Batch.FetchAll: states one response per name, not that each response is the one `Character.FetchCharacterData` returns, because a method's result cannot appear in another method's contract.
- Character.RunJob: states only that each fetcher sets the fields it owns. The exact result of each fetcher is stated by that fetcher's own method.
- Character.FetchCharacterData: on a resolved name, states the id, the phase plan, the responses and the merged record, not the caches and the request log after the phases, for the same reason as RunJob.
- Character.RunPhase, Character.RunPhases: tie each response to its job only through the fields that job's fetcher owns, not to that fetcher's exact result on the cache state of the moment, for the same reason as RunJob. The merge order, the stop at the first error and the record handed to each phase are stated exactly.
- LegacyCharacter.FillCorporation: states which fields change, not their values. The values are stated by the lookups it calls.
- LegacyCharacter.FillActivity: states which fields change, not their values, for the same reason.
- LegacyCharacter.FetchCharacterData: states the shape of the result and the invariants of a complete record, not every field's value, for the same reason.
- A legacy HTTP transport error makes the Go code panic on a nil response. It is modelled as an empty body (`LegacyCharacter.OrEmpty`), like the error paths that read nothing.
- `json.Marshal` of the record cannot fail, so serveData's encode errors come only from the writer.
- When the writer cannot flush, the server writes an error response ("streaming unsupported", status 500). The model records only that nothing is streamed.
- Bytes partly written before a failed write are not modelled. A write either appends a whole element or nothing.
- `utils.min` is generic in Go. `Utils.Min` is modelled on integers only.
- Invalid UTF-8 is not modelled. Strings are sequences of code points.
- Unicode white space is the fixed list of code points that Go's `unicode.IsSpace` accepts.
- The DOM and DataTables code of both front ends is not modelled: table setup, paste handling, grouping toggles, posting names and thumbnails. Only the functions that build cell text are modelled.

