# InfluxDB server: a Dafny model of its core logic

This project models the parts of the InfluxDB 2 server where a small amount of
code carries a lot of behaviour, and proves what that code does for all inputs,
all runs and all reachable states:

- **Durations.** The duration scanner with its two-character lookahead and
  wrapping 64-bit arithmetic is proved equal to a grammar with an exact-integer
  meaning (`Durations`). Both printers are proved to be read back, with the exact
  exceptions (`DurationLaws`, `OffsetText`).
- **Task option rewriting.** `UpdateFlux` ranges over a slice while it deletes from
  that slice's array. The array-and-length behaviour is modelled on values
  (`TaskOptions`), its consequences are proved (`TaskOptionLaws`), and the heap
  version with mutable property objects is proved against it (`TaskUpdates`).
- **Prefix cursors and key codecs.** The bolt cursor (`BoltCursor`, `CursorLaws`),
  64-bit IDs as hexadecimal text (`Ids`) and composite keys (`Keys`).
- **Crawls.** A page of an organization's tasks read off the index (`TaskListing`,
  `TaskPages`), its links and the requests they decode to (`TaskLinks`), and a client
  that follows them from page to page (`TaskCrawl`). The same for paging by offset
  (`Paging`, `OffsetCrawl`) and for buckets with their built-in system buckets
  (`BucketCrawl`). `Crawling` holds what crawls have in common.
- **Server life cycle.** `Serve` and its goroutines as a state machine over every
  interleaving (`ServerLifecycle`).
- **Error chains**, their reports and their JSON form (`Errors`).
- **Permissions.** The permission relation and the role lists (`Permissions`), runs of
  token creation (`Tokens`), in-place filtering of buckets (`AuthorizedLists`), resource
  paths (`ResourceNames`).
- **Retention.** Rounding a period to the seconds of a rule and back (`Retention`).

Verify with `dafny verify dfyconfig.toml`.

## How the model is made

- Integers are unbounded; `GoInt.Wrap` writes out every 64-bit wrap-around. Strings are
  sequences of runes; where the source takes the length in bytes, `Durations.ByteLen`
  counts them. IDs and keys are byte sequences.
- A duration unit and an option key are enumerations with their spelling kept beside them
  where the spelling matters.
- A bolt bucket is a sequence of pairs with increasing keys, and a bolt cursor a position
  in it. A seek beyond the last key leaves the cursor behind the last pair. That is all that
  is assumed about bolt.
- The URL of a link is its parameters (`Queries.Values`); writing them and reading them
  back is taken to lose nothing but parameters without values. Go's random map order is
  any order.
- A crawl runs against a store that does not change, with every task and bucket readable
  by the client. Looking an organization up by its name gives that name. The lemmas of
  `OffsetCrawl` and `BucketCrawl` hold for any client that gets from page to page as
  `ByLinks` says; `LinkedByLinks` proves that decoding the generated links does so.
- In `ServerLifecycle` net/http's `Serve` may return at any time, its `Shutdown` returns
  once the connections are drained, the deadline has passed or the context is cancelled,
  and signals arrive at any time.
- In `Tokens` the authorizer of a call is a token of the store. The wrapped service may give
  a new token any ID. Which organization owns which ID is any function; a *named* request gives
  an ID with the organization that owns it, or no ID. A permission is *stray* if it names an ID
  with an organization that does not own it.
- Comments in the source that the code does not bear out: `ErrorCode` is said to return the
  code of the root error and returns the outermost one; `CreateAuthorization` is said to
  check the authorizations resource and checks the user. The model follows the code.

Where a law that one would expect is false of the code, the condition under which it holds
is proved, both ways:

- a deleted offset makes `UpdateFlux` skip the property after it (`EditCorrectIff`,
  `SchedulesCoexist`), an object with both schedules keeps one of them besides the new one
  (`TwoCrons`), and two offsets can make it index out of range (`PanicsIff`,
  `TwoOffsetsPanic`);
- the overflow check of `ParseDuration` sees the sign of the wrapped total only
  (`UnsignedOverflow`, `OverflowUndetected`), and with a minus sign there is none
  (`SignedOverflow`, `SignedUndetected`);
- the least 64-bit duration cannot be read back, nor can an offset under a second
  (`FormatReads`, `OffsetReads`);
- a cursor that skips its first item skips the wrong one if the seek key is not stored
  (`AscendingSkip`, `SkipLoses`), so that a page of tasks after one that is gone from the index
  can lack a task (`PageAfterIff`), and a descending cursor starts above an absent key
  (`DescendingAbsent`, `DescendingStartsAbove`);
- the next link of a page of tasks forgets the name and the status (`NextKeepsRequestIff`,
  `CrawlCorrectIff`, `StatusForgotten`);
- a crawl from a negative offset shows items twice (`CrawlCompleteIff`, `BelowZeroRepeats`);
- a crawl of buckets one or two at a time hardly ever ends, since every page without a
  system bucket gets two (`CrawlEndsIff`);
- matching looks at the ID alone once a permission has one, so it composes only into requests
  without an ID (`TransitiveIff`); nothing checks that the organization of a permission
  owns its ID, so a permission for an organization can grant one that reaches into another
  (`MatchesSoundIff`, `GrantExactIff`), and a token can create one that is allowed more than
  itself (`CreatedInsideIff`, `RunWithinIff`, `CreatedBeyondRoot`);
- a retention rule can be accepted for a wrapped period (`RetentionExactIff`,
  `RetentionWraps`), and a period under half a second becomes one that never ends
  (`ShortIsForever`).

## Model

| member | source | states |
|---|---|---|
| `Durations.ParseDuration` | http/duration.go:21-129 | the scan returns, for every text, what the grammar says it means: optional minus, one or more (digits, unit) components, exact sum wrapped to 64 bits, overflow by sign |
| `Durations.ScanComponents` | http/duration.go:31-128 | the loop with its early exits is the fold over the components that the scanner meets |
| `Durations.NextComponent` | http/duration.go:46-117 | one round reads exactly the component at its position, or fails if there is none |
| `Durations.AddUnit` | http/duration.go:65-117 | the unit switch takes the longest unit there and adds its exact multiple modulo 2^64 |
| `Durations.ComponentsSound` | http/duration.go:45-118 | what the scanner cuts a text into spells the text |
| `Durations.ComponentsComplete` | http/duration.go:45-118 | every valid division of a text is the one the scanner finds |
| `Durations.TextInjective` | http/duration.go:66-116 | two lists of components with the same text are the same, in spite of n/ns, u/us, m/ms/mo |
| `Durations.DenotesUnique` | http/duration.go:34-118 | a text has at most one reading, sign included |
| `Durations.ScanIsParse` | http/duration.go:21-129 | the executable scan equals the grammar's meaning on all texts, also those with no reading |
| `DurationLaws.UnitsRead` | http/duration.go:65-117 | a year reads as 365 days, a month as 30, a week as 7, a day as 24 hours, and so on down to the nanosecond |
| `DurationLaws.NanosecondsRead` | http/duration.go:65-69 | so many nanoseconds read as that number |
| `DurationLaws.ShortNames` | http/duration.go:66-116 | the spelling of the units of one letter |
| `DurationLaws.LongNames` | http/duration.go:66-116 | the spelling of the units of two letters |
| `DurationLaws.UnsignedOverflow` | http/duration.go:120-128 | without a sign: exact below 2^63, rejected in [2^63, 2^64), accepted exactly when the sum modulo 2^64 is below 2^63; a rejection names the last component |
| `DurationLaws.SignedOverflow` | http/duration.go:120-128 | with a sign nothing is rejected; exact if and only if the sum is at most 2^63 |
| `DurationLaws.SignedUndetected` | http/duration.go:120-128 | for instance minus 2^63 + 1 nanoseconds is accepted as the largest duration |
| `DurationLaws.OverflowUndetected` | http/duration.go:120-123 | a text with exact sum 2^64 is accepted as zero |
| `DurationLaws.FormatText` | http/duration.go:132-155 | a duration is printed as the number of the largest of the ten units that divides it, then that unit; zero as "0s" |
| `DurationLaws.FormatReads` | http/duration.go:132-155 | parsing a formatted duration gives it back for every 64-bit value but the least, which is refused |
| `DurationLaws.FormatInjective` | http/duration.go:132-155 | no two durations are formatted alike |
| `Decimal.FormatNatLeads` | http/duration.go:132-155 | no number but zero is printed with a leading zero |
| `OffsetText.CustomParseDuration` | http/task_service.go:221-255 | the step-by-step printer writes sign, hours, minutes and seconds, leaving out the zero parts |
| `OffsetText.OffsetShown` | http/task_service.go:221-255 | so many hours, minutes, seconds and a fraction print as sign, hours, minutes and seconds in that order; the fraction and what is zero are left out |
| `OffsetText.OffsetReads` | http/task_service.go:221-255 | parsing a printed offset gives it cut to whole seconds if and only if its magnitude is at least a second and it is not the least integer; otherwise it is refused |
| `OffsetText.PrintersAgree` | http/task_service.go:221-255 | on nonzero whole seconds both printers are read as the same duration |
| `TaskOptions.PanicsIff` | task.go:349-353 | ranging while deleting indexes out of range exactly when an offset is to be deleted and two of them collide |
| `TaskOptions.TwoOffsetsPanic` | task.go:349-353 | for instance deleting the offset of {offset, offset} does |
| `TaskOptionLaws.PendingCollected` | task.go:317-337 | the edits that are collected never hold both schedules, nor an offset that is also to be deleted |
| `TaskOptionLaws.VisitOnce` | task.go:354-383 | a visit depends on the property alone, and a second visit of it changes nothing |
| `TaskOptionLaws.RunPlain` | task.go:349-384 | with nothing to delete every property is visited and none moves |
| `TaskOptionLaws.RunDelete` | task.go:349-384 | with an offset to delete at j exactly that property goes, and every other is visited but the one at j+1 when j+2 < n |
| `TaskOptionLaws.RunEnds` | task.go:349-384 | where no two properties are after the same edit, the range never panics, keeps every other property once, and misses an edit exactly when `SkipsEdit` |
| `TaskOptionLaws.CorrectIffTaken` | task.go:349-391 | the new object is the old one with the edits overriding it, with distinct keys, if and only if every property that takes an edit was visited |
| `TaskOptionLaws.EditCorrectIff` | task.go:339-393 | on distinct keys the whole edit never panics and is right, in whatever order left-over edits are added, if and only if no edit is skipped and no schedule is set on an object that has both |
| `TaskOptionLaws.TwoCrons` | task.go:365-382 | for instance setting the cron schedule of {every, cron} leaves two cron keys |
| `TaskOptionLaws.SchedulesCoexist` | task.go:349-391 | for instance {offset, every, name} changed to a cron schedule without offset ends with both schedules |
| `TaskOptionLaws.EditIdempotent` | task.go:339-393 | repeating an edit that came out right changes nothing and adds nothing |
| `TaskOptionLaws.UpdateAsAskedIff` | task.go:317-393 | on distinct keys the object ends as the options ask if and only if no property to change is skipped and no schedule is set where both were; as asked is said of the options' own values: under each key the new one or else the old one, a zero offset gone, one schedule, nothing else |
| `TaskUpdates.VisitProperty` | task.go:354-383 | the switch updates the property object and the pending edits as `Visit` says |
| `TaskUpdates.DeleteAt` | task.go:352 | appending the tail over the head shifts the shared array and leaves its last element in place |
| `TaskUpdates.VisitAt` | task.go:350-383 | one round: delete if asked to, then edit the property read before the delete |
| `TaskUpdates.RangeProperties` | task.go:349-384 | the range on the heap, with aliasing between array and objects, does what `Run` does on values, panic included |
| `TaskUpdates.AddLeftOver` | task.go:386-391 | left-over edits are appended as new properties, in some order, each once |
| `TaskUpdates.EditObject` | task.go:339-393 | the edit function on the heap gives the contents that `NewObject` describes |
| `TaskUpdates.TaskUpdate.UpdateFlux` | task.go:303-409 | from which options and objects each of the four outcomes comes, that the options are emptied on success and otherwise as they were, and that on distinct keys the rewritten object holds, key by key, what the options ask for if and only if no property to change is skipped and no schedule is set on an object that has both |
| `ServerLifecycle.StepSafe` | http/server.go:47-100 | no step of any goroutine breaks the invariant, sends or closes on a closed channel, or makes the counter negative |
| `ServerLifecycle.AlwaysSafe` | http/server.go:47-130 | in every state of every run the WaitGroup's counter is the number of live goroutines, reporting an error never blocks, signals are conserved, and only a second signal cuts the shutdown short |
| `ServerLifecycle.ReturnsClean` | http/server.go:47-100 | when Serve has returned the counter is zero, every goroutine is gone, signals are stopped, the error channel is closed, and after a shutdown the context is cancelled and the done channel closed |
| `ServerLifecycle.ReturnsWhatEnded` | http/server.go:47-100 | over every run: Serve returns c if and only if Shutdown returned c in it, and where Shutdown did not return, the error that net/http's Serve returned in it, or none |
| `ServerLifecycle.SomeoneMoves` | http/server.go:47-100 | outside net/http some goroutine can always take a step until Serve returns |
| `ServerLifecycle.BlockedOnlyInNetHttp` | http/server.go:47-100 | in a reachable state where the program is stuck, Serve has returned or the wait is inside net/http |
| `ServerLifecycle.RankDrops` | http/server.go:47-100 | every step that is not the outside world's brings the run nearer to its end |
| `ServerLifecycle.RunsAreShort` | http/server.go:47-100 | no run takes more than seventeen steps of its own, whatever arrives |
| `ServerLifecycle.RunsEndReturned` | http/server.go:47-100 | a run that cannot go on has returned, or waits in a Shutdown that nothing has ended, one signal taken, none pending, and the watcher waiting for a second |
| `ServerLifecycle.TwoDelivered` | http/server.go:114-130 | of the signals that arrive the first two are never dropped |
| `ServerLifecycle.SecondSignalReturns` | http/server.go:22-24 | a run in which two signals arrived cannot stop before Serve has returned |
| `ServerLifecycle.NoSignalsNoShutdown` | http/server.go:114-117 | with no signal registered the shutdown is never entered |
| `BoltCursor.Cursor.constructor` | bolt/kv.go:212-241 | the cursor remembers the pair it landed on unless it is to be skipped |
| `BoltCursor.Cursor.Next` | bolt/kv.go:307-327 | hands out the first of the remaining pairs and leaves the rest, and nothing for ever once none remain |
| `BoltCursor.Cursor.Close` | bolt/kv.go:264-268 | nothing remains after closing |
| `CursorLaws.ForwardCursor` | bolt/kv.go:212-241 | refused exactly when the seek key lacks the prefix; otherwise the calls to come return the listing from the landing place, in both directions and also from beyond the last key |
| `CursorLaws.AscendingScan` | bolt/kv.go:307-327 | ascending: in order and once each the stored keys from the seek key on that have the prefix, although the scan stops at the first without it |
| `CursorLaws.AscendingSkip` | bolt/kv.go:232-238 | skipping the first item gives the keys after the seek key if and only if that key is stored or there is nothing to skip |
| `CursorLaws.SkipLanded` | bolt/kv.go:232-238 | it always gives the keys after the one landed on |
| `CursorLaws.SkipLoses` | bolt/kv.go:232-238 | for instance after key 3 the only key, 5, is not listed |
| `CursorLaws.DescendingScan` | bolt/kv.go:219-238 | descending from a stored key: the keys up to it that have the prefix, reversed |
| `CursorLaws.DescendingAll` | bolt/kv.go:219-221 | descending without a seek key: all keys that have the prefix, reversed |
| `CursorLaws.DescendingSkip` | bolt/kv.go:219-238 | descending and skipping the first item: the keys below the seek key that have the prefix, reversed, whether that key is stored or not |
| `CursorLaws.DescendingBeyond` | bolt/kv.go:219-238 | descending from beyond the last key: the keys up to it that have the prefix, reversed, whether the first item is skipped or not |
| `CursorLaws.DescendingAbsent` | bolt/kv.go:219-238 | descending from an absent key below a stored one: right if and only if there is nothing to list |
| `CursorLaws.DescendingStartsAbove` | bolt/kv.go:219-238 | for instance down from key 3, key 5 comes before key 1 |
| `Ids.DecodeEncode` | id.go:60-106 | decoding the encoding of a valid ID gives it back |
| `Ids.EncodeDecode` | id.go:60-106 | encoding a decoded text gives it in lower case |
| `Ids.DecodeFails` | id.go:60-74 | decoding fails exactly on a length other than sixteen, a byte that is no hexadecimal digit, and zero |
| `Ids.HexValueIff` | id.go:65-68 | a byte counts as a digit if it is that digit, in either case of a letter |
| `Ids.HexDigitIs` | id.go:94-106 | the digits are 0 to 9 and a to f |
| `Ids.EncodeOrdered` | id.go:94-106 | encoded IDs sort as their numbers |
| `Ids.Receiver.DecodeInto` | id.go:60-74 | what the receiver holds afterwards in each case, zero included |
| `Ids.ParseIdText` | id.go:42-49 | an ID written as text is parsed as itself |
| `Ids.IdTextIs` | id.go:94-106 | the text of an ID: sixteen digits, none for zero |
| `Keys.EncodeKey` | kv/encode.go:14-27 | the concatenation of the parts, or an error exactly if one fails, with the key of the parts before it |
| `Keys.CompositeIsConcat` | kv/encode.go:14-49 | IDs and one trailing string encode to their bytes in a row |
| `Keys.PrefixIsolates` | kv/encode.go:14-49 | a key starts with the encoding of an ID if and only if it is that ID's |
| `Keys.CompositeInjective` | kv/encode.go:14-49 | keys of equally many IDs and one trailing text are equal only if all parts are |
| `Keys.CompositeAmbiguous` | kv/encode.go:14-49 | with different numbers of IDs two keys can be equal |
| `Keys.TaskOrgKeyParts` | kv/task.go:1670-1681 | an index key is the organization's digits, a slash and the task's digits |
| `Keys.TaskOrgKeyOrdered` | kv/task.go:1670-1681 | within an organization index keys sort by task ID |
| `TaskListing.FindTasksByOrg` | kv/task.go:354-443 | the loop over the cursor returns what `Collect` makes of the pairs listed, errors and early exits included, and every task it returns is of the organization and has the name, status and type asked for |
| `TaskListing.Examine` | kv/task.go:414-434 | an index entry stops the listing with an error if and only if its value is not the hexadecimal text of a nonzero ID, ends it if and only if it names a task of another organization, and is taken if and only if it names a task of this one that matches; all others are passed over |
| `TaskPages.CollectTakes` | kv/task.go:413-442 | on the organization's entries the loop takes the first matching tasks up to the limit, skipping stale entries |
| `TaskPages.TasksIncreasing` | kv/task.go:354-443 | an organization's tasks are listed by increasing ID, each once |
| `TaskPages.TasksOfIs` | kv/task.go:450-490 | a task is listed if and only if it exists, is indexed under the organization, and has the name, the status and the type asked for, if any; no type counts as "system" |
| `TaskPages.PageLists` | kv/task.go:354-443 | exactly which tasks a page holds, in increasing order: those to list behind where it starts, up to the last one of a full page |
| `TaskPages.PageBehind` | kv/task.go:354-443 | the page after a task that is listed is the next limit of them |
| `TaskPages.PageAfter` | kv/task.go:354-443 | the page after any ID is the first limit of the tasks behind the indexed task that the cursor skips, which need not be that one |
| `TaskPages.PageAfterIff` | kv/task.go:354-443 | it is the first limit of the tasks after that ID if and only if the ID is indexed, or the one skipped in its place, if any, is none to list |
| `TaskLinks.QueryParams` | task.go:424-447 | each parameter carries its field and nothing else; name, status and type are not carried |
| `TaskLinks.NewTasksPagingLinks` | http/task_service.go:278-308 | the index into the page is out of range exactly for limits below one; the next link exists exactly on full pages and differs from self in `after` |
| `TaskLinks.DecodeLimit` | http/task_service.go:498-512 | accepted limits are 1 to 500, an absent one is 100, and which error a refused one gives |
| `TaskLinks.DecodeGetTasksRequest` | http/task_service.go:454-528 | which requests are accepted, each field of the filter by its parameter, and for each error exactly the requests that get it |
| `TaskLinks.SelfQueryDecodes` | http/task_service.go:284-295 | the self link decodes to the request without name and status |
| `TaskLinks.NextQueryDecodes` | http/task_service.go:297-301 | the next link decodes to the request continued after the last task, without name and status |
| `TaskLinks.NextKeepsRequestIff` | http/task_service.go:278-308 | it decodes to the request continued if and only if no name and no status was asked for |
| `TaskLinks.StatusForgotten` | http/task_service.go:278-308 | for instance a request for active tasks goes on as one for all |
| `TaskCrawl.CrawlFrom` | http/task_service.go:278-308 | from any position there is exactly one crawl, the remaining tasks cut into pages |
| `TaskCrawl.CrawlComplete` | http/task_service.go:278-308 | with no name and status following next links lists every task once and ends after n/limit + 1 pages |
| `TaskCrawl.CrawlExists` | http/task_service.go:278-308 | every request for an organization's tasks, with whatever name, status and `after`, has a crawl, which ends |
| `TaskCrawl.CrawlLists` | http/task_service.go:278-308 | what a crawl lists from any request, with or without `after`: a filtered first page, then everything after it |
| `TaskCrawl.CrawlCorrectIff` | http/task_service.go:278-308 | from any request it lists what was asked for if and only if no task is skipped at the start, and the first page is not full or every later task matches |
| `Queries.AddParams` | http/paging.go:88-104 | adding a map of parameters in any order keeps what was there and appends the values that are not empty |
| `Queries.NonEmptyIs` | http/paging.go:88-104 | empty values are left out, every other occurs as often as before |
| `Paging.DecodeFindOptions` | http/paging.go:13-67 | which requests are accepted, each option by its parameter with the defaults, and the first parameter at fault |
| `Paging.QueryParams` | paging.go:34-49 | each parameter carries its option and nothing else |
| `Paging.NewPagingLinks` | http/paging.go:83-133 | next exists exactly on full pages, at the wrapped sum; prev exactly beyond offset zero, not below zero; all else as in self |
| `Paging.LinkDecodesIff` | http/paging.go:13-67 | a link decodes to its options at its offset if and only if the limit is 1 to 100; without a limit it decodes to 20 |
| `Paging.ThereAndBack` | http/paging.go:109-125 | prev of next is the page itself; next of prev is if and only if the offset is at least the limit |
| `OffsetCrawl.FindPage` | kv/bucket.go:406-430 | the counting callback returns the kept items from the offset on, up to the limit |
| `OffsetCrawl.PageIs` | kv/bucket.go:406-430 | a page by positions: from the offset, or the first item, as many as there are up to a positive limit |
| `OffsetCrawl.KeptIs` | kv/bucket.go:412-418 | an item is kept as often as it occurs or not at all |
| `OffsetCrawl.LinkedByLinks` | http/paging.go:83-133 | decoding the generated next link gives the same options at the next offset, and none after a page that is not full |
| `OffsetCrawl.CrawlFrom` | http/paging.go:83-133 | from an offset within the store there is exactly one crawl; it lists what remains, each item once, in (n - offset)/limit + 1 pages |
| `OffsetCrawl.CrawlFromBelow` | http/paging.go:17-27 | from a negative offset a crawl whose first page is full shows more items than there are |
| `OffsetCrawl.BelowZeroRepeats` | http/paging.go:17-27 | for instance from offset -1 two items are shown as three |
| `OffsetCrawl.CrawlCompleteIff` | http/paging.go:83-133 | exactly from which requests a crawl lists every item once |
| `OffsetCrawl.CrawlEnds` | http/paging.go:83-133 | every crawl by offset ends |
| `BucketCrawl.FindBuckets` | kv/bucket.go:338-390 | a page is completed with the two system buckets exactly when it has no system bucket and no name was asked for |
| `BucketCrawl.NeedsSystemBuckets` | kv/bucket.go:356-362 | true exactly if no bucket of the page has the system type |
| `BucketCrawl.SystemBucketsAre` | kv/bucket.go:364-384 | the IDs, names and periods of the two |
| `BucketCrawl.NeverEnds` | kv/bucket.go:352-384 | from any offset with pages of one, or of two where none can be a lone system bucket, every page has a next link |
| `BucketCrawl.OwnOnce` | kv/bucket.go:352-384 | the completed pages of the store hold every bucket that is no system bucket once, in order |
| `BucketCrawl.CrawlShowsOwn` | kv/bucket.go:352-384 | a crawl that ends, from an offset within the store, has shown each bucket from there on that is no system bucket once, in order |
| `BucketCrawl.CrawlEndsIff` | kv/bucket.go:352-384 | from any offset, a crawl ends if and only if the limit is at least three, or it is two and the last bucket is a system bucket that some page holds alone |
| `Errors.ReportsOutermost` | errors.go:121-198 | code, operation and message of a chain are the outermost that is not empty, with a default that depends on the end of the chain alone |
| `Errors.TextIsJoined` | errors.go:105-118 | the text of a chain is its messages and what its end says, joined by colons |
| `Errors.TextExamples` | errors.go:105-118 | for instance the text of one error, and of one around another |
| `Errors.TextFailsIff` | errors.go:105-118 | writing the text fails exactly on a chain that ends in a nil pointer |
| `Errors.MarshalJSON` | errors.go:208-226 | returns the encoding, after 2^depth - 1 calls of itself, since each level encodes the next twice |
| `Errors.Receiver.UnmarshalJSON` | errors.go:229-258 | each field by its member, set also where it reports an error, and when it reports one |
| `Errors.EncodeFailsIff` | errors.go:208-226 | encoding fails exactly on a chain that ends in a nil pointer |
| `Errors.EncodeMembers` | errors.go:200-226 | the code is always written, message and operation if not empty, the inner error as text or as an object |
| `Errors.DecodeEncode` | errors.go:208-258 | decoding an encoded chain of any depth gives code, message, operation and nesting back, with a foreign end as a plain error of the same text |
| `Errors.PlainReportsSame` | errors.go:105-198 | code, operation, message and text are the same before and after |
| `Errors.EncodeSameIff` | errors.go:208-226 | two chains have the same JSON if and only if they differ in the type of a foreign end only |
| `Permissions.MatchesIsCovers` | authz.go:211-245 | a request that names ID and owner is matched exactly by the permissions that cover the thing |
| `Permissions.MatchesSoundIff` | authz.go:211-245 | a permission covers everything that a permission it matches covers, if and only if it is not for an organization as a whole or the other does not name that organization with an ID of another |
| `Permissions.MatchesReflexive` | authz.go:211-245 | every permission grants itself |
| `Permissions.TransitiveIff` | authz.go:211-245 | matching composes into a request, through whatever permission, if and only if the request names no ID |
| `Permissions.GrantExactIff` | authz.go:211-245 | where p matches q, p matches every named request that q matches if and only if p is not for an organization as a whole or q names no organization that does not own its ID |
| `Permissions.InsideIff` | authz.go:34-41 | a list of permissions allows no named request that another does not, if and only if the other allows each of its permissions put under the organization that owns the ID |
| `Permissions.PermissionAllowed` | authz.go:34-41 | true exactly when some permission of the list matches |
| `Permissions.OwnerPermissions` | authz.go:349-361 | the list, in order, and exactly the requests it allows an owner: everything of a known type in the organization |
| `Permissions.MemberPermissions` | authz.go:374-385 | the list, in order, and exactly the requests it allows a member: reading it |
| `Permissions.OperPermissions` | authz.go:327-336 | the list, in order, and exactly the requests it allows an operator: everything of a known type |
| `Permissions.RolesAllow` | authz.go:327-385 | exactly which requests owners, members and operators may make |
| `Tokens.IsAllowed` | authorizer/authorize.go:13-35 | passes if and only if there is an authorizer that is active and has a permission that matches; which error it gives otherwise |
| `Tokens.MayWriteIff` | authorizer/auth.go:25-60 | who may change a user's tokens: an active token with a permission to write users at large or that user |
| `Tokens.VerifyPermissions` | authorizer/auth.go:132-144 | passes exactly when the authorizer is allowed every permission |
| `Tokens.AuthorizationService.CreateAuthorization` | authorizer/auth.go:119-129 | succeeds exactly when the authorizer may write the user and is allowed every permission, and the wrapped service finds that every permission with an organization names the token's; otherwise the store is as it was |
| `Tokens.AuthorizationService.UpdateAuthorization` | authorizer/auth.go:147-158 | changes the status of that token alone, exactly when the authorizer may write its user |
| `Tokens.AuthorizationService.DeleteAuthorization` | authorizer/auth.go:161-172 | removes that token alone, exactly when the authorizer may write its user |
| `Tokens.AuthorizationService.Perform` | authorizer/auth.go:119-172 | the three calls, made by a token of the store, do what the steps of a run do, and nothing where the run has no such step |
| `Tokens.InactiveNeverActs` | authorizer/auth.go:119-172 | in every run a token that is inactive or gone makes no call until it is created or activated again |
| `Tokens.RunOrgBound` | auth.go:36-47 | no run gives a token a permission in another organization than its own |
| `Tokens.CheckCarries` | authorizer/auth.go:119-144 | where a creation passes the check, the creator is allowed everything it gives under the organizations that own the IDs, if and only if it is allowed so the stray permissions, those whose organization does not own their ID |
| `Tokens.CreatedInsideIff` | authorizer/auth.go:119-144 | a token that is created allows no named request that its creator does not, if and only if the creator is allowed under the owner each stray permission it gives |
| `Tokens.ExactOwned` | authorizer/auth.go:119-144 | that is so for every successful creation that gives each stray permission by one of the creator that is not for a whole organization, where the grant is exact in the sense of `GrantExactIff` |
| `Tokens.RespectfulOwned` | authorizer/auth.go:119-144 | and for every successful creation that gives no stray permission |
| `Tokens.RunWithin` | authorizer/auth.go:119-172 | every run of creating, updating and deleting tokens that passes the check keeps every token inside the roots, if each stray permission given is allowed to its giver under the owner (which the source does not check) |
| `Tokens.RespectfulWithin` | authorizer/auth.go:119-172 | every run that passes the check and gives no stray permission keeps every token inside the roots |
| `Tokens.RunWithinIff` | authorizer/auth.go:119-172 | a run that passes the check, from a store inside the roots, stays inside them at every step if and only if the roots allow under the owner each stray permission that it gives |
| `Tokens.NeverBeyondRoot` | authorizer/auth.go:119-172 | from one root token on, in a run that passes the check and gives no stray permission, or only such as are allowed to their givers under the owner, every token allows only named requests that the root allows |
| `Tokens.WithinIff` | authz.go:34-41 | the tokens of any store are inside the roots if and only if the roots allow each of their permissions put under the owner |
| `Tokens.CreatedBeyondRoot` | authorizer/auth.go:119-144 | for instance a token for the buckets of organization 1 creates one for bucket 7 in organization 1; if organization 2 owns the bucket, the new token allows reading it there and the root does not |
| `AuthorizedLists.AuthorizeReadBucket` | authorizer/bucket.go:25-43 | which outcome the check of one bucket has |
| `AuthorizedLists.KeptIff` | authorizer/bucket.go:110-144 | a bucket is kept if and only if it is a system bucket, or its IDs are valid and the authorizer is active and may read all buckets, those of its organization, or it; which error it gives otherwise |
| `AuthorizedLists.FindBuckets` | authorizer/bucket.go:110-144 | compaction in the array: the readable buckets in order and their count, nothing beyond them written, or the error of the first bucket in the list that has one |
| `AuthorizedLists.ReadableCount` | authorizer/bucket.go:124-141 | a bucket is kept as often as it occurs or not at all |
| `AuthorizedLists.ReadableOrder` | authorizer/bucket.go:124-141 | the buckets kept stand at increasing positions, which are those to keep |
| `ResourceNames.JoinInjective` | authz.go:81-95 | a path determines its elements |
| `ResourceNames.PathText` | authz.go:81-95 | the text of the path in each of the four cases |
| `ResourceNames.PathInjective` | authz.go:81-95 | valid resources with the same path are the same |
| `Retention.RetentionExactIff` | http/bucket_service.go:151-161 | a rule means its seconds exactly for 1 to 9223372036 of them |
| `Retention.RetentionAcceptedIff` | http/bucket_service.go:151-161 | a rule is accepted exactly if its nanoseconds modulo 2^64 are a second at least and below 2^63, and means those |
| `Retention.RetentionWraps` | http/bucket_service.go:151-161 | 18446744075 seconds are accepted for little more than one |
| `Retention.SecondsNearest` | http/bucket_service.go:193-205 | the seconds of a period are the nearest, or the last whole one where the nearest does not fit |
| `Retention.HttpForm` | http/bucket_service.go:193-217 | the type as text, one rule of the seconds or none under half a second, everything else copied |
| `Retention.ToInfluxDBIff` | http/bucket_service.go:163-190 | refused exactly for a rule that is refused; without a rule the period is none |
| `Retention.RoundTrip` | http/bucket_service.go:163-217 | a bucket comes back from its HTTP form for every period, never with an error |
| `Retention.RoundTripNear` | http/bucket_service.go:163-217 | a period moves by half a second at most, by less than one where rounding overflows |
| `Retention.RoundTripSettles` | http/bucket_service.go:163-217 | a second trip changes nothing |
| `Retention.RoundTripExactIff` | http/bucket_service.go:163-217 | a bucket comes back unchanged if and only if its type is known and its period is whole seconds |
| `Retention.ShortIsForever` | http/bucket_service.go:193-205 | a period comes back as infinite exactly if it is under half a second |

## Left out

- HTTP handlers, clients, routers and response structs: plumbing around services.
- The Flux parser, the formatter and `edit.Option`: `UpdateFlux` starts from an option object that has been found.
- bbolt itself, transactions, `Cursor.Prev`, `Cursor.Seek`, `Cursor.First` and `Cursor.Last`: library behaviour and thin wrappers.
- `findTasksByUser`: it walks the user's resource mappings and passes over the tasks up to and including `after`.
- `findAllTasks`: a cursor over the tasks themselves.
- `FindAuthorizations`: the same compaction as `FindBuckets` with another check.
- `BucketCrawl.CrawlShowsOwn`: says nothing of negative offsets, from which buckets repeat as in `BelowZeroRepeats`.
- Other refusals of the wrapped authorization service: unknown users and organizations, token strings in use.
- Sessions as authorizers, and tokens that are deactivated between their lookup and their use.
- The authorizing layer between the store and the links of a page: a page that it shortens has no next link.
- Stores that change during a crawl.
- `http/middleware.go`, route templates: the segments of a path compared one by one with those of a template.
- JSON text, URL escaping, JSON keys in another case, invalid UTF-8.
- `filepath.Join` on elements with slashes or dots, which valid resources do not have.
- Create and update times of a bucket (`CRUDLog`), which are copied unchanged.
- Other packages of the repository (storage engine, query, chronograf, gather, telegraf).
